/**
 The values of the configuration pair: documents, revisions and the write-ahead record
 (aflow/config_pair.py:57-106 and 255-350).

 Two idealizations: sha256 is injective (a Digest is its own preimage), and a record file
 holds a parsed JSON value beside the number of bytes its text takes.
 */
module PairRecord {
  import opened Prelude
  import opened Base64

  const MAX_CONFIG_DOCUMENT_BYTES: nat := 256 * 1024
  const MAX_TRANSACTION_RECORD_BYTES: nat := 6 * MAX_CONFIG_DOCUMENT_BYTES + 16 * 1024

  datatype Name = AflowToml | WorkflowsToml
  const DOCUMENT_NAMES: seq<Name> := [AflowToml, WorkflowsToml]

  predicate DocumentFits(document: Option<Bytes>) {
    document.Some? ==> |document.value| <= MAX_CONFIG_DOCUMENT_BYTES
  }

  /** One generation on disk; a document may be missing. */
  datatype Pair = Pair(aflow: Option<Bytes>, workflows: Option<Bytes>) {
    function At(n: Name): Option<Bytes> {
      match n case AflowToml => aflow case WorkflowsToml => workflows
    }

    function With(n: Name, document: Option<Bytes>): Pair {
      match n case AflowToml => this.(aflow := document) case WorkflowsToml => this.(workflows := document)
    }

    predicate Fits() {
      DocumentFits(aflow) && DocumentFits(workflows)
    }
  }

  /** The candidate contents of one save; both documents are present. */
  datatype Payloads = Payloads(aflow: Bytes, workflows: Bytes) {
    function At(n: Name): Bytes {
      match n case AflowToml => aflow case WorkflowsToml => workflows
    }

    function AsPair(): Pair {
      Pair(Some(aflow), Some(workflows))
    }

    predicate Fits() {
      AsPair().Fits()
    }
  }

  datatype Digest = Digest(preimage: Bytes)

  function Ascii(s: string): Bytes {
    seq(|s|, i requires 0 <= i < |s| => s[i] as int % 256)
  }

  const SEPARATOR: Bytes := [0] + Ascii("workflows.toml") + [0]

  function HashedBytes(aflow: Bytes, workflows: Bytes): Bytes {
    Ascii("aflow.toml") + [0] + aflow + SEPARATOR + workflows
  }

  function PairRevision(aflow: Bytes, workflows: Bytes): Digest {
    Digest(HashedBytes(aflow, workflows))
  }

  /** A missing document counts as an empty one. */
  function BytesOf(document: Option<Bytes>): Bytes {
    if document.Some? then document.value else []
  }

  function Revision(p: Pair): Digest {
    PairRevision(BytesOf(p.aflow), BytesOf(p.workflows))
  }

  predicate SameContent(p: Pair, q: Pair) {
    BytesOf(p.aflow) == BytesOf(q.aflow) && BytesOf(p.workflows) == BytesOf(q.workflows)
  }

  /** The separator occurs in a text at a position. */
  predicate SeparatorAt(text: Bytes, i: int) {
    0 <= i && i + |SEPARATOR| <= |text| && text[i..i + |SEPARATOR|] == SEPARATOR
  }

  lemma SplitHashed(aflow: Bytes, workflows: Bytes)
    ensures HashedBytes(aflow, workflows) == Ascii("aflow.toml") + [0] + (aflow + SEPARATOR + workflows)
  {
  }

  /**
   Two revisions collide when the two pairs split the same bytes at two places where the separator
   occurs.  The one with the longer first document then has a NUL byte inside it.
   */
  lemma RevisionCollision(a: Bytes, w: Bytes, a': Bytes, w': Bytes)
    requires |a| <= |a'|
    ensures PairRevision(a, w) == PairRevision(a', w')
       <==> a' + SEPARATOR + w' == a + SEPARATOR + w
    ensures PairRevision(a, w) == PairRevision(a', w') ==> SeparatorAt(a' + SEPARATOR + w', |a|)
    ensures PairRevision(a, w) == PairRevision(a', w') && |a| < |a'| ==> a'[|a|] == 0
    ensures PairRevision(a, w) == PairRevision(a', w') && |a| == |a'| ==> a == a' && w == w'
  {
    SplitHashed(a, w);
    SplitHashed(a', w');
    var text, text' := a + SEPARATOR + w, a' + SEPARATOR + w';
    if PairRevision(a, w) == PairRevision(a', w') {
      var prefix := Ascii("aflow.toml") + [0];
      assert text == HashedBytes(a, w)[|prefix|..];
      assert text' == HashedBytes(a', w')[|prefix|..];
      assert text[|a|..|a| + |SEPARATOR|] == SEPARATOR;
      if |a| < |a'| {
        assert text'[|a|] == a'[|a|];
        assert text[|a|] == SEPARATOR[0];
      } else {
        assert text[..|a|] == a && text'[..|a|] == a';
        assert text[|a| + |SEPARATOR|..] == w && text'[|a| + |SEPARATOR|..] == w';
      }
    }
  }

  lemma SplitAt(text: Bytes, i: int, a: Bytes, w: Bytes)
    requires text == a + SEPARATOR + w && |a| == i
    ensures SeparatorAt(text, i)
    ensures a == text[..i] && w == text[i + |SEPARATOR|..]
  {
  }

  lemma CollisionGivesSeparator(a: Bytes, w: Bytes, a': Bytes, w': Bytes)
    requires (a' != a || w' != w) && PairRevision(a', w') == PairRevision(a, w)
    ensures |a'| != |a| && SeparatorAt(a + SEPARATOR + w, |a'|)
  {
    if |a| <= |a'| {
      RevisionCollision(a, w, a', w');
    } else {
      RevisionCollision(a', w', a, w);
    }
    SplitAt(a + SEPARATOR + w, |a'|, a', w');
  }

  lemma SeparatorGivesCollision(a: Bytes, w: Bytes, i: int)
    requires i != |a| && SeparatorAt(a + SEPARATOR + w, i)
    ensures var text := a + SEPARATOR + w;
            text[..i] != a && PairRevision(text[..i], text[i + |SEPARATOR|..]) == PairRevision(a, w)
  {
    var text := a + SEPARATOR + w;
    assert text == text[..i] + SEPARATOR + text[i + |SEPARATOR|..];
    SplitHashed(a, w);
    SplitHashed(text[..i], text[i + |SEPARATOR|..]);
  }

  /**
   Some other pair has the revision of a pair exactly when the text of this pair holds the separator
   at a second place; the other pair is the one split there.
   */
  lemma RevisionCollidesExactly(a: Bytes, w: Bytes)
    ensures (exists a': Bytes, w': Bytes :: (a' != a || w' != w) && PairRevision(a', w') == PairRevision(a, w))
       <==> exists i :: i != |a| && SeparatorAt(a + SEPARATOR + w, i)
  {
    if a': Bytes, w': Bytes :| (a' != a || w' != w) && PairRevision(a', w') == PairRevision(a, w) {
      CollisionGivesSeparator(a, w, a', w');
    }
    if i :| i != |a| && SeparatorAt(a + SEPARATOR + w, i) {
      SeparatorGivesCollision(a, w, i);
    }
  }

  /** Without NUL bytes in the first documents a revision identifies the content of a pair. */
  lemma RevisionIdentifiesContent(p: Pair, q: Pair)
    requires 0 !in BytesOf(p.aflow) && 0 !in BytesOf(q.aflow)
    ensures Revision(p) == Revision(q) <==> SameContent(p, q)
  {
    if |BytesOf(p.aflow)| <= |BytesOf(q.aflow)| {
      RevisionCollision(BytesOf(p.aflow), BytesOf(p.workflows), BytesOf(q.aflow), BytesOf(q.workflows));
    } else {
      RevisionCollision(BytesOf(q.aflow), BytesOf(q.workflows), BytesOf(p.aflow), BytesOf(p.workflows));
    }
  }

  /** With a NUL byte allowed the revision is not injective. */
  lemma RevisionsCollideWithNul() returns (p: Pair, q: Pair)
    ensures !SameContent(p, q) && Revision(p) == Revision(q)
  {
    p, q := Pair(Some([]), Some(SEPARATOR)), Pair(Some(SEPARATOR), Some([]));
    assert [] + SEPARATOR + SEPARATOR == SEPARATOR + SEPARATOR + [];
    RevisionCollision([], SEPARATOR, SEPARATOR, []);
  }

  datatype Phase = Prepared | Committed

  /** The object keys a record may hold; any other key is Foreign. */
  datatype Key = SchemaVersion | PhaseKey | Documents | Document(name: Name) | Old | New | Base64Key | Sha256Key
               | Foreign(text: string)

  /** Hash is a well-formed 64-digit hexadecimal text; any other text is Text. */
  datatype Json = Null | Number(n: int) | Text(s: string) | Hash(d: Digest) | Object(fields: map<Key, Json>)

  datatype RecordFile = RecordFile(size: nat, content: Option<Json>)

  datatype Transaction = Transaction(phase: Phase, prior: Pair, next: Payloads) {
    /** The generation recovery installs. */
    function Target(): Pair {
      if phase == Prepared then prior else next.AsPair()
    }

    /** A current document is one of the two recorded generations. */
    predicate Accepts(n: Name, current: Option<Bytes>) {
      current == prior.At(n) || current == Some(next.At(n))
    }
  }

  function PhaseText(phase: Phase): string {
    match phase case Prepared => "prepared" case Committed => "committed"
  }

  function EncodePayload(payload: Option<Bytes>): Json {
    match payload
    case None => Null
    case Some(b) => Object(map[Base64Key := Text(Encode(b)), Sha256Key := Hash(Digest(b))])
  }

  function EncodeDocument(prior: Option<Bytes>, next: Bytes): Json {
    Object(map[Old := EncodePayload(prior), New := EncodePayload(Some(next))])
  }

  function EncodeDocuments(t: Transaction): Json {
    Object(map[Document(AflowToml) := EncodeDocument(t.prior.aflow, t.next.aflow),
               Document(WorkflowsToml) := EncodeDocument(t.prior.workflows, t.next.workflows)])
  }

  function EncodeRecord(t: Transaction): Json {
    Object(map[SchemaVersion := Number(1), PhaseKey := Text(PhaseText(t.phase)), Documents := EncodeDocuments(t)])
  }

  /** Bytes of the compact JSON text of one payload: the digest takes 64 digits. */
  function PayloadSize(payload: Option<Bytes>): nat {
    match payload
    case None => |"null"|
    case Some(b) => |"{\"base64\":\""| + |Encode(b)| + |"\",\"sha256\":\""| + 64 + |"\"}"|
  }

  function DocumentSize(prior: Option<Bytes>, next: Bytes): nat {
    |"{\"new\":"| + PayloadSize(Some(next)) + |",\"old\":"| + PayloadSize(prior) + |"}"|
  }

  /** Bytes of the compact JSON text of a record, keys sorted. */
  function RecordSize(t: Transaction): nat {
    |"{\"documents\":{\"aflow.toml\":"| + DocumentSize(t.prior.aflow, t.next.aflow)
    + |",\"workflows.toml\":"| + DocumentSize(t.prior.workflows, t.next.workflows)
    + |"},\"phase\":\""| + |PhaseText(t.phase)| + |"\",\"schema_version\":1}"|
  }

  function WrittenRecord(t: Transaction): RecordFile {
    RecordFile(RecordSize(t), Some(EncodeRecord(t)))
  }

  datatype RecordError = RecordTooLarge | Malformed | UnsupportedVersion | PayloadTooLarge | DigestMismatch

  function DecodePayload(entry: Json): Result<Bytes, RecordError> {
    if !entry.Object? || entry.fields.Keys != {Base64Key, Sha256Key} then Failure(Malformed) else
    var encoded, digest := entry.fields[Base64Key], entry.fields[Sha256Key];
    if !encoded.Text? || !digest.Hash? then Failure(Malformed) else
    match Decode(encoded.s)
    case None => Failure(Malformed)
    case Some(payload) =>
      if |payload| > MAX_CONFIG_DOCUMENT_BYTES then Failure(PayloadTooLarge)
      else if Digest(payload) != digest.d then Failure(DigestMismatch)
      else Success(payload)
  }

  datatype DocumentTransaction = DocumentTransaction(prior: Option<Bytes>, next: Bytes)

  function ParseDocument(entry: Json): Result<DocumentTransaction, RecordError> {
    if !entry.Object? || entry.fields.Keys != {Old, New} then Failure(Malformed) else
    var prior := if entry.fields[Old].Null? then Success(None)
               else match DecodePayload(entry.fields[Old])
                    case Success(b) => Success(Some(b))
                    case Failure(e) => Failure(e);
    match prior
    case Failure(e) => Failure(e)
    case Success(o) =>
      match DecodePayload(entry.fields[New])
      case Failure(e) => Failure(e)
      case Success(b) => Success(DocumentTransaction(o, b))
  }

  function ParseDocuments(phase: Phase, documents: Json): Result<Transaction, RecordError> {
    if !documents.Object? || documents.fields.Keys != {Document(AflowToml), Document(WorkflowsToml)} then
      Failure(Malformed)
    else
    match ParseDocument(documents.fields[Document(AflowToml)])
    case Failure(e) => Failure(e)
    case Success(a) =>
      match ParseDocument(documents.fields[Document(WorkflowsToml)])
      case Failure(e) => Failure(e)
      case Success(w) => Success(Transaction(phase, Pair(a.prior, w.prior), Payloads(a.next, w.next)))
  }

  function ParseRecord(file: RecordFile): Result<Transaction, RecordError> {
    if file.size > MAX_TRANSACTION_RECORD_BYTES then Failure(RecordTooLarge) else
    if file.content.None? then Failure(Malformed) else
    ParseContent(file.content.value)
  }

  function ParseContent(parsed: Json): Result<Transaction, RecordError> {
    if !parsed.Object? || parsed.fields.Keys != {SchemaVersion, PhaseKey, Documents} then Failure(Malformed) else
    if parsed.fields[SchemaVersion] != Number(1) then Failure(UnsupportedVersion) else
    match ParsePhase(parsed.fields[PhaseKey])
    case None => Failure(Malformed)
    case Some(phase) => ParseDocuments(phase, parsed.fields[Documents])
  }

  function ParsePhase(phase: Json): Option<Phase> {
    if phase == Text(PhaseText(Prepared)) then Some(Prepared)
    else if phase == Text(PhaseText(Committed)) then Some(Committed)
    else None
  }

  lemma ParsePhaseText(phase: Phase)
    ensures ParsePhase(Text(PhaseText(phase))) == Some(phase)
  {
    assert |PhaseText(Prepared)| == 8 && |PhaseText(Committed)| == 9;
  }

  lemma PayloadFits(payload: Option<Bytes>)
    requires DocumentFits(payload)
    ensures PayloadSize(payload) <= 349528 + 100
  {
    if payload.Some? {
      EncodeLaws(payload.value);
    }
  }

  /** Four documents within the per-document limit give a record within the record limit. */
  lemma RecordFits(t: Transaction)
    requires t.prior.Fits() && t.next.Fits()
    ensures RecordSize(t) <= MAX_TRANSACTION_RECORD_BYTES
  {
    PayloadFits(t.prior.aflow);
    PayloadFits(t.prior.workflows);
    PayloadFits(Some(t.next.aflow));
    PayloadFits(Some(t.next.workflows));
  }

  lemma DecodeEncodedPayload(b: Bytes)
    requires |b| <= MAX_CONFIG_DOCUMENT_BYTES
    ensures DecodePayload(EncodePayload(Some(b))) == Success(b)
  {
    EncodeLaws(b);
  }

  lemma ParseEncodedDocument(prior: Option<Bytes>, next: Bytes)
    requires DocumentFits(prior) && DocumentFits(Some(next))
    ensures ParseDocument(EncodeDocument(prior, next)) == Success(DocumentTransaction(prior, next))
  {
    DecodeEncodedPayload(next);
    if prior.Some? {
      DecodeEncodedPayload(prior.value);
    }
  }

  lemma ParseEncodedDocuments(t: Transaction)
    requires t.prior.Fits() && t.next.Fits()
    ensures ParseDocuments(t.phase, EncodeDocuments(t)) == Success(t)
  {
    ParseEncodedDocument(t.prior.aflow, t.next.aflow);
    ParseEncodedDocument(t.prior.workflows, t.next.workflows);
  }

  lemma EncodedFields(t: Transaction)
    ensures var fields := EncodeRecord(t).fields;
            && fields.Keys == {SchemaVersion, PhaseKey, Documents}
            && fields[SchemaVersion] == Number(1)
            && fields[PhaseKey] == Text(PhaseText(t.phase))
            && fields[Documents] == EncodeDocuments(t)
  {
  }

  lemma ParseEncodedContent(t: Transaction)
    requires t.prior.Fits() && t.next.Fits()
    ensures ParseContent(EncodeRecord(t)) == Success(t)
  {
    ParseEncodedDocuments(t);
    ParsePhaseText(t.phase);
    EncodedFields(t);
  }

  /** Parsing what a commit writes gives back the phase and both generations. */
  lemma RecordRoundTrip(t: Transaction)
    requires t.prior.Fits() && t.next.Fits()
    ensures ParseRecord(WrittenRecord(t)) == Success(t)
  {
    RecordFits(t);
    ParseEncodedContent(t);
  }

  // ---- exactly which records are accepted ----

  /** A JSON value that stands for a payload: null for none, and else base64 text of it with its digest. */
  ghost predicate Stands(entry: Json, payload: Option<Bytes>) {
    match payload
    case None => entry == Null
    case Some(b) =>
      && |b| <= 262144
      && exists s :: Decode(s) == Some(b) && entry == Object(map[Base64Key := Text(s), Sha256Key := Hash(Digest(b))])
  }

  lemma DecodesExactly(entry: Json, b: Bytes)
    ensures DecodePayload(entry) == Success(b) <==> Stands(entry, Some(b))
  {
    if DecodePayload(entry) == Success(b) {
      var s := entry.fields[Base64Key].s;
      assert entry.fields == map[Base64Key := Text(s), Sha256Key := Hash(Digest(b))];
    }
  }

  /** A payload whose recorded digest is another one's, or which is too long, is refused for that. */
  lemma PayloadRefusals(s: string, d: Digest)
    ensures var entry := Object(map[Base64Key := Text(s), Sha256Key := Hash(d)]);
            match Decode(s)
            case None => DecodePayload(entry) == Failure(Malformed)
            case Some(b) =>
              && (|b| > 262144 ==> DecodePayload(entry) == Failure(PayloadTooLarge))
              && (|b| <= 262144 && d != Digest(b) ==> DecodePayload(entry) == Failure(DigestMismatch))
              && (|b| <= 262144 && d == Digest(b) ==> DecodePayload(entry) == Success(b))
  {
    var entry := Object(map[Base64Key := Text(s), Sha256Key := Hash(d)]);
    assert entry.fields.Keys == {Base64Key, Sha256Key};
  }

  lemma ParsesDocumentExactly(entry: Json, d: DocumentTransaction)
    ensures ParseDocument(entry) == Success(d) <==>
              exists prior, next :: Stands(prior, d.prior) && Stands(next, Some(d.next))
                                    && entry == Object(map[Old := prior, New := next])
  {
    if entry.Object? && entry.fields.Keys == {Old, New} {
      var prior, next := entry.fields[Old], entry.fields[New];
      assert entry.fields == map[Old := prior, New := next];
      DecodesExactly(next, d.next);
      if d.prior.Some? {
        DecodesExactly(prior, d.prior.value);
      }
      assert forall p, n :: entry == Object(map[Old := p, New := n]) ==> p == prior && n == next;
    }
  }

  /** A JSON value that holds both generations of one document. */
  ghost predicate DocumentStands(entry: Json, n: Name, t: Transaction) {
    exists prior, next :: Stands(prior, t.prior.At(n)) && Stands(next, Some(t.next.At(n)))
                          && entry == Object(map[Old := prior, New := next])
  }

  lemma ParsesDocumentsExactly(phase: Phase, documents: Json, t: Transaction)
    ensures ParseDocuments(phase, documents) == Success(t) <==>
              t.phase == phase && DocumentsStand(documents, t)
  {
    if documents.Object? && documents.fields.Keys == {Document(AflowToml), Document(WorkflowsToml)} {
      var aflow, workflows := documents.fields[Document(AflowToml)], documents.fields[Document(WorkflowsToml)];
      assert documents.fields == map[Document(AflowToml) := aflow, Document(WorkflowsToml) := workflows];
      ParsesDocumentExactly(aflow, DocumentTransaction(t.prior.aflow, t.next.aflow));
      ParsesDocumentExactly(workflows, DocumentTransaction(t.prior.workflows, t.next.workflows));
      assert forall a, w ::
          documents == Object(map[Document(AflowToml) := a, Document(WorkflowsToml) := w]) ==>
            a == aflow && w == workflows;
      assert ParseDocuments(phase, documents) == Success(t) <==>
             && t.phase == phase
             && DocumentStands(aflow, AflowToml, t) && DocumentStands(workflows, WorkflowsToml, t);
    }
  }

  ghost predicate DocumentsStand(documents: Json, t: Transaction) {
    exists aflow, workflows ::
      && DocumentStands(aflow, AflowToml, t) && DocumentStands(workflows, WorkflowsToml, t)
      && documents == Object(map[Document(AflowToml) := aflow, Document(WorkflowsToml) := workflows])
  }

  /** A JSON value that is the record of this transaction: version, phase and both documents, and nothing else. */
  ghost predicate RecordStands(j: Json, t: Transaction) {
    exists documents ::
      && DocumentsStand(documents, t)
      && j == RecordOf(Number(1), Text(if t.phase == Prepared then "prepared" else "committed"), documents)
  }

  function RecordOf(version: Json, phase: Json, documents: Json): Json {
    Object(map[SchemaVersion := version, PhaseKey := phase, Documents := documents])
  }

  lemma RecordFields(j: Json, version: Json, phase: Json, documents: Json)
    ensures j == RecordOf(version, phase, documents) <==>
              && j.Object? && j.fields.Keys == {SchemaVersion, PhaseKey, Documents}
              && j.fields[SchemaVersion] == version && j.fields[PhaseKey] == phase && j.fields[Documents] == documents
  {
    if j.Object? && j.fields.Keys == {SchemaVersion, PhaseKey, Documents} {
      var m := map[SchemaVersion := j.fields[SchemaVersion], PhaseKey := j.fields[PhaseKey],
                   Documents := j.fields[Documents]];
      assert j.fields == m;
    }
  }

  lemma PhasesExactly(phase: Json, p: Phase)
    ensures ParsePhase(phase) == Some(p) <==> phase == Text(if p == Prepared then "prepared" else "committed")
  {
    ParsePhaseText(p);
  }

  lemma ParsesContentExactly(j: Json, t: Transaction)
    ensures ParseContent(j) == Success(t) <==> RecordStands(j, t)
  {
    var phase := Text(if t.phase == Prepared then "prepared" else "committed");
    if ParseContent(j) == Success(t) {
      PhasesExactly(j.fields[PhaseKey], t.phase);
      ParsesDocumentsExactly(t.phase, j.fields[Documents], t);
      RecordFields(j, Number(1), phase, j.fields[Documents]);
    }
    if RecordStands(j, t) {
      var documents :| DocumentsStand(documents, t) && j == RecordOf(Number(1), phase, documents);
      RecordFields(j, Number(1), phase, documents);
      PhasesExactly(phase, t.phase);
      ParsesDocumentsExactly(t.phase, documents, t);
    }
  }

  /**
   A record file is accepted, as this transaction, exactly when its text is within the limit and is
   the record of the transaction.
   */
  lemma ParsesRecordExactly(file: RecordFile, t: Transaction)
    ensures ParseRecord(file) == Success(t) <==>
              file.size <= 6 * 262144 + 16384 && file.content.Some? && RecordStands(file.content.value, t)
  {
    if file.content.Some? {
      ParsesContentExactly(file.content.value, t);
    }
  }
}
