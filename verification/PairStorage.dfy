/**
 The directory that holds the pair, as a crash can see it.

 Every rename and unlink changes the live directory at once.  Until the directory is synced a
 power loss may leave, name by name, any value the name had since the last successful sync; a
 successful sync pins the live values, a failed one pins nothing.  File contents are synced
 before they are renamed into place, so a name never shows a partial file.
 */
module PairStorage {
  import opened Prelude
  import opened Base64
  import opened PairRecord

  datatype Directory = Directory(docs: Pair, record: Option<RecordFile>)

  datatype Storage = Storage(
    dir: Directory,
    keptAflow: set<Option<Bytes>>,
    keptWorkflows: set<Option<Bytes>>,
    keptRecord: set<Option<RecordFile>>)
  {
    function Kept(n: Name): set<Option<Bytes>> {
      match n case AflowToml => keptAflow case WorkflowsToml => keptWorkflows
    }

    function SetDocument(n: Name, document: Option<Bytes>): Storage {
      var changed := this.(dir := dir.(docs := dir.docs.With(n, document)));
      match n
      case AflowToml => changed.(keptAflow := keptAflow + {document})
      case WorkflowsToml => changed.(keptWorkflows := keptWorkflows + {document})
    }

    function SetRecord(record: Option<RecordFile>): Storage {
      this.(dir := dir.(record := record), keptRecord := keptRecord + {record})
    }

    function Sync(): Storage {
      Storage(dir, {dir.docs.aflow}, {dir.docs.workflows}, {dir.record})
    }

    predicate MayLeave(left: Directory) {
      left.docs.aflow in keptAflow && left.docs.workflows in keptWorkflows && left.record in keptRecord
    }

    function PowerLoss(left: Directory): Storage
      requires MayLeave(left)
    {
      Storage(left, {left.docs.aflow}, {left.docs.workflows}, {left.record})
    }
  }

  /** The generation an undisturbed recovery of this directory installs. */
  function Goal(dir: Directory): Pair {
    match dir.record
    case None => dir.docs
    case Some(file) =>
      match ParseRecord(file)
      case Failure(_) => dir.docs
      case Success(t) => t.Target()
  }

  /**
   The directory holds nothing a recovery must refuse: no record, or a readable record whose
   two generations cover both current documents.
   */
  predicate Recoverable(dir: Directory) {
    match dir.record
    case None => true
    case Some(file) =>
      match ParseRecord(file)
      case Failure(_) => false
      case Success(t) =>
        && dir.docs.Fits()
        && t.Accepts(AflowToml, dir.docs.aflow)
        && t.Accepts(WorkflowsToml, dir.docs.workflows)
  }

  /** What the pair means to its users: one decided generation, or a save still open. */
  datatype Register = Settled(value: Pair) | Undecided(prior: Pair, next: Payloads) {
    function Values(): set<Pair> {
      match this
      case Settled(v) => {v}
      case Undecided(p, n) => {p, n.AsPair()}
    }
  }

  /** A leftover record that can only confirm the generation already in place. */
  predicate Confirms(record: Option<RecordFile>, value: Pair) {
    record.None? ||
    (var parsed := ParseRecord(record.value);
     && parsed.Success?
     && parsed.value.Target() == value
     && value.Fits())
  }

  predicate Represents(s: Storage, register: Register) {
    && s.MayLeave(s.dir)
    && match register
       case Settled(v) =>
         && s.keptAflow == {v.aflow} && s.keptWorkflows == {v.workflows}
         && (forall r | r in s.keptRecord :: Confirms(r, v))
       case Undecided(prior, next) =>
         && prior.Fits() && next.Fits()
         && s.keptRecord <= {Some(WrittenRecord(Transaction(Prepared, prior, next))),
                             Some(WrittenRecord(Transaction(Committed, prior, next)))}
         && s.keptAflow <= {prior.aflow, Some(next.aflow)}
         && s.keptWorkflows <= {prior.workflows, Some(next.workflows)}
  }

  /** What recovery of a directory means: nothing without a record, and else the generation of its phase. */
  lemma GoalExactly(dir: Directory)
    ensures dir.record == None ==> Recoverable(dir) && Goal(dir) == dir.docs
    ensures dir.record.Some? && ParseRecord(dir.record.value).Failure? ==> !Recoverable(dir)
    ensures forall t | dir.record.Some? && ParseRecord(dir.record.value) == Success(t) ::
              && Goal(dir) == (if t.phase == Prepared then t.prior
                               else Pair(Some(t.next.aflow), Some(t.next.workflows)))
              && (Recoverable(dir) <==>
                    && (dir.docs.aflow.Some? ==> |dir.docs.aflow.value| <= 262144)
                    && (dir.docs.workflows.Some? ==> |dir.docs.workflows.value| <= 262144)
                    && dir.docs.aflow in {t.prior.aflow, Some(t.next.aflow)}
                    && dir.docs.workflows in {t.prior.workflows, Some(t.next.workflows)})
  {
  }

  /** After a rename a power loss may leave the old name or the new one, after a sync only the new. */
  lemma RenamesMayBeLost(s: Storage, n: Name, document: Option<Bytes>, record: Option<RecordFile>, left: Directory)
    ensures s.MayLeave(left) ==> s.SetDocument(n, document).MayLeave(left) && s.SetRecord(record).MayLeave(left)
    ensures s.MayLeave(left) ==> s.SetDocument(n, document).MayLeave(left.(docs := left.docs.With(n, document)))
    ensures s.MayLeave(left) ==> s.SetRecord(record).MayLeave(left.(record := record))
    ensures s.Sync().MayLeave(left) <==> left == s.dir
  {
  }

  /** The names of the directory are lost or kept one by one. */
  lemma NamesMix(s: Storage, a: Directory, b: Directory)
    requires s.MayLeave(a) && s.MayLeave(b)
    ensures s.MayLeave(Directory(a.docs, b.record))
    ensures s.MayLeave(Directory(Pair(a.docs.aflow, b.docs.workflows), a.record))
    ensures s.PowerLoss(a).dir == a && (s.PowerLoss(a).MayLeave(b) <==> b == a)
  {
  }

  /** Whatever a power loss leaves, the register is the same. */
  lemma PowerLossKeepsRegister(s: Storage, register: Register, left: Directory)
    requires Represents(s, register) && s.MayLeave(left)
    ensures Represents(s.PowerLoss(left), register)
  {
  }

  /** A directory with the record of a transaction aims at its target. */
  lemma RecordAims(docs: Pair, t: Transaction)
    requires t.prior.Fits() && t.next.Fits()
    ensures Goal(Directory(docs, Some(WrittenRecord(t)))) == t.Target()
    ensures Recoverable(Directory(docs, Some(WrittenRecord(t)))) <==>
            docs.Fits() && t.Accepts(AflowToml, docs.aflow) && t.Accepts(WorkflowsToml, docs.workflows)
  {
    RecordRoundTrip(t);
  }

  /** A represented directory is recoverable, and recovery aims at a value of the register. */
  lemma GoalIsAValue(s: Storage, register: Register)
    requires Represents(s, register)
    ensures Recoverable(s.dir)
    ensures Goal(s.dir) in register.Values()
    ensures s.dir.record.Some? ==> Goal(s.dir).Fits()
  {
    if register.Undecided? {
      var t := Transaction(Prepared, register.prior, register.next);
      if s.dir.record != Some(WrittenRecord(t)) {
        t := t.(phase := Committed);
      }
      RecordAims(s.dir.docs, t);
      assert s.dir == Directory(s.dir.docs, Some(WrittenRecord(t)));
    }
  }

  /**
   Power loss keeps the generation recovery aims at, whatever it leaves, exactly when every
   record it may leave is in the phase of the live one.
   */
  lemma PowerLossKeepsGoal(s: Storage, prior: Pair, next: Payloads)
    requires Represents(s, Undecided(prior, next)) && prior != next.AsPair()
    ensures (forall left | s.MayLeave(left) :: Goal(left) == Goal(s.dir)) <==> s.keptRecord == {s.dir.record}
  {
    RecordAims(s.dir.docs, Transaction(Prepared, prior, next));
    RecordAims(s.dir.docs, Transaction(Committed, prior, next));
    if s.keptRecord != {s.dir.record} {
      var other :| other in s.keptRecord && other != s.dir.record;
      var left := s.dir.(record := other);
      assert s.MayLeave(left) && left == Directory(s.dir.docs, other) && s.dir == Directory(s.dir.docs, s.dir.record);
    }
  }

  lemma SyncKeepsRegister(s: Storage, register: Register)
    requires Represents(s, register)
    ensures Represents(s.Sync(), register)
  {
  }

  /** Installing the target of the live record is safe at any moment. */
  lemma InstallKeepsRegister(s: Storage, register: Register, n: Name)
    requires Represents(s, register) && s.dir.record.Some?
    ensures s.dir.docs.At(n) != Goal(s.dir).At(n) ==> Represents(s.SetDocument(n, Goal(s.dir).At(n)), register)
  {
    GoalIsAValue(s, register);
    if register.Undecided? && s.dir.docs.At(n) != Goal(s.dir).At(n) {
      RecordRoundTrip(Transaction(Prepared, register.prior, register.next));
      RecordRoundTrip(Transaction(Committed, register.prior, register.next));
    }
  }

  /** Installing a target document, cut at any point of it, keeps the register. */
  lemma InstallAnywhereKeepsRegister(s: Storage, register: Register, n: Name)
    requires Represents(s, register) && s.dir.record.Some?
    ensures Represents(s.Sync(), register)
    ensures s.dir.docs.At(n) != Goal(s.dir).At(n) ==>
              Represents(s.SetDocument(n, Goal(s.dir).At(n)), register)
              && Represents(s.SetDocument(n, Goal(s.dir).At(n)).Sync(), register)
  {
    InstallKeepsRegister(s, register, n);
    SyncKeepsRegister(s, register);
    if s.dir.docs.At(n) != Goal(s.dir).At(n) {
      SyncKeepsRegister(s.SetDocument(n, Goal(s.dir).At(n)), register);
    }
  }

  /** The same for whatever storage an interrupted installation leaves. */
  lemma InstallCutKeepsRegister(s: Storage, register: Register, n: Name, wanted: Option<Bytes>, cut: Storage)
    requires Represents(s, register) && s.dir.record.Some? && wanted == Goal(s.dir).At(n)
    requires var installed := if s.dir.docs.At(n) != wanted then s.SetDocument(n, wanted) else s;
             cut in {s, installed, installed.Sync()}
    ensures Represents(cut, register)
  {
    InstallAnywhereKeepsRegister(s, register, n);
  }

  /** Once both documents are the target and everything is synced, the register is decided. */
  lemma InstalledIsSettled(s: Storage, register: Register)
    requires Represents(s, register) && s.dir.record.Some?
    requires s.dir.docs == Goal(s.dir) && s == s.Sync()
    ensures Represents(s, Settled(s.dir.docs))
  {
    GoalIsAValue(s, register);
  }

  /** The states a commit passes through before its committed marker is durable. */
  predicate Committing(s: Storage, register: Register, prior: Pair, next: Payloads) {
    && prior.Fits() && next.Fits()
    && Represents(s, register)
    && (register == Undecided(prior, next)
        || (register == Settled(prior)
            && s.dir.record in {None, Some(WrittenRecord(Transaction(Prepared, prior, next)))}))
  }

  /** A record found while committing is one of the two of this commit. */
  lemma CommittingRecord(s: Storage, register: Register, prior: Pair, next: Payloads)
    requires Committing(s, register, prior, next)
    ensures s.dir.record.Some? ==>
              ParseRecord(s.dir.record.value) in {Success(Transaction(Prepared, prior, next)),
                                                  Success(Transaction(Committed, prior, next))}
    ensures register.Settled? ==> Goal(s.dir) == prior
  {
    RecordRoundTrip(Transaction(Prepared, prior, next));
    RecordRoundTrip(Transaction(Committed, prior, next));
  }

  /** Writing either record of an open commit keeps it open. */
  lemma RewriteKeepsUndecided(s: Storage, t: Transaction)
    requires Represents(s, Undecided(t.prior, t.next))
    ensures Represents(s.SetRecord(Some(WrittenRecord(t))), Undecided(t.prior, t.next))
    ensures Represents(s.SetRecord(Some(WrittenRecord(t))).Sync(), Undecided(t.prior, t.next))
    ensures Goal(s.SetRecord(Some(WrittenRecord(t))).dir) == t.Target()
  {
    RecordRoundTrip(t);
  }

  /** What a rollback finds: a readable record that is committed, or the old pair as the goal. */
  lemma RollbackStart(s: Storage, register: Register, prior: Pair, next: Payloads)
    requires Committing(s, register, prior, next)
    ensures s.dir.record.None? ==> Goal(s.dir) == prior
    ensures s.dir.record.Some? ==>
              && ParseRecord(s.dir.record.value).Success?
              && (ParseRecord(s.dir.record.value).value.phase == Committed || Goal(s.dir) == prior)
  {
    CommittingRecord(s, register, prior, next);
  }

  /** Writing the prepared record over a committed one, cut anywhere, keeps the open save. */
  lemma ReestablishedRecord(s: Storage, register: Register, prior: Pair, next: Payloads, cut: Storage)
    requires Committing(s, register, prior, next) && s.dir.record.Some?
    requires ParseRecord(s.dir.record.value).Success? && ParseRecord(s.dir.record.value).value.phase == Committed
    requires var written := s.SetRecord(Some(WrittenRecord(Transaction(Prepared, prior, next))));
             cut in {s, written, written.Sync()}
    ensures Represents(cut, register) && (cut == s || Goal(cut.dir) == prior)
  {
    CommittingRecord(s, register, prior, next);
    RewriteKeepsUndecided(s, Transaction(Prepared, prior, next));
  }

  /** A prepared record over a settled pair changes nothing until it is synced, and opens the save then. */
  lemma PreparedRecordOpens(s: Storage, t: Transaction)
    requires t.phase == Prepared && t.prior.Fits() && t.next.Fits()
    requires Represents(s, Settled(t.prior))
    ensures Represents(s.SetRecord(Some(WrittenRecord(t))), Settled(t.prior))
    ensures Represents(s.SetRecord(Some(WrittenRecord(t))).Sync(), Undecided(t.prior, t.next))
  {
    RecordRoundTrip(t);
  }

  lemma ReplaceKeepsUndecided(s: Storage, prior: Pair, next: Payloads, n: Name)
    requires Represents(s, Undecided(prior, next))
    ensures Represents(s.SetDocument(n, Some(next.At(n))), Undecided(prior, next))
  {
  }

  /** The success boundary: a durable committed record over durable new documents. */
  lemma DurableMarkerSettles(s: Storage, t: Transaction)
    requires t.phase == Committed && t.prior.Fits() && t.next.Fits()
    requires s.dir.docs == t.next.AsPair()
    ensures Represents(s.SetRecord(Some(WrittenRecord(t))).Sync(), Settled(t.next.AsPair()))
  {
    RecordRoundTrip(t);
  }

  /** Removing or rewriting the committed record never disturbs the settled generation. */
  lemma CleanupKeepsSettled(s: Storage, t: Transaction)
    requires t.phase == Committed && t.prior.Fits() && t.next.Fits()
    requires Represents(s, Settled(t.next.AsPair()))
    ensures Represents(s.SetRecord(None), Settled(t.next.AsPair()))
    ensures Represents(s.SetRecord(Some(WrittenRecord(t))), Settled(t.next.AsPair()))
    ensures Represents(s.SetRecord(Some(WrittenRecord(t))).Sync(), Settled(t.next.AsPair()))
  {
    RecordRoundTrip(t);
  }

  /** One fault of a primitive: no fault, an OSError, or the death of the process around it. */
  datatype Fault = NoFault | Error | DiesBefore | DiesAfter

  datatype Io = Done | OsError | Killed

  predicate Clean(faults: seq<Fault>) { forall i | 0 <= i < |faults| :: faults[i] == NoFault }

  /** No death and at most one error. */
  predicate Mild(faults: seq<Fault>) {
    faults != [] ==> if faults[0] == Error then Clean(faults[1..]) else faults[0] == NoFault && Mild(faults[1..])
  }

  /** How one operation uses up a script: an error is the only one of a mild script. */
  predicate Uses(io: Io, before: seq<Fault>, after: seq<Fault>) {
    && (Clean(before) ==> io == Done && Clean(after))
    && (Mild(before) ==> (io == Done && Mild(after)) || (io == OsError && Clean(after)))
  }

  /** The fault that meets the next operation. */
  function Head(faults: seq<Fault>): Fault { if faults == [] then NoFault else faults[0] }

  function IoUnder(f: Fault): Io {
    match f case NoFault => Done case Error => OsError case _ => Killed
  }

  function Tail(faults: seq<Fault>): seq<Fault> { if faults == [] then [] else faults[1..] }

  /** A directory under an arbitrary script of faults; the register is what it represents. */
  class Disk {
    var storage: Storage
    var faults: seq<Fault>
    ghost var register: Register

    ghost predicate Valid()
      reads this
    {
      Represents(storage, register)
    }

    /** A directory without a record is decided, whatever documents it holds. */
    constructor (docs: Pair, faults: seq<Fault>)
      ensures Valid() && register == Settled(docs) && storage.dir == Directory(docs, None)
    {
      storage := Storage(Directory(docs, None), {docs.aflow}, {docs.workflows}, {None});
      this.faults := faults;
      register := Settled(docs);
    }

    method NextFault() returns (f: Fault)
      modifies this`faults
      ensures f == Head(old(faults)) && faults == Tail(old(faults))
      ensures Clean(old(faults)) ==> f == NoFault && Clean(faults)
      ensures Mild(old(faults)) ==> (f == NoFault && Mild(faults)) || (f == Error && Clean(faults))
    {
      if faults == [] {
        f := NoFault;
      } else {
        f, faults := faults[0], faults[1..];
      }
    }

    /** Replace or unlink a document. */
    method SetDocument(n: Name, document: Option<Bytes>) returns (io: Io)
      modifies this`storage, this`faults
      ensures Uses(io, old(faults), faults)
      ensures io == IoUnder(Head(old(faults)))
      ensures io == Done ==> storage == old(storage).SetDocument(n, document)
      ensures io == OsError ==> storage == old(storage)
      ensures io == Killed ==> storage == old(storage) || storage == old(storage).SetDocument(n, document)
      ensures Head(old(faults)) == DiesAfter ==> storage == old(storage).SetDocument(n, document)
    {
      var f := NextFault();
      if f == NoFault || f == DiesAfter {
        storage := storage.SetDocument(n, document);
      }
      io := if f == NoFault then Done else if f == Error then OsError else Killed;
    }

    /** Replace or unlink the write-ahead record. */
    method SetRecord(record: Option<RecordFile>) returns (io: Io)
      modifies this`storage, this`faults
      ensures Uses(io, old(faults), faults)
      ensures io == IoUnder(Head(old(faults)))
      ensures io == Done ==> storage == old(storage).SetRecord(record)
      ensures io == OsError ==> storage == old(storage)
      ensures io == Killed ==> storage == old(storage) || storage == old(storage).SetRecord(record)
      ensures Head(old(faults)) == DiesAfter ==> storage == old(storage).SetRecord(record)
    {
      var f := NextFault();
      if f == NoFault || f == DiesAfter {
        storage := storage.SetRecord(record);
      }
      io := if f == NoFault then Done else if f == Error then OsError else Killed;
    }

    /** Sync the directory. */
    method Sync() returns (io: Io)
      modifies this`storage, this`faults
      ensures Uses(io, old(faults), faults)
      ensures io == IoUnder(Head(old(faults)))
      ensures io == Done ==> storage == old(storage).Sync()
      ensures io == OsError ==> storage == old(storage)
      ensures io == Killed ==> storage == old(storage) || storage == old(storage).Sync()
      ensures Head(old(faults)) == DiesAfter ==> storage == old(storage).Sync()
    {
      var f := NextFault();
      if f == NoFault || f == DiesAfter {
        storage := storage.Sync();
      }
      io := if f == NoFault then Done else if f == Error then OsError else Killed;
    }

    /** A file operation that changes no name of the pair: staging, reading. */
    method Touch() returns (io: Io)
      modifies this`faults
      ensures Uses(io, old(faults), faults)
      ensures io == IoUnder(Head(old(faults)))
    {
      var f := NextFault();
      io := if f == NoFault then Done else if f == Error then OsError else Killed;
    }

    /** The machine stops; the names come back with values they may have kept. */
    method PowerLoss(left: Directory)
      requires storage.MayLeave(left)
      modifies this`storage
      ensures storage == old(storage).PowerLoss(left)
      ensures old(Valid()) ==> Valid()
    {
      if Represents(storage, register) {
        PowerLossKeepsRegister(storage, register, left);
      }
      storage := storage.PowerLoss(left);
    }
  }
}
