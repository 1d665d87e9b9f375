/**
 Recovery as moves on the storage of the pair: what a recovery, cut anywhere and repeated, and any
 power losses between its steps can do to the generation it aims at (aflow/config_pair.py:436-517).
 A record may be of any origin; nothing is assumed of the writer that left it.
 */
module PairRecovery {
  import opened Prelude
  import opened Base64
  import opened PairRecord
  import opened PairStorage

  lemma DecodedFits(entry: Json)
    ensures DecodePayload(entry).Success? ==> DocumentFits(Some(DecodePayload(entry).value))
  {
  }

  lemma ParsedDocumentFits(entry: Json)
    ensures ParseDocument(entry).Success? ==>
              DocumentFits(ParseDocument(entry).value.prior) && DocumentFits(Some(ParseDocument(entry).value.next))
  {
    if entry.Object? && entry.fields.Keys == {Old, New} {
      DecodedFits(entry.fields[Old]);
      DecodedFits(entry.fields[New]);
    }
  }

  /** Both generations of any record that parses are within the document limit. */
  lemma ParsedFits(file: RecordFile)
    requires ParseRecord(file).Success?
    ensures ParseRecord(file).value.prior.Fits() && ParseRecord(file).value.next.Fits()
  {
    var documents := file.content.value.fields[Documents].fields;
    ParsedDocumentFits(documents[Document(AflowToml)]);
    ParsedDocumentFits(documents[Document(WorkflowsToml)]);
  }

  /** Recovery of this directory is not refused and aims at this pair. */
  predicate AimsAt(dir: Directory, goal: Pair) { Recoverable(dir) && Goal(dir) == goal }

  /** A transaction that aims at a pair and accepts these versions of the two documents. */
  predicate Covers(t: Transaction, goal: Pair, aflow: set<Option<Bytes>>, workflows: set<Option<Bytes>>) {
    && t.Target() == goal
    && (forall d | d in aflow :: DocumentFits(d) && t.Accepts(AflowToml, d))
    && (forall d | d in workflows :: DocumentFits(d) && t.Accepts(WorkflowsToml, d))
  }

  /** One record a power loss may leave agrees with every document it may leave. */
  predicate RecordFirm(s: Storage, record: Option<RecordFile>, goal: Pair) {
    match record
    case None => s.keptAflow == {goal.aflow} && s.keptWorkflows == {goal.workflows}
    case Some(file) =>
      ParseRecord(file).Success? && Covers(ParseRecord(file).value, goal, s.keptAflow, s.keptWorkflows)
  }

  /** Every record a power loss may leave aims where the visible one does; checked name by name. */
  predicate Firm(s: Storage) {
    s.MayLeave(s.dir) && forall r | r in s.keptRecord :: RecordFirm(s, r, Goal(s.dir))
  }

  lemma FirmLeaves(s: Storage, left: Directory)
    requires Firm(s) && s.MayLeave(left)
    ensures AimsAt(left, Goal(s.dir))
  {
    assert RecordFirm(s, left.record, Goal(s.dir));
  }

  lemma LeavingAimsIsFirm(s: Storage, r: Option<RecordFile>)
    requires s.MayLeave(s.dir) && r in s.keptRecord
    requires forall left | s.MayLeave(left) :: AimsAt(left, Goal(s.dir))
    ensures RecordFirm(s, r, Goal(s.dir))
  {
    var docs := s.dir.docs;
    assert s.MayLeave(Directory(docs, r));
    forall d | d in s.keptAflow ensures AimsAt(Directory(Pair(d, docs.workflows), r), Goal(s.dir)) {
      assert s.MayLeave(Directory(Pair(d, docs.workflows), r));
    }
    forall d | d in s.keptWorkflows ensures AimsAt(Directory(Pair(docs.aflow, d), r), Goal(s.dir)) {
      assert s.MayLeave(Directory(Pair(docs.aflow, d), r));
    }
  }

  /** Whatever a power loss leaves, recovery goes through and aims at the same pair, exactly when Firm. */
  lemma FirmExactly(s: Storage)
    requires s.MayLeave(s.dir)
    ensures Firm(s) <==> forall left | s.MayLeave(left) :: AimsAt(left, Goal(s.dir))
  {
    forall left | Firm(s) && s.MayLeave(left) ensures AimsAt(left, Goal(s.dir)) {
      FirmLeaves(s, left);
    }
    if forall left | s.MayLeave(left) :: AimsAt(left, Goal(s.dir)) {
      forall r | r in s.keptRecord ensures RecordFirm(s, r, Goal(s.dir)) {
        LeavingAimsIsFirm(s, r);
      }
    }
  }

  // ---- the moves of recovery ----

  /** Install a target document, sync the directory, remove the record; or an outage at any moment. */
  datatype Move = Install(n: Name) | Pin | Unlink | Outage(left: Directory)

  predicate CanMove(s: Storage, m: Move) {
    match m
    case Install(n) => s.dir.record.Some? && Recoverable(s.dir) && s.dir.docs.At(n) != Goal(s.dir).At(n)
    case Pin => true
    case Unlink => Recoverable(s.dir) && s.dir.docs == Goal(s.dir) && s == s.Sync()
    case Outage(left) => s.MayLeave(left)
  }

  function Moved(s: Storage, m: Move): Storage
    requires CanMove(s, m)
  {
    match m
    case Install(n) => s.SetDocument(n, Goal(s.dir).At(n))
    case Pin => s.Sync()
    case Unlink => s.SetRecord(None)
    case Outage(left) => s.PowerLoss(left)
  }

  /** The target of a record that parses fits and is accepted by it. */
  lemma TargetIsAccepted(file: RecordFile, n: Name)
    requires ParseRecord(file).Success?
    ensures var t := ParseRecord(file).value; t.Accepts(n, t.Target().At(n)) && t.Target().Fits()
  {
    ParsedFits(file);
  }

  /** Without an outage, every move keeps any recoverable directory recoverable and its goal. */
  lemma MoveKeepsAim(s: Storage, m: Move)
    requires Recoverable(s.dir) && CanMove(s, m) && !m.Outage?
    ensures AimsAt(Moved(s, m).dir, Goal(s.dir))
  {
    if m.Install? {
      TargetIsAccepted(s.dir.record.value, m.n);
    }
  }

  lemma InstallKeepsRecordFirm(s: Storage, n: Name, r: Option<RecordFile>, goal: Pair)
    requires RecordFirm(s, r, goal)
    ensures RecordFirm(s.SetDocument(n, goal.At(n)), r, goal)
  {
    if r.Some? {
      TargetIsAccepted(r.value, n);
    }
  }

  /** Every move, outages included, keeps a firm storage firm and its goal. */
  lemma MoveKeepsFirm(s: Storage, m: Move)
    requires Firm(s) && CanMove(s, m)
    ensures Firm(Moved(s, m)) && AimsAt(Moved(s, m).dir, Goal(s.dir))
  {
    var goal := Goal(s.dir);
    FirmLeaves(s, s.dir);
    match m
    case Install(n) =>
      MoveKeepsAim(s, m);
      forall r | r in s.keptRecord ensures RecordFirm(Moved(s, m), r, goal) {
        InstallKeepsRecordFirm(s, n, r, goal);
      }
    case Pin =>
      assert RecordFirm(s, s.dir.record, goal);
    case Unlink =>
    case Outage(left) =>
      FirmLeaves(s, left);
      assert RecordFirm(s, left.record, goal);
  }

  /** The storage with one document brought to its wanted version; nothing happens if it has it. */
  function Installed(s: Storage, n: Name, wanted: Option<Bytes>): Storage {
    if s.dir.docs.At(n) != wanted then s.SetDocument(n, wanted) else s
  }

  /** Installing the goal of a document and syncing, cut anywhere, keeps the aim and firmness. */
  lemma InstallingKeepsGoal(s: Storage, n: Name, cut: Storage)
    requires Recoverable(s.dir) && s.dir.record.Some?
    requires cut in {s, Installed(s, n, Goal(s.dir).At(n)), Installed(s, n, Goal(s.dir).At(n)).Sync()}
    ensures AimsAt(cut.dir, Goal(s.dir)) && (Firm(s) ==> Firm(cut))
  {
    var installed := Installed(s, n, Goal(s.dir).At(n));
    if installed != s {
      assert installed == Moved(s, Install(n));
      MoveKeepsAim(s, Install(n));
      if Firm(s) {
        MoveKeepsFirm(s, Install(n));
      }
    }
    if Firm(installed) {
      MoveKeepsFirm(installed, Pin);
      assert installed.Sync() == Moved(installed, Pin);
    }
  }

  /** Removing the record once the goal is in place and synced, cut anywhere, keeps the aim and firmness. */
  lemma UnlinkingKeepsGoal(s: Storage, cut: Storage)
    requires Recoverable(s.dir) && s.dir.docs == Goal(s.dir) && s == s.Sync()
    requires cut in {s, s.SetRecord(None), s.SetRecord(None).Sync()}
    ensures AimsAt(cut.dir, Goal(s.dir)) && (Firm(s) ==> Firm(cut))
  {
    var unlinked := s.SetRecord(None);
    assert unlinked == Moved(s, Unlink);
    MoveKeepsAim(s, Unlink);
    if Firm(s) {
      MoveKeepsFirm(s, Unlink);
      MoveKeepsFirm(unlinked, Pin);
      assert unlinked.Sync() == Moved(unlinked, Pin);
    }
  }

  /** A run of moves, in any order that recoveries cut anywhere, repeated, and outages can produce. */
  predicate Moves(ss: seq<Storage>, ms: seq<Move>) {
    && |ss| == |ms| + 1
    && forall i | 0 <= i < |ms| :: CanMove(ss[i], ms[i]) && ss[i + 1] == Moved(ss[i], ms[i])
  }

  lemma {:induction false} FirmRunKeepsGoal(ss: seq<Storage>, ms: seq<Move>, i: nat)
    requires Moves(ss, ms) && i < |ss| && Firm(ss[0])
    ensures Firm(ss[i]) && AimsAt(ss[i].dir, Goal(ss[0].dir))
  {
    if i == 0 {
      FirmLeaves(ss[0], ss[0].dir);
    } else {
      FirmRunKeepsGoal(ss, ms, i - 1);
      assert CanMove(ss[i - 1], ms[i - 1]) && ss[i - 1 + 1] == Moved(ss[i - 1], ms[i - 1]);
      MoveKeepsFirm(ss[i - 1], ms[i - 1]);
    }
  }

  /** Every run of moves from here stays recoverable and aims at the goal of its first directory. */
  ghost predicate KeepsGoal(s: Storage) {
    forall ss: seq<Storage>, ms: seq<Move>, i: nat | Moves(ss, ms) && i < |ss| && ss[0] == s ::
      AimsAt(ss[i].dir, Goal(s.dir))
  }

  /**
   Recovery converges through outages exactly when the storage is firm: every run of recoveries and
   power losses then keeps the goal, and otherwise one power loss already refuses or changes it.
   */
  lemma RecoveryKeepsGoalExactly(s: Storage)
    requires s.MayLeave(s.dir)
    ensures KeepsGoal(s) <==> Firm(s)
  {
    if Firm(s) {
      forall ss: seq<Storage>, ms: seq<Move>, i: nat | Moves(ss, ms) && i < |ss| && ss[0] == s
        ensures AimsAt(ss[i].dir, Goal(s.dir))
      {
        FirmRunKeepsGoal(ss, ms, i);
      }
    }
    if KeepsGoal(s) {
      forall left | s.MayLeave(left) ensures AimsAt(left, Goal(s.dir)) {
        var ss, ms := [s, s.PowerLoss(left)], [Outage(left)];
        assert Moves(ss, ms) && ss[0] == s;
        assert AimsAt(ss[1].dir, Goal(s.dir));
      }
      FirmExactly(s);
    }
  }

  // ---- the storages of a commit ----

  /** A decided pair is firm, and an open save is firm exactly when its visible record is durable. */
  lemma RegisterFirmExactly(s: Storage, register: Register)
    requires Represents(s, register)
    requires register.Undecided? ==> register.prior != register.next.AsPair()
    ensures Firm(s) <==> register.Settled? || s.keptRecord == {s.dir.record}
  {
    FirmExactly(s);
    forall left | s.MayLeave(left) ensures AimsAt(left, Goal(left)) {
      LeftIsRepresented(s, register, left);
    }
    if register.Undecided? {
      PowerLossKeepsGoal(s, register.prior, register.next);
    } else {
      forall left | s.MayLeave(left) ensures Goal(left) == Goal(s.dir) {
        LeftIsRepresented(s, register, left);
        LeftIsRepresented(s, register, s.dir);
      }
    }
  }

  lemma LeftIsRepresented(s: Storage, register: Register, left: Directory)
    requires Represents(s, register) && s.MayLeave(left)
    ensures Recoverable(left) && Goal(left) in register.Values()
  {
    PowerLossKeepsRegister(s, register, left);
    GoalIsAValue(s.PowerLoss(left), register);
  }

  /** The storage of a save after the committed marker became visible and before it is synced. */
  function MarkerVisible(prior: Pair, next: Payloads): Storage {
    Storage(Directory(prior, None), {prior.aflow}, {prior.workflows}, {None})
    .SetRecord(Some(WrittenRecord(Transaction(Prepared, prior, next)))).Sync()
    .SetDocument(AflowToml, Some(next.aflow)).SetDocument(WorkflowsToml, Some(next.workflows)).Sync()
    .SetRecord(Some(WrittenRecord(Transaction(Committed, prior, next))))
  }

  /** In every save one outage at that moment loses the marker, and the goal goes back to the old pair. */
  lemma UnsyncedMarkerIsLost(prior: Pair, next: Payloads) returns (left: Directory)
    requires prior.Fits() && next.Fits() && prior != next.AsPair()
    ensures var s := MarkerVisible(prior, next);
            && Represents(s, Undecided(prior, next)) && !Firm(s)
            && s.MayLeave(left) && Goal(s.dir) == next.AsPair() && AimsAt(left, prior)
  {
    var s := MarkerVisible(prior, next);
    var p, c := Transaction(Prepared, prior, next), Transaction(Committed, prior, next);
    left := Directory(next.AsPair(), Some(WrittenRecord(p)));
    RecordAims(next.AsPair(), p);
    RecordAims(next.AsPair(), c);
    assert s.dir == Directory(next.AsPair(), Some(WrittenRecord(c)));
    assert s.MayLeave(left) && s.MayLeave(s.dir);
    FirmExactly(s);
  }
}
