/**
 Recovery, rollback and commit of the configuration pair (aflow/config_pair.py:414-705).
 Every method may meet an OSError or the death of its process at each file operation.
 */
module ConfigPair {
  import opened Prelude
  import opened Base64
  import opened PairRecord
  import opened PairStorage
  import opened PairRecovery
  import opened PairRegister

  /** How a file-level helper ends. */
  datatype Ending = Completed | Raised | Refused | Died

  /** How a helper uses up a script of faults: it completes without any, and an error of a mild one is the last. */
  predicate Spends(e: Ending, before: seq<Fault>, after: seq<Fault>) {
    && (Clean(before) ==> e == Completed && Clean(after))
    && (Mild(before) ==> (e == Completed && Mild(after)) || (e == Raised && Clean(after)))
  }

  function EndingOf(io: Io): Ending {
    match io case Done => Completed case OsError => Raised case Killed => Died
  }

  /** Both current documents are within the limit and one of the recorded generations. */
  predicate DocumentsMatch(dir: Directory, t: Transaction) {
    dir.docs.Fits() && t.Accepts(AflowToml, dir.docs.aflow) && t.Accepts(WorkflowsToml, dir.docs.workflows)
  }

  /** The checks of one recorded document against the current one. */
  method CheckDocuments(disk: Disk, t: Transaction) returns (ok: bool)
    ensures ok <==> DocumentsMatch(disk.storage.dir, t)
  {
    ok := true;
    for i := 0 to |DOCUMENT_NAMES|
      invariant ok <==> forall j | 0 <= j < i ::
        DocumentFits(disk.storage.dir.docs.At(DOCUMENT_NAMES[j]))
        && t.Accepts(DOCUMENT_NAMES[j], disk.storage.dir.docs.At(DOCUMENT_NAMES[j]))
    {
      var name := DOCUMENT_NAMES[i];
      var payload := disk.storage.dir.docs.At(name);
      if !DocumentFits(payload) {
        ok := false;
      } else if payload.None? {
        ok := ok && t.prior.At(name).None?;
      } else {
        ok := ok && (payload == Some(t.next.At(name)) || payload == t.prior.At(name));
      }
    }
    assert DOCUMENT_NAMES[0] == AflowToml && DOCUMENT_NAMES[1] == WorkflowsToml;
  }

  method WriteRecord(disk: Disk, t: Transaction) returns (e: Ending)
    modifies disk`storage, disk`faults
    ensures e == Completed ==> disk.storage == old(disk.storage).SetRecord(Some(WrittenRecord(t))).Sync()
    ensures disk.storage in {old(disk.storage),
                             old(disk.storage).SetRecord(Some(WrittenRecord(t))),
                             old(disk.storage).SetRecord(Some(WrittenRecord(t))).Sync()}
    ensures e in {Completed, Raised, Died}
    ensures Spends(e, old(disk.faults), disk.faults)
  {
    var io := disk.SetRecord(Some(WrittenRecord(t)));
    if io == Done {
      io := disk.Sync();
    }
    e := EndingOf(io);
  }

  method ReplaceAndSync(disk: Disk, n: Name, wanted: Option<Bytes>) returns (e: Ending)
    modifies disk`storage, disk`faults
    ensures e in {Completed, Raised, Died}
    ensures e == Completed ==> disk.storage == Installed(old(disk.storage), n, wanted).Sync()
    ensures disk.storage in {old(disk.storage),
                             Installed(old(disk.storage), n, wanted),
                             Installed(old(disk.storage), n, wanted).Sync()}
    ensures Spends(e, old(disk.faults), disk.faults)
  {
    var io := Done;
    if disk.storage.dir.docs.At(n) != wanted {
      io := disk.SetDocument(n, wanted);
    }
    if io == Done {
      io := disk.Sync();
    }
    e := EndingOf(io);
  }

  /** Bring one document to the target of the record and sync. */
  method InstallDocument(disk: Disk, n: Name, wanted: Option<Bytes>) returns (e: Ending)
    modifies disk`storage, disk`faults
    ensures disk.storage.dir.record == old(disk.storage.dir.record)
    ensures e in {Completed, Raised, Died}
    ensures e == Completed ==> disk.storage.dir.docs == old(disk.storage.dir.docs).With(n, wanted)
    ensures e == Completed ==> disk.storage == disk.storage.Sync()
    ensures old(disk.Valid()) && old(disk.storage.dir.record).Some? && wanted == Goal(old(disk.storage.dir)).At(n)
            ==> disk.Valid()
    ensures disk.storage in {old(disk.storage),
                             Installed(old(disk.storage), n, wanted),
                             Installed(old(disk.storage), n, wanted).Sync()}
    ensures Spends(e, old(disk.faults), disk.faults)
  {
    ghost var before, register := disk.storage, disk.register;
    e := ReplaceAndSync(disk, n, wanted);
    if Represents(before, register) && before.dir.record.Some? && wanted == Goal(before.dir).At(n) {
      InstallCutKeepsRegister(before, register, n, wanted, disk.storage);
    }
  }

  /** Install the target generation, document by document, each followed by a sync. */
  method InstallTarget(disk: Disk, t: Transaction) returns (e: Ending)
    requires ParseRecordIs(disk.storage.dir, t) && Recoverable(disk.storage.dir)
    modifies disk`storage, disk`faults
    ensures AimsAt(disk.storage.dir, Goal(old(disk.storage.dir)))
    ensures Firm(old(disk.storage)) ==> Firm(disk.storage)
    ensures disk.storage.dir.record == old(disk.storage.dir.record)
    ensures e in {Completed, Raised, Died}
    ensures e == Completed ==> disk.storage.dir.docs == t.Target() && disk.storage == disk.storage.Sync()
    ensures old(disk.Valid()) ==> disk.Valid()
    ensures Spends(e, old(disk.faults), disk.faults)
  {
    for i := 0 to |DOCUMENT_NAMES|
      invariant disk.storage.dir.record == old(disk.storage.dir.record)
      invariant AimsAt(disk.storage.dir, Goal(old(disk.storage.dir)))
      invariant Firm(old(disk.storage)) ==> Firm(disk.storage)
      invariant old(disk.Valid()) ==> disk.Valid()
      invariant Spends(Completed, old(disk.faults), disk.faults)
      invariant i > 0 ==> disk.storage == disk.storage.Sync()
      invariant forall j | 0 <= j < i :: disk.storage.dir.docs.At(DOCUMENT_NAMES[j]) == t.Target().At(DOCUMENT_NAMES[j])
    {
      var name := DOCUMENT_NAMES[i];
      ghost var before := disk.storage;
      e := InstallDocument(disk, name, if t.phase == Prepared then t.prior.At(name) else Some(t.next.At(name)));
      InstallingKeepsGoal(before, name, disk.storage);
      if e != Completed {
        return;
      }
    }
    e := Completed;
    assert DOCUMENT_NAMES[0] == AflowToml && DOCUMENT_NAMES[1] == WorkflowsToml;
  }

  predicate ParseRecordIs(dir: Directory, t: Transaction) {
    dir.record.Some? && ParseRecord(dir.record.value) == Success(t)
  }

  /** A readable record, and a document that is neither of its recorded generations. */
  predicate ThirdPartyEdit(dir: Directory) {
    && dir.record.Some? && ParseRecord(dir.record.value).Success?
    && var t := ParseRecord(dir.record.value).value;
       || (dir.docs.aflow != t.prior.aflow && dir.docs.aflow != Some(t.next.aflow))
       || (dir.docs.workflows != t.prior.workflows && dir.docs.workflows != Some(t.next.workflows))
  }

  /**
   recover_pending_transaction.  Refused: nothing was touched.  Raised: an OSError stopped it.
   */
  method RecoverPendingTransaction(disk: Disk) returns (e: Ending)
    modifies disk
    ensures !Recoverable(old(disk.storage.dir)) ==> e in {Refused, Raised, Died} && disk.storage == old(disk.storage)
    ensures Recoverable(old(disk.storage.dir)) ==> e != Refused
    ensures Recoverable(old(disk.storage.dir)) ==> AimsAt(disk.storage.dir, Goal(old(disk.storage.dir)))
    ensures Firm(old(disk.storage)) ==> Firm(disk.storage)
    ensures e == Completed ==> disk.storage.dir == Directory(Goal(old(disk.storage.dir)), None)
    ensures old(disk.Valid()) ==> disk.Valid() && Goal(disk.storage.dir) == Goal(old(disk.storage.dir))
    ensures old(disk.Valid()) && e == Completed ==> disk.register == Settled(Goal(old(disk.storage.dir)))
    ensures old(disk.Valid()) ==> disk.register in {old(disk.register), Settled(Goal(old(disk.storage.dir)))}
    ensures Recoverable(old(disk.storage.dir)) ==> Spends(e, old(disk.faults), disk.faults)
    ensures ThirdPartyEdit(old(disk.storage.dir)) ==> e != Completed && disk.storage == old(disk.storage)
    ensures ThirdPartyEdit(old(disk.storage.dir)) && Clean(old(disk.faults)) ==> e == Refused
  {
    var file := disk.storage.dir.record;
    if file.None? {
      return Completed;
    }
    var io := disk.Touch();
    if io != Done {
      return EndingOf(io);
    }
    var parsed := ParseRecord(file.value);
    if parsed.Failure? {
      return Refused;
    }
    var t := parsed.value;
    var matches := CheckDocuments(disk, t);
    if !matches {
      return Refused;
    }
    e := InstallTarget(disk, t);
    if e != Completed {
      return;
    }
    if old(disk.Valid()) {
      InstalledIsSettled(disk.storage, disk.register);
      disk.register := Settled(t.Target());
    }
    ghost var installed := disk.storage;
    io := disk.SetRecord(None);
    if io == Done {
      io := disk.Sync();
    }
    UnlinkingKeepsGoal(installed, disk.storage);
    e := EndingOf(io);
  }

  /** The prepared record over a committed one; Refused: it could not be written. */
  method RewritePrepared(disk: Disk, current: Pair, payloads: Payloads) returns (e: Ending)
    requires disk.storage.dir.record.Some? && ParseRecord(disk.storage.dir.record.value).Success?
    requires ParseRecord(disk.storage.dir.record.value).value.phase == Committed
    modifies disk`storage, disk`faults
    ensures e in {Completed, Refused, Died}
    ensures old(Committing(disk.storage, disk.register, current, payloads)) ==>
              disk.Valid() && (e == Completed ==> Goal(disk.storage.dir) == current)
    ensures Clean(old(disk.faults)) && old(Committing(disk.storage, disk.register, current, payloads)) ==>
              e == Completed && Clean(disk.faults)
  {
    ghost var before, committing := disk.storage, Committing(disk.storage, disk.register, current, payloads);
    if committing {
      CommittingRecord(before, disk.register, current, payloads);
    }
    e := WriteRecord(disk, Transaction(Prepared, current, payloads));
    if committing {
      ReestablishedRecord(before, disk.register, current, payloads, disk.storage);
    }
    e := if e == Raised then Refused else e;
  }

  /** A committed record that became visible before it was durable is made a prepared one again. */
  method ReestablishPrepared(disk: Disk, current: Pair, payloads: Payloads) returns (e: Ending)
    modifies disk`storage, disk`faults
    ensures e in {Completed, Refused, Died}
    ensures old(Committing(disk.storage, disk.register, current, payloads)) ==>
              disk.Valid() && (e == Completed ==> Goal(disk.storage.dir) == current)
    ensures Clean(old(disk.faults)) && old(Committing(disk.storage, disk.register, current, payloads)) ==>
              e == Completed && Clean(disk.faults)
  {
    if Committing(disk.storage, disk.register, current, payloads) {
      RollbackStart(disk.storage, disk.register, current, payloads);
    }
    var file := disk.storage.dir.record;
    if file.None? {
      return Completed;
    }
    var io := disk.Touch();
    if io != Done {
      return if io == Killed then Died else Refused;
    }
    var parsed := ParseRecord(file.value);
    if parsed.Failure? {
      return Refused;
    }
    e := Completed;
    if parsed.value.phase == Committed {
      e := RewritePrepared(disk, current, payloads);
    }
  }

  /** _rollback_pre_commit: back to the recorded old generation, or leave recovery pending. */
  method RollbackPreCommit(disk: Disk, current: Pair, payloads: Payloads) returns (e: Ending)
    modifies disk
    ensures e in {Completed, Refused, Died}
    ensures old(Committing(disk.storage, disk.register, current, payloads)) ==>
              && disk.Valid()
              && disk.register in {Settled(current), Undecided(current, payloads)}
              && (e == Completed ==> disk.register == Settled(current))
    ensures Clean(old(disk.faults)) && old(Committing(disk.storage, disk.register, current, payloads)) ==>
              e == Completed
    ensures e == Completed && old(Committing(disk.storage, disk.register, current, payloads)) ==>
              disk.storage.dir == Directory(current, None)
  {
    ghost var committing := Committing(disk.storage, disk.register, current, payloads);
    e := ReestablishPrepared(disk, current, payloads);
    if e != Completed {
      return;
    }
    if committing {
      GoalIsAValue(disk.storage, disk.register);
    }
    e := RecoverPendingTransaction(disk);
    e := if e == Raised then Refused else e;
  }

  /** Replace the documents that differ; the caller has staged them. */
  method ReplaceDocuments(disk: Disk, current: Pair, payloads: Payloads) returns (e: Ending)
    requires disk.storage.dir.docs == current
    modifies disk`storage, disk`faults
    ensures e in {Completed, Raised, Died}
    ensures e == Completed ==> disk.storage.dir.docs == payloads.AsPair()
    ensures old(Represents(disk.storage, Undecided(current, payloads)))
            ==> Represents(disk.storage, Undecided(current, payloads))
    ensures Spends(e, old(disk.faults), disk.faults)
  {
    ghost var open := Represents(disk.storage, Undecided(current, payloads));
    for i := 0 to |DOCUMENT_NAMES|
      invariant Spends(Completed, old(disk.faults), disk.faults)
      invariant open ==> Represents(disk.storage, Undecided(current, payloads))
      invariant forall j | 0 <= j < i ::
        disk.storage.dir.docs.At(DOCUMENT_NAMES[j]) == Some(payloads.At(DOCUMENT_NAMES[j]))
      invariant forall j | i <= j < |DOCUMENT_NAMES| ::
        disk.storage.dir.docs.At(DOCUMENT_NAMES[j]) == current.At(DOCUMENT_NAMES[j])
    {
      var name := DOCUMENT_NAMES[i];
      if Some(payloads.At(name)) != current.At(name) {
        if open {
          ReplaceKeepsUndecided(disk.storage, current, payloads, name);
        }
        var io := disk.SetDocument(name, Some(payloads.At(name)));
        if io != Done {
          return EndingOf(io);
        }
      }
    }
    e := Completed;
    assert DOCUMENT_NAMES[0] == AflowToml && DOCUMENT_NAMES[1] == WorkflowsToml;
  }

  /** Staging files are private to the save; only their failures matter. */
  method StageDocuments(disk: Disk, current: Pair, payloads: Payloads) returns (e: Ending)
    modifies disk`faults
    ensures e in {Completed, Raised, Died}
    ensures Spends(e, old(disk.faults), disk.faults)
  {
    for i := 0 to |DOCUMENT_NAMES|
      invariant Spends(Completed, old(disk.faults), disk.faults)
    {
      if Some(payloads.At(DOCUMENT_NAMES[i])) != current.At(DOCUMENT_NAMES[i]) {
        var io := disk.Touch();
        if io != Done {
          return EndingOf(io);
        }
      }
    }
    e := Completed;
  }

  /** The states in which a save writes: the pair is settled, current and without a record. */
  ghost predicate ReadyToWrite(disk: Disk, current: Pair, payloads: Payloads)
    reads disk
  {
    && disk.Valid() && disk.register == Settled(current) && disk.storage.dir == Directory(current, None)
    && current.Fits() && payloads.Fits()
  }

  /** Everything up to the durable committed marker. */
  method WriteGeneration(disk: Disk, current: Pair, payloads: Payloads) returns (e: Ending)
    requires disk.storage.dir == Directory(current, None)
    modifies disk
    ensures e in {Completed, Raised, Died}
    ensures e == Completed ==> disk.storage.dir.docs == payloads.AsPair()
    ensures old(ReadyToWrite(disk, current, payloads)) && e == Completed
            ==> disk.Valid() && disk.register == Settled(payloads.AsPair())
    ensures old(ReadyToWrite(disk, current, payloads)) && e != Completed
            ==> Committing(disk.storage, disk.register, current, payloads)
    ensures Spends(e, old(disk.faults), disk.faults)
  {
    ghost var ready := ReadyToWrite(disk, current, payloads);
    var prepared, committed := Transaction(Prepared, current, payloads), Transaction(Committed, current, payloads);
    if ready {
      PreparedRecordOpens(disk.storage, prepared);
    }
    e := WriteRecord(disk, prepared);
    if e != Completed {
      if ready && Represents(disk.storage, Undecided(current, payloads)) {
        disk.register := Undecided(current, payloads);
      }
      return;
    }
    if ready {
      disk.register := Undecided(current, payloads);
    }
    e := StageDocuments(disk, current, payloads);
    if e != Completed {
      return;
    }
    e := ReplaceDocuments(disk, current, payloads);
    if e != Completed {
      return;
    }
    if ready {
      SyncKeepsRegister(disk.storage, disk.register);
    }
    var io := disk.Sync();
    if io != Done {
      return EndingOf(io);
    }
    if ready {
      RewriteKeepsUndecided(disk.storage, committed);
      DurableMarkerSettles(disk.storage, committed);
    }
    e := WriteRecord(disk, committed);
    if ready && e == Completed {
      disk.register := Settled(payloads.AsPair());
    }
  }

  /** Remove the committed record; when that fails, try to leave it in place for a later reader. */
  method CompleteCleanup(disk: Disk, current: Pair, payloads: Payloads) returns (died: bool)
    modifies disk`storage, disk`faults
    ensures old(disk.Valid()) && disk.register == Settled(payloads.AsPair()) && current.Fits() && payloads.Fits()
            ==> disk.Valid()
    ensures Clean(old(disk.faults)) ==> !died && disk.storage.dir == old(disk.storage.dir).(record := None)
    ensures disk.storage.dir.docs == old(disk.storage.dir.docs)
    ensures Mild(old(disk.faults)) ==>
              && !died && disk.storage == disk.storage.Sync()
              && disk.storage.dir.record in {None, Some(WrittenRecord(Transaction(Committed, current, payloads)))}
  {
    var committed := Transaction(Committed, current, payloads);
    ghost var settled :=
      disk.Valid() && disk.register == Settled(payloads.AsPair()) && current.Fits() && payloads.Fits();
    if settled {
      CleanupKeepsSettled(disk.storage, committed);
      SyncKeepsRegister(disk.storage.SetRecord(None), disk.register);
    }
    var io := disk.SetRecord(None);
    if io == Done {
      io := disk.Sync();
    }
    if io == OsError {
      if settled {
        CleanupKeepsSettled(disk.storage, committed);
      }
      var e := WriteRecord(disk, committed);
      return e == Died;
    }
    died := io == Killed;
  }

  /** The writing half of a save, with its rollback and cleanup. */
  method SaveOver(disk: Disk, current: Pair, payloads: Payloads) returns (reply: Reply)
    requires disk.storage.dir == Directory(current, None)
    modifies disk
    ensures reply in {Acknowledged, Restored, Unfinished, Crashed}
    ensures old(ReadyToWrite(disk, current, payloads)) ==>
              && disk.Valid()
              && (reply == Acknowledged ==> disk.register == Settled(payloads.AsPair()))
              && (reply == Restored ==> disk.register == Settled(current))
              && disk.register in {Settled(current), Undecided(current, payloads), Settled(payloads.AsPair())}
    ensures Clean(old(disk.faults)) ==> reply == Acknowledged && disk.storage.dir == Directory(payloads.AsPair(), None)
    ensures reply == Acknowledged ==> disk.storage.dir.docs == payloads.AsPair()
    ensures old(ReadyToWrite(disk, current, payloads)) && reply == Restored ==>
              disk.storage.dir == Directory(current, None)
    ensures old(ReadyToWrite(disk, current, payloads)) && Mild(old(disk.faults)) ==> reply in {Acknowledged, Restored}
  {
    var e := WriteGeneration(disk, current, payloads);
    if e == Raised {
      e := RollbackPreCommit(disk, current, payloads);
      return match e case Completed => Restored case Died => Crashed case _ => Unfinished;
    }
    if e == Died {
      return Crashed;
    }
    var died := CompleteCleanup(disk, current, payloads);
    reply := if died then Crashed else Acknowledged;
  }

  /** Recover, then read both documents. */
  method RecoverAndRead(disk: Disk) returns (e: Ending, current: Pair)
    modifies disk
    ensures !Recoverable(old(disk.storage.dir)) ==> e in {Refused, Raised, Died} && disk.storage == old(disk.storage)
    ensures e == Completed ==> disk.storage.dir == Directory(current, None)
    ensures old(disk.Valid()) ==> disk.Valid() && Narrows(old(disk.register), disk.register)
    ensures old(disk.Valid()) && e == Completed ==> disk.register == Settled(current)
    ensures Recoverable(old(disk.storage.dir)) ==> Spends(e, old(disk.faults), disk.faults)
    ensures old(disk.Valid()) ==> Recoverable(old(disk.storage.dir))
    ensures e == Completed ==> current == Goal(old(disk.storage.dir))
  {
    if disk.Valid() {
      GoalIsAValue(disk.storage, disk.register);
    }
    e := RecoverPendingTransaction(disk);
    current := disk.storage.dir.docs;
    if e == Completed {
      var io := disk.Touch();
      e := EndingOf(io);
    }
  }

  /** The pair is recovered and read: compare it with the expected revision and write the new one. */
  method SaveGuarded(
    disk: Disk, payloads: Payloads, expected: Option<Digest>, current: Pair, ghost before: Register)
    returns (reply: Reply)
    requires disk.storage.dir == Directory(current, None) && payloads.Fits()
    modifies disk
    ensures old(disk.Valid()) && old(disk.register) == Settled(current) && Narrows(before, Settled(current)) ==>
              disk.Valid() && Step(before, Save(payloads, expected), reply, disk.register)
    ensures Clean(old(disk.faults)) && current.Fits() && Passes(current, expected) ==>
              reply == Acknowledged && disk.storage.dir == Directory(payloads.AsPair(), None)
    ensures current.Fits() && !Passes(current, expected) ==>
              reply == Conflict(Revision(current)) && disk.storage == old(disk.storage)
    ensures !current.Fits() ==> reply == Declined && disk.storage == old(disk.storage)
    ensures old(disk.Valid()) && old(disk.register) == Settled(current) && Mild(old(disk.faults)) ==>
              reply !in {Unfinished, Crashed}
    ensures old(disk.Valid()) && old(disk.register) == Settled(current) && reply == Restored ==>
              disk.storage.dir == Directory(current, None)
    ensures reply == Acknowledged ==> disk.storage.dir.docs == payloads.AsPair()
  {
    if !current.Fits() {
      return Declined;
    }
    if expected.Some? && Revision(current) != expected.value {
      return Conflict(Revision(current));
    }
    ghost var valid := disk.Valid() && disk.register == Settled(current) && Narrows(before, Settled(current));
    reply := SaveOver(disk, current, payloads);
    if valid {
      assert current in Settled(current).Values();
      SaveIsAStep(before, current, payloads, expected, reply, disk.register);
    }
  }

  /**
   commit_configuration_pair: one save is one step of the register, whatever fails or dies, and a
   directory a recovery must refuse is left exactly as it was.
   */
  method CommitConfigurationPair(disk: Disk, payloads: Payloads, expected: Option<Digest>) returns (reply: Reply)
    modifies disk
    ensures old(disk.Valid()) ==>
              disk.Valid() && Step(old(disk.register), Save(payloads, expected), reply, disk.register)
    ensures !Recoverable(old(disk.storage.dir)) ==> reply in {Declined, Crashed} && disk.storage == old(disk.storage)
    ensures Clean(old(disk.faults)) && Recoverable(old(disk.storage.dir))
            && Goal(old(disk.storage.dir)).Fits() && payloads.Fits() ==>
              if Passes(Goal(old(disk.storage.dir)), expected)
              then reply == Acknowledged && disk.storage.dir == Directory(payloads.AsPair(), None)
              else reply == Conflict(Revision(Goal(old(disk.storage.dir))))
    ensures !payloads.Fits() ==> reply == Declined && disk.storage == old(disk.storage)
    ensures old(disk.Valid()) && Mild(old(disk.faults)) ==> reply !in {Unfinished, Crashed}
    ensures old(disk.Valid()) && reply == Restored ==>
              disk.storage.dir == Directory(Goal(old(disk.storage.dir)), None)
    ensures reply == Acknowledged ==> disk.storage.dir.docs == payloads.AsPair()
  {
    if !payloads.Fits() {
      return Declined;
    }
    ghost var before := disk.register;
    var e, current := RecoverAndRead(disk);
    if e != Completed {
      return if e == Died then Crashed else Declined;
    }
    reply := SaveGuarded(disk, payloads, expected, current, before);
  }

  /** A reader of the pair: recover, then read (aflow/config.py:1490-1504). */
  method LoadPair(disk: Disk) returns (reply: Reply)
    modifies disk
    ensures old(disk.Valid()) ==> disk.Valid() && Step(old(disk.register), Load, reply, disk.register)
    ensures !Recoverable(old(disk.storage.dir)) ==> reply in {Declined, Crashed} && disk.storage == old(disk.storage)
    ensures Clean(old(disk.faults)) && Recoverable(old(disk.storage.dir)) ==>
              && reply == Loaded(Goal(old(disk.storage.dir)))
              && disk.storage.dir == Directory(Goal(old(disk.storage.dir)), None)
  {
    var e, current := RecoverAndRead(disk);
    if e != Completed {
      return if e == Died then Crashed else Declined;
    }
    assert current in Settled(current).Values();
    reply := Loaded(current);
  }

  /** What a recovery script does next: one attempt, or a power loss that leaves this if it may. */
  datatype Attempt = Try | Cut(left: Directory)

  predicate Uncut(script: seq<Attempt>) { forall i | 0 <= i < |script| :: script[i] == Try }

  /**
   Recovery converges.  Interrupted by errors and process deaths any number of times, the first
   attempt that completes installs the generation an undisturbed recovery would have installed, from
   every recoverable directory.  From a firm storage the same holds through any power losses between
   the attempts and inside them.
   */
  method RecoverUntilCompleted(disk: Disk, script: seq<Attempt>) returns (e: Ending)
    modifies disk
    ensures Firm(old(disk.storage)) ==>
              && Firm(disk.storage) && AimsAt(disk.storage.dir, Goal(old(disk.storage.dir)))
              && (e == Completed ==> disk.storage.dir == Directory(Goal(old(disk.storage.dir)), None))
    ensures Recoverable(old(disk.storage.dir)) && Uncut(script) ==>
              && AimsAt(disk.storage.dir, Goal(old(disk.storage.dir)))
              && (e == Completed ==> disk.storage.dir == Directory(Goal(old(disk.storage.dir)), None))
    ensures old(disk.Valid()) ==> disk.Valid()
    ensures (Firm(old(disk.storage)) || (Recoverable(old(disk.storage.dir)) && Uncut(script)))
            && Clean(old(disk.faults)) && script != [] && script[|script| - 1] == Try
            ==> e == Completed
  {
    e := Died;
    ghost var goal, start, calm := Goal(disk.storage.dir), disk.storage, Uncut(script);
    if Firm(start) {
      FirmLeaves(start, start.dir);
    }
    for i := 0 to |script|
      invariant Firm(start) ==> Firm(disk.storage)
      invariant Firm(start) || (calm && Recoverable(start.dir)) ==>
                  AimsAt(disk.storage.dir, goal) && (e == Completed ==> disk.storage.dir == Directory(goal, None))
      invariant old(disk.Valid()) ==> disk.Valid()
      invariant (Firm(start) || (calm && Recoverable(start.dir))) && Clean(old(disk.faults)) ==>
                  Clean(disk.faults) && (i > 0 && script[i - 1] == Try ==> e == Completed)
    {
      match script[i]
      case Try =>
        e := RecoverPendingTransaction(disk);
      case Cut(left) =>
        if disk.storage.MayLeave(left) {
          if Firm(disk.storage) {
            MoveKeepsFirm(disk.storage, Move.Outage(left));
          }
          disk.PowerLoss(left);
        }
        e := Died;
    }
  }

  /** One operation on a directory; an outage leaves what it may. */
  method Serve(disk: Disk, request: Request, left: Directory) returns (reply: Reply)
    requires disk.Valid()
    modifies disk
    ensures disk.Valid() && Step(old(disk.register), request, reply, disk.register)
  {
    match request {
      case Load =>
        reply := LoadPair(disk);
      case Save(payloads, expected) =>
        reply := CommitConfigurationPair(disk, payloads, expected);
      case Outage =>
        disk.PowerLoss(if disk.storage.MayLeave(left) then left else disk.storage.dir);
        reply := PoweredOff;
    }
  }

  /**
   Any run of saves, loads and power losses on one directory, each operation under an arbitrary
   script of errors and process deaths, is a history of the register.
   */
  method Session(disk: Disk, requests: seq<Request>, left: seq<Directory>)
    returns (replies: seq<Reply>, ghost registers: seq<Register>)
    requires disk.Valid() && |left| == |requests|
    modifies disk
    ensures disk.Valid()
    ensures Explains(registers, requests, replies)
    ensures registers[0] == old(disk.register) && registers[|requests|] == disk.register
  {
    replies, registers := [], [disk.register];
    for i := 0 to |requests|
      invariant disk.Valid()
      invariant Explains(registers, requests[..i], replies)
      invariant registers[0] == old(disk.register) && registers[i] == disk.register
    {
      var reply := Serve(disk, requests[i], left[i]);
      ExtendHistory(registers, requests[..i], replies, requests[i], reply, disk.register);
      assert requests[..i + 1] == requests[..i] + [requests[i]];
      replies, registers := replies + [reply], registers + [disk.register];
    }
    assert requests[..|requests|] == requests;
  }
}
