/**
 The store of one resource: a journal file that every operation reads, validates, changes and
 rewrites under a non-blocking lock (aflow/execution_resources.py:313-761), and the lease that
 drives one claim (aflow/execution_resources.py:819-929).
 */
module ResourceStore {
  import opened Prelude
  import opened ResourceJournal
  import opened ResourceOrder
  import opened ResourceDecisions

  /** A file that cannot be read or decoded is Unreadable; a decoded journal is still to be validated. */
  datatype JournalFile = Missing | Unreadable | Decoded(journal: Journal)

  /** How a write ends; the rename may succeed although the call reports an error. */
  datatype Write = Published | NotPublished | PublishedButFailed

  datatype Lock = Free | Held | Broken

  /** The environment of one operation. */
  datatype Environment = Environment(lock: Lock, write: Write)

  function ReadableJournal(file: JournalFile): Option<Journal> {
    match file
    case Missing => Some(EMPTY_JOURNAL)
    case Unreadable => None
    case Decoded(j) => if ValidJournal(j) then Some(j) else None
  }

  function CurrentJournal(file: JournalFile): Journal {
    if ReadableJournal(file).Some? then ReadableJournal(file).value else EMPTY_JOURNAL
  }

  /** The effect of a locked operation that decides `d`: its outcome and the file it leaves. */
  function Conclude(file: JournalFile, env: Environment, d: Decision): (Outcome, JournalFile) {
    if env.lock == Held then (Outcome(Contended, None, LockContended), file)
    else if env.lock == Broken then (Reject(IoFailure), file)
    else if ReadableJournal(file).None? then (Reject(MalformedJournal), file)
    else if d.next.None? then (d.outcome, file)
    else
      match env.write
      case Published => (d.outcome, Decoded(d.next.value))
      case NotPublished => (Reject(IoFailure), file)
      case PublishedButFailed => (Reject(IoFailure), Decoded(d.next.value))
  }

  function Perform(file: JournalFile, op: Op, env: Environment): (Outcome, JournalFile) {
    Conclude(file, env, Decide(CurrentJournal(file), op))
  }

  /** A locked operation publishes what it decided or leaves the file; only then may it report success. */
  lemma ConcludeCases(file: JournalFile, env: Environment, d: Decision, o: Outcome, after: JournalFile)
    requires (o, after) == Conclude(file, env, d)
    ensures after == file || (ReadableJournal(file).Some? && d.next.Some? && after == Decoded(d.next.value))
    ensures o.state == Contended && d.outcome.state != Contended ==> after == file && o.ticket.None?
    ensures o.state !in {Rejected, Contended} ==>
              ReadableJournal(file).Some? && o == d.outcome && (d.next.Some? ==> after == Decoded(d.next.value))
    ensures o.state == Rejected && o.reason !in {IoFailure, MalformedJournal} ==>
              ReadableJournal(file).Some? && o == d.outcome
  {
  }

  /** With a free lock and a write that succeeds, a readable journal gets the decision itself. */
  lemma ConcludeCalmly(file: JournalFile, d: Decision)
    requires ReadableJournal(file).Some?
    ensures Conclude(file, Environment(Free, Published), d)
         == (d.outcome, if d.next.Some? then Decoded(d.next.value) else file)
  {
  }

  /** The first waiter of this controller, under this invocation, on a free resource. */
  predicate MayTake(file: JournalFile, invocation: string, who: Identity, c: Claim) {
    ReadableJournal(file).Some? && FirstWaiter(ReadableJournal(file).value, c)
    && c.Invocation() == invocation && c.controller == who
  }

  lemma TryAcquireAnswers(
    file: JournalFile, invocation: string, who: Identity, env: Environment, o: Outcome, after: JournalFile)
    requires (o, after) == Perform(file, TryAcquire(invocation, who), env)
    ensures forall c | env == Environment(Free, Published) && MayTake(file, invocation, who, c) ::
              && o == Outcome(Acquired, Some(c.ticket), NoReason)
              && after.Decoded? && after.journal.owner == Some(c.(status := Reserved))
    ensures o.state == Acquired ==> env == Environment(Free, Published) && exists c :: MayTake(file, invocation, who, c)
    ensures (forall c :: !MayTake(file, invocation, who, c)) ==> after == file
  {
    if ReadableJournal(file).Some? {
      var j := ReadableJournal(file).value;
      forall c | MayTake(file, invocation, who, c) ensures Decide(j, TryAcquire(invocation, who)).outcome
                 == Outcome(Acquired, Some(c.ticket), NoReason)
        ensures Decide(j, TryAcquire(invocation, who)).next.Some?
        ensures Decide(j, TryAcquire(invocation, who)).next.value.owner == Some(c.(status := Reserved))
      {
        FirstWaiterIsGranted(j, c);
      }
      if forall c :: !MayTake(file, invocation, who, c) {
        forall c | FirstWaiter(j, c) && c.Invocation() == invocation ensures c.controller != who {
          assert !MayTake(file, invocation, who, c);
        }
        OthersAreNotGranted(j, invocation, who);
      }
    }
  }

  /** The claims evidence asks to remove. */
  function RemovedClaims(j: Journal, evidence: Claim -> Probes): set<string> {
    set c | c in Claims(j) && ReconcileClaim(c, evidence(c)) :: c.Invocation()
  }

  class ExecutionResourceStore {
    var file: JournalFile

    constructor ()
      ensures file == Missing
    {
      file := Missing;
    }

    /** _validate_journal: tickets and invocations collected in sets, the ticket bound checked last. */
    method ValidateJournal(j: Journal) returns (ok: bool)
      ensures ok <==> ValidJournal(j)
    {
      if j.revision < 0 || j.nextTicket < 1 || (j.owner.Some? && j.owner.value.status == Queued) {
        return false;
      }
      var claims := Claims(j);
      if |claims| > MAX_OUTSTANDING_CLAIMS {
        return false;
      }
      for i := 0 to |j.queue|
        invariant forall k | 0 <= k < i :: j.queue[k].status == Queued
      {
        if j.queue[i].status != Queued {
          assert j.queue[i] in j.queue;
          return false;
        }
      }
      var tickets;
      ok, tickets := ValidateClaims(claims);
      assert ok ==> forall c | c in claims :: c.ticket in tickets;
      ok := ok && forall t | t in tickets :: t < j.nextTicket;
    }

    /** The per-claim half of _validate_journal, with the tickets seen. */
    method ValidateClaims(claims: seq<Claim>) returns (ok: bool, tickets: set<int>)
      ensures ok <==> (forall c | c in claims :: WellFormedClaim(c)) && Distinct(claims)
      ensures ok ==> tickets == set c | c in claims :: c.ticket
    {
      tickets := {};
      var invocations: set<string> := {};
      for i := 0 to |claims|
        invariant forall k | 0 <= k < i :: WellFormedClaim(claims[k])
        invariant tickets == set k | 0 <= k < i :: claims[k].ticket
        invariant invocations == set k | 0 <= k < i :: claims[k].Invocation()
        invariant Distinct(claims[..i])
      {
        var c := claims[i];
        assert c in claims;
        if !WellFormedClaim(c) || c.ticket in tickets || c.Invocation() in invocations {
          return false, tickets;
        }
        assert claims[..i + 1] == claims[..i] + [c];
        tickets, invocations := tickets + {c.ticket}, invocations + {c.Invocation()};
      }
      assert claims[..|claims|] == claims;
      ok := true;
    }

    method ReadJournal() returns (j: Option<Journal>)
      ensures j == ReadableJournal(file)
    {
      match file {
        case Missing => j := Some(EMPTY_JOURNAL);
        case Unreadable => j := None;
        case Decoded(read) =>
          var ok := ValidateJournal(read);
          j := if ok then Some(read) else None;
      }
    }

    /** Publish a journal; false when the write reports an error. */
    method WriteJournal(j: Journal, write: Write) returns (ok: bool)
      modifies this
      ensures ok == (write == Published)
      ensures file == if write == NotPublished then old(file) else Decoded(j)
    {
      if write != NotPublished {
        file := Decoded(j);
      }
      ok := write == Published;
    }

    /** The lock and the validated read every operation starts with. */
    method Open(lock: Lock) returns (refusal: Option<Outcome>, j: Journal)
      ensures lock == Held ==> refusal == Some(Outcome(Contended, None, LockContended))
      ensures lock == Broken ==> refusal == Some(Reject(IoFailure))
      ensures lock == Free && ReadableJournal(file).None? ==> refusal == Some(Reject(MalformedJournal))
      ensures lock == Free && ReadableJournal(file).Some? ==> refusal.None? && ReadableJournal(file) == Some(j)
    {
      j := EMPTY_JOURNAL;
      match lock {
        case Held => refusal := Some(Outcome(Contended, None, LockContended));
        case Broken => refusal := Some(Reject(IoFailure));
        case Free =>
          var read := ReadJournal();
          if read.None? {
            refusal := Some(Reject(MalformedJournal));
          } else {
            refusal, j := None, read.value;
          }
      }
    }

    method EnqueueClaim(spec: ClaimSpec, controller: Option<Identity>, env: Environment) returns (o: Outcome)
      modifies this
      ensures controller.None? ==> o == Reject(IdentityUnavailable) && file == old(file)
      ensures controller.Some? ==> (o, file) == Perform(old(file), Enqueue(spec, controller.value), env)
    {
      if controller.None? {
        return Reject(IdentityUnavailable);
      }
      var refusal, j := Open(env.lock);
      if refusal.Some? {
        return refusal.value;
      }
      var existing := FindClaim(j, spec.invocation);
      if existing.Some? {
        if existing.value.controller == controller.value && SameSpec(existing.value.spec, spec) {
          return Outcome(if existing.value.status == Reserved then Acquired else WasQueued,
                         Some(existing.value.ticket), NoReason);
        }
        return Reject(IdentityConflict);
      }
      if |j.queue| + (if j.owner.Some? then 1 else 0) >= MAX_OUTSTANDING_CLAIMS {
        return Reject(Capacity);
      }
      var ticket := j.nextTicket;
      j := j.(nextTicket := ticket + 1);
      j := j.(queue := j.queue + [NewClaim(spec, ticket, controller.value)]);
      j := j.(revision := j.revision + 1);
      var ok := WriteJournal(j, env.write);
      o := if ok then Outcome(WasQueued, Some(ticket), NoReason) else Reject(IoFailure);
    }

    method TryAcquireClaim(invocation: string, controller: Identity, env: Environment) returns (o: Outcome)
      modifies this
      ensures (o, file) == Perform(old(file), TryAcquire(invocation, controller), env)
      ensures forall c | env == Environment(Free, Published) && MayTake(old(file), invocation, controller, c) ::
                && o == Outcome(Acquired, Some(c.ticket), NoReason)
                && file.Decoded? && file.journal.owner == Some(c.(status := Reserved))
      ensures o.state == Acquired ==>
                env == Environment(Free, Published) && exists c :: MayTake(old(file), invocation, controller, c)
      ensures (forall c :: !MayTake(old(file), invocation, controller, c)) ==> file == old(file)
    {
      ghost var before := file;
      o := TakeIfFirst(invocation, controller, env);
      TryAcquireAnswers(before, invocation, controller, env, o, file);
    }

    /** The steps of try_acquire under the lock. */
    method TakeIfFirst(invocation: string, controller: Identity, env: Environment) returns (o: Outcome)
      modifies this
      ensures (o, file) == Perform(old(file), TryAcquire(invocation, controller), env)
    {
      var refusal, j := Open(env.lock);
      if refusal.Some? {
        return refusal.value;
      }
      var claim := FindClaim(j, invocation);
      if claim.None? {
        return Reject(UnknownInvocation);
      }
      var c := claim.value;
      if c.controller != controller {
        return Reject(IdentityConflict);
      }
      if c.status != Queued {
        return Outcome(WasQueued, Some(c.ticket), Busy);
      }
      if j.owner.Some? {
        return Outcome(WasQueued, Some(c.ticket),
                       if j.owner.value.status == Unconfirmed then OwnerUnconfirmed else Busy);
      }
      if Head(j.queue).Invocation() != invocation {
        return Outcome(WasQueued, Some(c.ticket), Busy);
      }
      j := j.(queue := Drop(j.queue, {invocation}));
      j := j.(owner := Some(c.(status := Reserved)));
      j := j.(revision := j.revision + 1);
      var ok := WriteJournal(j, env.write);
      o := if ok then Outcome(Acquired, Some(c.ticket), NoReason) else Reject(IoFailure);
    }

    method CancelClaim(invocation: string, controller: Identity, env: Environment) returns (o: Outcome)
      modifies this
      ensures (o, file) == Perform(old(file), Cancel(invocation, controller), env)
    {
      var refusal, j := Open(env.lock);
      if refusal.Some? {
        return refusal.value;
      }
      var claim := FindClaim(j, invocation);
      if claim.None? {
        return Reject(UnknownInvocation);
      }
      var c := claim.value;
      if c.controller != controller {
        return Reject(IdentityConflict);
      }
      if c.status !in {Queued, Reserved} {
        return Reject(NotCancellable);
      }
      if j.owner == Some(c) {
        j := j.(owner := None);
      } else {
        j := j.(queue := Drop(j.queue, {invocation}));
      }
      j := j.(revision := j.revision + 1);
      var ok := WriteJournal(j, env.write);
      o := if ok then Outcome(Cancelled, Some(c.ticket), NoReason) else Reject(IoFailure);
    }

    /** _owned_transition: the fenced write behind launching, binding, completing and retaining. */
    method OwnedTransition(op: Op, invocation: string, controller: Identity, allowed: set<Status>,
                           success: State, reason: Reason, env: Environment) returns (o: Outcome)
      modifies this
      ensures (o, file) == Conclude(old(file), env,
                                    DecideOwned(CurrentJournal(old(file)), op, invocation, controller, allowed,
                                                success, reason))
    {
      var refusal, j := Open(env.lock);
      if refusal.Some? {
        return refusal.value;
      }
      if j.owner.None? || j.owner.value.Invocation() != invocation {
        return Reject(NotOwner);
      }
      var owner := j.owner.value;
      if owner.controller != controller {
        return Reject(IdentityConflict);
      }
      if owner.status !in allowed {
        return Reject(NotOwner);
      }
      j := j.(owner := OwnerAfter(owner, op));
      j := j.(revision := j.revision + 1);
      var ok := WriteJournal(j, env.write);
      o := if ok then Outcome(success, Some(owner.ticket), reason) else Reject(IoFailure);
    }

    method MarkClaimLaunching(invocation: string, controller: Identity, env: Environment) returns (o: Outcome)
      modifies this
      ensures (o, file) == Perform(old(file), MarkLaunching(invocation, controller), env)
    {
      o := OwnedTransition(MarkLaunching(invocation, controller), invocation, controller, {Reserved},
                           WasLaunching, NoReason, env);
    }

    method RegisterChildOf(invocation: string, controller: Identity, pid: int, birth: Option<string>,
                           group: Option<int>, env: Environment) returns (o: Outcome)
      modifies this
      ensures pid < 1 ==> o == Reject(InvalidChild) && file == old(file)
      ensures pid >= 1 ==>
                (o, file) == Perform(old(file), RegisterChild(invocation, controller, pid, birth, group), env)
    {
      if pid < 1 {
        return Reject(InvalidChild);
      }
      o := OwnedTransition(RegisterChild(invocation, controller, pid, birth, group), invocation, controller,
                           {Launching}, WasRunning, NoReason, env);
    }

    method RecordCompletion(invocation: string, controller: Identity, unconfirmed: bool, env: Environment)
      returns (o: Outcome)
      modifies this
      ensures (o, file) == Perform(old(file),
                                   if unconfirmed then MarkUnconfirmed(invocation, controller)
                                   else Complete(invocation, controller),
                                   env)
    {
      if unconfirmed {
        o := OwnedTransition(MarkUnconfirmed(invocation, controller), invocation, controller, OWNER_STATUSES,
                             Retained, OwnerUnconfirmed, env);
      } else {
        o := OwnedTransition(Complete(invocation, controller), invocation, controller, OWNER_STATUSES,
                             Released, NoReason, env);
      }
    }

    /** The unlocked half of reconcile: read the journal, probe every claim. */
    method SampleClaims(evidence: Claim -> Probes) returns (j: Option<Journal>, removed: set<string>, reason: Reason)
      ensures j == ReadableJournal(file)
      ensures j.Some? ==> removed == RemovedClaims(j.value, evidence)
      ensures j.Some? && removed != {} ==>
                (reason == OwnerReclaimed <==> j.value.owner.Some? && j.value.owner.value.Invocation() in removed)
                && reason in {OwnerReclaimed, DeadWaiterRemoved}
    {
      removed, reason := {}, NoReason;
      j := ReadJournal();
      if j.None? {
        return;
      }
      var claims := Claims(j.value);
      for i := 0 to |claims|
        invariant removed == set c | c in claims[..i] && ReconcileClaim(c, evidence(c)) :: c.Invocation()
        invariant i <= |j.value.queue| ==> (removed != {} ==> reason == DeadWaiterRemoved)
        invariant i > |j.value.queue| && removed != {} ==>
                    (reason == OwnerReclaimed <==> j.value.owner.value.Invocation() in removed)
                    && reason in {OwnerReclaimed, DeadWaiterRemoved}
      {
        var c := claims[i];
        assert claims[..i + 1] == claims[..i] + [c];
        if ReconcileClaim(c, evidence(c)) {
          removed := removed + {c.Invocation()};
          reason := if i == |j.value.queue| then OwnerReclaimed else DeadWaiterRemoved;
        }
      }
      assert claims[..|claims|] == claims;
    }

    /** The locked half of reconcile: recheck the revision, then remove. */
    method CommitReclaim(revision: int, removed: set<string>, reason: Reason, env: Environment) returns (o: Outcome)
      modifies this
      ensures (o, file) == Perform(old(file), Reclaim(revision, removed, reason), env)
    {
      var refusal, j := Open(env.lock);
      if refusal.Some? {
        return refusal.value;
      }
      if j.revision != revision {
        return Outcome(Unchanged, None, RevisionChanged);
      }
      var changed := false;
      if j.owner.Some? && j.owner.value.Invocation() in removed {
        j := j.(owner := None);
        changed := true;
      }
      var kept := Drop(j.queue, removed);
      if |kept| != |j.queue| {
        changed := true;
      }
      if !changed {
        return Outcome(Unchanged, None, NoReason);
      }
      j := j.(queue := kept);
      j := j.(revision := j.revision + 1);
      var ok := WriteJournal(j, env.write);
      o := if ok then Outcome(Reclaimed, None, reason) else Reject(IoFailure);
    }
  }
}
