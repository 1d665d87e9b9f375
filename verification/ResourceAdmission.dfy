/**
 The admission loop of one invocation, and the lease it hands over
 (aflow/execution_resources.py:819-1217).

 Everything the loop does not control is a script of moments: what other controllers publish
 meanwhile, locks and write failures, owner stops, configuration verdicts, elapsed intervals.
 A script may end while the loop still waits; nothing is claimed about how long it waits.
 */
module ResourceAdmission {
  import opened Prelude
  import opened ResourceJournal
  import opened ResourceOrder
  import opened ResourceDecisions
  import opened ResourceStore

  datatype Verdict = Same | Reprepare(retained: Option<string>) | Retry | Raises

  datatype Moment = Moment(
    foreign: seq<Op>, env: Environment, stop: bool, verdict: Verdict,
    controlsDue: bool, deadlinePassed: bool, evidence: Claim -> Probes)

  /** How admission ends; LeaseError is the typed fail-closed error. */
  datatype Exit =
    | Admitted | Stopped | RevalidationFailed | MustReprepare(retained: Option<string>) | LeaseError | StillWaiting

  /** The result of servicing controls: go on, or leave. */
  datatype Signal = Proceed | Leave(exit: Exit)

  predicate WellFormedIdentity(who: Identity) {
    who.pid >= 1 && who.birth != "" && who.boot != ""
  }

  /** Operations of others; a reclaim with sound evidence never names a live controller's claim. */
  predicate Foreign(op: Op, me: Identity, invocation: string) {
    ControllerOk(op) && Issuer(op) != Some(me) && (op.Reclaim? ==> invocation !in op.removed)
  }

  /** The store is unreadable or holds a journal that operations reach. */
  predicate SoundFile(file: JournalFile) {
    ReadableJournal(file).Some? ==> Ordered(ReadableJournal(file).value)
  }

  predicate MyClaim(c: Claim, spec: ClaimSpec, me: Identity, ticket: int) {
    c.controller == me && SameSpec(c.spec, spec) && c.Invocation() == spec.invocation && c.ticket == ticket
  }

  predicate HoldsTicket(j: Journal, spec: ClaimSpec, me: Identity, ticket: int) {
    FindClaim(j, spec.invocation).Some? && MyClaim(FindClaim(j, spec.invocation).value, spec, me, ticket)
  }

  predicate HoldsReservation(j: Journal, spec: ClaimSpec, me: Identity, ticket: int) {
    HoldsTicket(j, spec, me, ticket) && FindClaim(j, spec.invocation) == j.owner && j.owner.value.status == Reserved
  }

  /** A known ticket is in the journal. */
  predicate KeepsTicket(file: JournalFile, spec: ClaimSpec, me: Identity, ticket: Option<int>) {
    && SoundFile(file)
    && (ticket.Some? ==>
          ReadableJournal(file).Some? && HoldsTicket(ReadableJournal(file).value, spec, me, ticket.value))
  }

  predicate Reservation(file: JournalFile, spec: ClaimSpec, me: Identity, ticket: Option<int>) {
    && SoundFile(file) && ticket.Some?
    && ReadableJournal(file).Some? && HoldsReservation(ReadableJournal(file).value, spec, me, ticket.value)
  }

  predicate Withdrawn(file: JournalFile, spec: ClaimSpec) {
    ReadableJournal(file).Some? && FindClaim(ReadableJournal(file).value, spec.invocation).None?
  }

  /** The way out that a stop, or else the live configuration, asks for at the next two moments. */
  function Control(script: seq<Moment>): Option<Exit> {
    if script == [] then None
    else if script[0].stop then Some(Stopped)
    else if |script| == 1 then None
    else
      match script[1].verdict
      case Raises => Some(RevalidationFailed)
      case Reprepare(retained) => Some(MustReprepare(retained))
      case _ => None
  }

  /** The same for the check after the grant, which repeats while the configuration is unreadable. */
  function FinalControl(script: seq<Moment>): Option<Exit> {
    if Control(script).Some? || |script| < 2 || script[1].verdict != Retry then Control(script)
    else FinalControl(script[2..])
  }

  /** An exit is the one asked for, or the typed error when a withdrawal could not be confirmed. */
  predicate Answers(exit: Exit, asked: Option<Exit>) {
    && asked.Some?
    && (exit == asked.value
        || (exit == LeaseError && asked.value in {Stopped, RevalidationFailed, MustReprepare(None)}))
  }

  /** Moments in which nobody else acts, nothing fails and nobody asks for anything. */
  predicate Calm(script: seq<Moment>) {
    forall i | 0 <= i < |script| ::
      && script[i].foreign == [] && script[i].env == Environment(Free, Published)
      && !script[i].stop && script[i].verdict == Same && !script[i].controlsDue
  }

  /** Moments in which nobody else acts and nothing fails, whatever stop and configuration ask for. */
  predicate Quiet(script: seq<Moment>) {
    forall i | 0 <= i < |script| :: script[i].foreign == [] && script[i].env == Environment(Free, Published)
  }

  lemma CalmTail(script: seq<Moment>)
    ensures Calm(script) && |script| >= 2 ==> Calm(script[1..]) && Calm(script[2..])
    ensures Calm(script) && |script| >= 3 ==> Calm(script[3..]) && script[2..][1..] == script[3..]
  {
  }

  /** Every claim of a readable journal is this controller's. */
  predicate OnlyMine(file: JournalFile, me: Identity) {
    ReadableJournal(file).Some? && forall c | c in Claims(ReadableJournal(file).value) :: c.controller == me
  }

  predicate Idle(file: JournalFile) {
    ReadableJournal(file).Some? && ReadableJournal(file).value.owner.None? && ReadableJournal(file).value.queue == []
  }

  /** A readable journal in which this claim is absent or still cancellable by its controller. */
  predicate Withdrawable(file: JournalFile, spec: ClaimSpec, me: Identity) {
    && ReadableJournal(file).Some?
    && var c := FindClaim(ReadableJournal(file).value, spec.invocation);
       c.Some? ==> c.value.controller == me && c.value.status in {Queued, Reserved}
  }

  /** The ticket kept from before, or else the one this admission learned. */
  function Known(held: Option<int>, ticket: Option<int>): Option<int> { if held.Some? then held else ticket }

  /** An admission that learns a ticket learns the one kept from before. */
  predicate Joined(held: Option<int>, ticket: Option<int>) { held.Some? && ticket.Some? ==> ticket == held }

  predicate Retains(exit: Exit) { exit.MustReprepare? && exit.retained.Some? }

  /** What each way out promises about the journal at that moment. */
  predicate CleanExit(exit: Exit, file: JournalFile, spec: ClaimSpec, me: Identity, ticket: Option<int>) {
    match exit
    case Admitted => Reservation(file, spec, me, ticket)
    case Stopped => Withdrawn(file, spec)
    case RevalidationFailed => Withdrawn(file, spec)
    case MustReprepare(None) => Withdrawn(file, spec)
    case MustReprepare(Some(_)) => KeepsTicket(file, spec, me, ticket)
    case LeaseError => true
    case StillWaiting => true
  }

  /** The journal an operation publishes is readable again. */
  lemma PublishedIsSound(j: Journal, op: Op)
    requires Ordered(j) && ControllerOk(op)
    ensures ReadableJournal(Decoded(Apply(j, op))) == Some(Apply(j, op)) && SoundFile(Decoded(Apply(j, op)))
  {
    ApplyKeepsOrdered(j, op);
    OrderedIsValid(Apply(j, op));
  }

  lemma ForeignKeepsTicket(j: Journal, op: Op, spec: ClaimSpec, me: Identity, ticket: int)
    requires Ordered(j) && HoldsTicket(j, spec, me, ticket) && Foreign(op, me, spec.invocation)
    ensures HoldsTicket(Apply(j, op), spec, me, ticket)
    ensures HoldsReservation(j, spec, me, ticket) ==> HoldsReservation(Apply(j, op), spec, me, ticket)
  {
    var c := FindClaim(j, spec.invocation).value;
    OthersKeepClaim(j, op, c);
    if HoldsReservation(j, spec, me, ticket) {
      OthersKeepOwner(j, op, c);
    }
  }

  /** The file after operations of others, each published on the journal it reads. */
  function AfterForeign(file: JournalFile, ops: seq<Op>): JournalFile
    decreases |ops|
  {
    if ops == [] then file
    else
      var before := AfterForeign(file, ops[..|ops| - 1]);
      match ReadableJournal(before)
      case Some(j) => Decoded(Apply(j, ops[|ops| - 1]))
      case None => before
  }

  lemma {:induction false} ForeignRunKeepsTicket(
    file: JournalFile, ops: seq<Op>, spec: ClaimSpec, me: Identity, ticket: int)
    requires KeepsTicket(file, spec, me, Some(ticket))
    requires forall i | 0 <= i < |ops| :: Foreign(ops[i], me, spec.invocation)
    ensures KeepsTicket(AfterForeign(file, ops), spec, me, Some(ticket))
    decreases |ops|
  {
    if ops != [] {
      var front, op := ops[..|ops| - 1], ops[|ops| - 1];
      ForeignRunKeepsTicket(file, front, spec, me, ticket);
      var j := ReadableJournal(AfterForeign(file, front)).value;
      PublishedIsSound(j, op);
      ForeignKeepsTicket(j, op, spec, me, ticket);
    }
  }

  lemma KeptTicketAnswers(file: JournalFile, spec: ClaimSpec, me: Identity, ticket: int, env: Environment)
    requires KeepsTicket(file, spec, me, Some(ticket))
    ensures var (o, after) := Perform(file, Enqueue(spec, me), env);
            && after == file
            && o == match env.lock
                    case Held => Outcome(Contended, None, LockContended)
                    case Broken => Reject(IoFailure)
                    case Free =>
                      var state := if Reservation(file, spec, me, Some(ticket)) then Acquired else WasQueued;
                      Outcome(state, Some(ticket), NoReason)
  {
    var j := ReadableJournal(file).value;
    var c := FindClaim(j, spec.invocation).value;
    if c.status == Reserved {
      assert c !in j.queue;
    }
  }

  /**
   A kept claim survives whatever others do before re-admission, and re-admission with the same spec
   writes nothing and answers its ticket, or reports a lock it could not take.
   */
  lemma ReadmissionGetsTicket(
    file: JournalFile, ops: seq<Op>, spec: ClaimSpec, me: Identity, ticket: int, env: Environment)
    requires KeepsTicket(file, spec, me, Some(ticket))
    requires forall i | 0 <= i < |ops| :: Foreign(ops[i], me, spec.invocation)
    ensures var later := AfterForeign(file, ops);
            && KeepsTicket(later, spec, me, Some(ticket))
            && var (o, after) := Perform(later, Enqueue(spec, me), env);
               && after == later
               && o == match env.lock
                       case Held => Outcome(Contended, None, LockContended)
                       case Broken => Reject(IoFailure)
                       case Free =>
                         var state := if Reservation(later, spec, me, Some(ticket)) then Acquired else WasQueued;
                         Outcome(state, Some(ticket), NoReason)
  {
    ForeignRunKeepsTicket(file, ops, spec, me, ticket);
    KeptTicketAnswers(AfterForeign(file, ops), spec, me, ticket, env);
  }

  lemma EnqueueHoldsTicket(j: Journal, spec: ClaimSpec, me: Identity)
    requires Ordered(j) && WellFormedIdentity(me)
    requires Decide(j, Enqueue(spec, me)).outcome.state != Rejected
    ensures var o := Decide(j, Enqueue(spec, me)).outcome;
            && o.ticket.Some?
            && HoldsTicket(Apply(j, Enqueue(spec, me)), spec, me, o.ticket.value)
            && (o.state == Acquired ==> HoldsReservation(Apply(j, Enqueue(spec, me)), spec, me, o.ticket.value))
  {
    var k := Apply(j, Enqueue(spec, me));
    if FindClaim(j, spec.invocation).None? {
      var c := NewClaim(spec, j.nextTicket, me);
      assert k.queue[|j.queue|] == c && c in Claims(k);
      ApplyKeepsOrdered(j, Enqueue(spec, me));
      ClaimIsFound(k, c);
    } else if FindClaim(j, spec.invocation).value.status == Reserved {
      assert FindClaim(j, spec.invocation).value !in j.queue;
    }
  }

  lemma OwnEnqueue(file: JournalFile, spec: ClaimSpec, me: Identity, env: Environment, o: Outcome, after: JournalFile)
    requires SoundFile(file) && WellFormedIdentity(me)
    requires (o, after) == Perform(file, Enqueue(spec, me), env)
    ensures SoundFile(after)
    ensures o.state != Rejected ==> KeepsTicket(after, spec, me, o.ticket)
    ensures o.state == Acquired ==> Reservation(after, spec, me, o.ticket)
  {
    var j := CurrentJournal(file);
    var d := Decide(j, Enqueue(spec, me));
    ConcludeCases(file, env, d, o, after);
    if ReadableJournal(file).Some? {
      PublishedIsSound(j, Enqueue(spec, me));
      if o.state !in {Rejected, Contended} {
        EnqueueHoldsTicket(j, spec, me);
      }
    }
  }

  /** An enqueue of a kept claim changes nothing and can only answer with the kept ticket. */
  lemma EnqueueKeepsHeld(file: JournalFile, spec: ClaimSpec, me: Identity, held: int, env: Environment,
                         o: Outcome, after: JournalFile)
    requires KeepsTicket(file, spec, me, Some(held))
    requires (o, after) == Perform(file, Enqueue(spec, me), env)
    ensures after == file && Joined(Some(held), o.ticket)
  {
  }

  lemma AcquireHoldsTicket(j: Journal, spec: ClaimSpec, me: Identity, ticket: int)
    requires Ordered(j) && HoldsTicket(j, spec, me, ticket)
    ensures HoldsTicket(Apply(j, TryAcquire(spec.invocation, me)), spec, me, ticket)
    ensures Decide(j, TryAcquire(spec.invocation, me)).outcome.state == Acquired ==>
              HoldsReservation(Apply(j, TryAcquire(spec.invocation, me)), spec, me, ticket)
  {
    if Decide(j, TryAcquire(spec.invocation, me)).next.Some? {
      AcquireTakesFirst(j, spec.invocation, me);
      FirstInLine(j, spec.invocation);
    }
  }

  lemma OwnAcquire(file: JournalFile, spec: ClaimSpec, me: Identity, ticket: int, env: Environment,
                   o: Outcome, after: JournalFile)
    requires KeepsTicket(file, spec, me, Some(ticket)) && WellFormedIdentity(me)
    requires (o, after) == Perform(file, TryAcquire(spec.invocation, me), env)
    ensures o.state != Rejected ==> KeepsTicket(after, spec, me, Some(ticket))
    ensures o.state == Acquired ==> Reservation(after, spec, me, Some(ticket))
  {
    var j := CurrentJournal(file);
    ConcludeCases(file, env, Decide(j, TryAcquire(spec.invocation, me)), o, after);
    PublishedIsSound(j, TryAcquire(spec.invocation, me));
    AcquireHoldsTicket(j, spec, me, ticket);
  }

  /** Only a locked read that shows the claim absent, or its removal, ends a withdrawal. */
  lemma OwnCancel(file: JournalFile, spec: ClaimSpec, me: Identity, env: Environment, o: Outcome, after: JournalFile)
    requires SoundFile(file) && WellFormedIdentity(me)
    requires (o, after) == Perform(file, Cancel(spec.invocation, me), env)
    ensures o.state == Cancelled || o == Reject(UnknownInvocation) ==> Withdrawn(after, spec)
    ensures o.state == Contended ==> after == file
  {
    var j := CurrentJournal(file);
    ConcludeCases(file, env, Decide(j, Cancel(spec.invocation, me)), o, after);
    if o.state == Cancelled {
      PublishedIsSound(j, Cancel(spec.invocation, me));
      CancelRemoves(j, spec.invocation, me);
    }
  }

  lemma CancelSucceeds(file: JournalFile, spec: ClaimSpec, me: Identity, o: Outcome, after: JournalFile)
    requires Withdrawable(file, spec, me)
    requires (o, after) == Perform(file, Cancel(spec.invocation, me), Environment(Free, Published))
    ensures o.state == Cancelled || o == Reject(UnknownInvocation)
  {
  }

  lemma CancelRemoves(j: Journal, invocation: string, who: Identity)
    requires Ordered(j) && Decide(j, Cancel(invocation, who)).next.Some?
    ensures FindClaim(Apply(j, Cancel(invocation, who)), invocation).None?
  {
    var c := FindClaim(j, invocation).value;
    var k := Apply(j, Cancel(invocation, who));
    if j.owner != Some(c) && j.owner.Some? {
      assert j.owner.value in Claims(j);
      ClaimIsFound(j, j.owner.value);
    }
    forall d | d in Claims(k) ensures d.Invocation() != invocation {
    }
  }

  /** Evidence that keeps a live controller's claims keeps the claim that holds this ticket. */
  lemma SampleSparesLive(j: Journal, spec: ClaimSpec, me: Identity, ticket: int, evidence: Claim -> Probes)
    requires Ordered(j) && HoldsTicket(j, spec, me, ticket)
    requires forall c: Claim | c.controller == me :: !ReconcileClaim(c, evidence(c))
    ensures spec.invocation !in RemovedClaims(j, evidence)
  {
    forall c | c in Claims(j) && c.Invocation() == spec.invocation ensures c.controller == me {
      ClaimIsFound(j, c);
    }
  }

  /** The next two moments leave the journal to the reconciler. */
  predicate Reclaiming(script: seq<Moment>, file: JournalFile) {
    && |script| >= 2 && ReadableJournal(file).Some? && script[0].foreign == [] && script[1].foreign == []
    && script[1].env == Environment(Free, Published)
  }

  /** The journal without the claims a sample found gone. */
  function AfterReclaim(j: Journal, removed: set<string>): Journal {
    Apply(j, Reclaim(j.revision, removed, DeadWaiterRemoved))
  }

  /** Findings about a claim of an unchanged journal are committed, whatever their reason. */
  lemma ReclaimLands(file: JournalFile, removed: set<string>, reason: Reason, o: Outcome, after: JournalFile)
    requires ReadableJournal(file).Some?
    requires exists c | c in Claims(ReadableJournal(file).value) :: c.Invocation() in removed
    requires (o, after) ==
             Perform(file, Reclaim(ReadableJournal(file).value.revision, removed, reason), Environment(Free, Published))
    ensures o.state == Reclaimed && after == Decoded(AfterReclaim(ReadableJournal(file).value, removed))
  {
    var j := ReadableJournal(file).value;
    ReclaimRemoves(j, removed, reason);
    ReclaimRemoves(j, removed, DeadWaiterRemoved);
    ConcludeCalmly(file, Decide(j, Reclaim(j.revision, removed, reason)));
  }

  /** What is left are exactly the claims that were not found gone. */
  lemma AfterReclaimExactly(j: Journal, removed: set<string>)
    requires exists c | c in Claims(j) :: c.Invocation() in removed
    ensures forall c | c in Claims(j) :: c in Claims(AfterReclaim(j, removed)) <==> c.Invocation() !in removed
  {
    ReclaimRemoves(j, removed, DeadWaiterRemoved);
    QueuedAreClaims(j);
    QueuedAreClaims(AfterReclaim(j, removed));
  }

  lemma RemovedAreClaims(j: Journal, evidence: Claim -> Probes)
    requires RemovedClaims(j, evidence) != {}
    ensures exists c | c in Claims(j) :: c.Invocation() in RemovedClaims(j, evidence)
  {
    var i :| i in RemovedClaims(j, evidence);
    var c :| c in Claims(j) && c.Invocation() == i;
  }

  lemma SampleSparesMine(file: JournalFile, me: Identity, evidence: Claim -> Probes)
    requires OnlyMine(file, me)
    requires forall c: Claim | c.controller == me :: !ReconcileClaim(c, evidence(c))
    ensures RemovedClaims(ReadableJournal(file).value, evidence) == {}
  {
  }

  lemma ReclaimSparesTicket(file: JournalFile, spec: ClaimSpec, me: Identity, ticket: Option<int>, op: Op,
                            env: Environment, o: Outcome, after: JournalFile)
    requires KeepsTicket(file, spec, me, ticket) && op.Reclaim?
    requires (o, after) == Perform(file, op, env)
    requires ticket.Some? ==> spec.invocation !in op.removed
    ensures KeepsTicket(after, spec, me, ticket)
  {
    var j := CurrentJournal(file);
    ConcludeCases(file, env, Decide(j, op), o, after);
    if ReadableJournal(file).Some? {
      PublishedIsSound(j, op);
      if ticket.Some? {
        ForeignKeepsTicket(j, op, spec, me, ticket.value);
      }
    }
  }

  /** The claim of this spec waits alone for a free resource. */
  predicate Alone(file: JournalFile, spec: ClaimSpec, me: Identity) {
    && ReadableJournal(file).Some?
    && var j := ReadableJournal(file).value;
       && j.owner.None? && |j.queue| == 1 && j.queue[0].controller == me
       && j.queue[0].Invocation() == spec.invocation && j.queue[0].status == Queued
  }

  /** A new invocation and room for it. */
  predicate Newcomer(file: JournalFile, invocation: string) {
    && ReadableJournal(file).Some? && !Names(ReadableJournal(file).value, invocation)
    && |Claims(ReadableJournal(file).value)| < MAX_OUTSTANDING_CLAIMS
  }

  /** A newcomer gets the next ticket and waits behind everyone. */
  lemma NewcomerGetsTicket(file: JournalFile, spec: ClaimSpec, me: Identity, o: Outcome, after: JournalFile)
    requires Newcomer(file, spec.invocation)
    requires (o, after) == Perform(file, Enqueue(spec, me), Environment(Free, Published))
    ensures var j := ReadableJournal(file).value;
            && o == Outcome(WasQueued, Some(j.nextTicket), NoReason)
            && after == Decoded(Journal(j.revision + 1, j.nextTicket + 1, j.owner,
                                        j.queue + [NewClaim(spec, j.nextTicket, me)]))
            && after == Decoded(Apply(j, Enqueue(spec, me)))
  {
    var j := ReadableJournal(file).value;
    NewClaimIsQueued(j, spec, me);
    ConcludeCalmly(file, Decide(j, Enqueue(spec, me)));
  }

  lemma IdleEnqueue(file: JournalFile, spec: ClaimSpec, me: Identity, o: Outcome, after: JournalFile)
    requires SoundFile(file) && Idle(file) && WellFormedIdentity(me)
    requires (o, after) == Perform(file, Enqueue(spec, me), Environment(Free, Published))
    ensures o.state == WasQueued && o.ticket.Some? && Alone(after, spec, me) && OnlyMine(after, me)
  {
    var j := CurrentJournal(file);
    assert Claims(j) == [] && j.queue + [NewClaim(spec, j.nextTicket, me)] == [NewClaim(spec, j.nextTicket, me)];
    NewcomerGetsTicket(file, spec, me, o, after);
    PublishedIsSound(j, Enqueue(spec, me));
  }

  lemma AloneAcquires(file: JournalFile, spec: ClaimSpec, me: Identity, o: Outcome, after: JournalFile)
    requires Alone(file, spec, me)
    requires (o, after) == Perform(file, TryAcquire(spec.invocation, me), Environment(Free, Published))
    ensures o.state == Acquired
  {
    var j := CurrentJournal(file);
    assert FindQueued(j.queue, spec.invocation) == Some(j.queue[0]);
  }

  class ExecutionResourceAdmission {
    const store: ExecutionResourceStore
    const spec: ClaimSpec
    const me: Identity
    var script: seq<Moment>

    constructor (store: ExecutionResourceStore, spec: ClaimSpec, me: Identity, script: seq<Moment>)
      ensures this.store == store && this.spec == spec && this.me == me && this.script == script
    {
      this.store, this.spec, this.me, this.script := store, spec, me, script;
    }

    ghost predicate Ok()
      reads this, store
    {
      && WellFormedIdentity(me)
      && SoundFile(store.file)
      && forall m | m in script :: forall c: Claim | c.controller == me :: !ReconcileClaim(c, m.evidence(c))
    }

    /** Others publish their operations; then the next moment of the script is at hand. */
    method Pass(ghost ticket: Option<int>) returns (more: bool, m: Moment)
      requires Ok() && KeepsTicket(store.file, spec, me, ticket)
      modifies this`script, store
      ensures Ok() && KeepsTicket(store.file, spec, me, ticket)
      ensures old(Reservation(store.file, spec, me, ticket)) ==> Reservation(store.file, spec, me, ticket)
      ensures more ==> old(script) != [] && m == old(script)[0] && script == old(script)[1..]
      ensures !more ==>
                && script == old(script) == [] && m.foreign == [] && !m.stop && m.verdict == Same
                && m.env == Environment(Free, Published)
      ensures m.foreign == [] ==> store.file == old(store.file)
      ensures more ==> forall c: Claim | c.controller == me :: !ReconcileClaim(c, m.evidence(c))
    {
      if script == [] {
        var unknown := Probes(None, ProcessEvidence(Unknown, None), ProcessEvidence(Unknown, None), GroupUnknown);
        more, m := false, Moment([], Environment(Free, Published), false, Same, false, true, (c: Claim) => unknown);
        return;
      }
      more, m := true, script[0];
      script := script[1..];
      for i := 0 to |m.foreign|
        invariant Ok() && KeepsTicket(store.file, spec, me, ticket)
        invariant script == old(script)[1..]
        invariant i == 0 ==> store.file == old(store.file)
        invariant old(Reservation(store.file, spec, me, ticket)) ==> Reservation(store.file, spec, me, ticket)
      {
        if Foreign(m.foreign[i], me, spec.invocation) && ReadableJournal(store.file).Some? {
          var j := ReadableJournal(store.file).value;
          PublishedIsSound(j, m.foreign[i]);
          if ticket.Some? {
            ForeignKeepsTicket(j, m.foreign[i], spec, me, ticket.value);
          }
          store.file := Decoded(Apply(j, m.foreign[i]));
        }
      }
    }

    /** _withdraw_claim: true only when the claim is known to be absent. */
    method WithdrawClaim(ghost ticket: Option<int>) returns (ok: bool)
      requires Ok() && KeepsTicket(store.file, spec, me, ticket)
      modifies this`script, store
      ensures ok ==> Withdrawn(store.file, spec)
      ensures Quiet(old(script)) && Withdrawable(old(store.file), spec, me) ==> ok
    {
      while true
        invariant Ok() && KeepsTicket(store.file, spec, me, ticket)
        invariant Quiet(old(script)) ==> script == old(script) && store.file == old(store.file)
        decreases |script|
      {
        var more, m := Pass(ticket);
        ghost var before := store.file;
        var o := store.CancelClaim(spec.invocation, me, m.env);
        OwnCancel(before, spec, me, m.env, o, store.file);
        if m.env == Environment(Free, Published) && Withdrawable(before, spec, me) {
          CancelSucceeds(before, spec, me, o, store.file);
        }
        if o.state == Cancelled || o == Reject(UnknownInvocation) {
          return true;
        }
        if o.state != Contended || m.deadlinePassed || !more {
          return false;
        }
      }
    }

    /** The control evidence of one check: owner stop first, then live revalidation. */
    method ReadControls(ghost ticket: Option<int>) returns (asked: Option<Exit>, retry: bool)
      requires Ok() && KeepsTicket(store.file, spec, me, ticket)
      modifies this`script, store
      ensures Ok() && KeepsTicket(store.file, spec, me, ticket)
      ensures old(Reservation(store.file, spec, me, ticket)) ==> Reservation(store.file, spec, me, ticket)
      ensures asked == Control(old(script))
      ensures retry <==> asked.None? && |old(script)| >= 2 && old(script)[1].verdict == Retry
      ensures |script| <= |old(script)| && (asked.None? && |old(script)| >= 2 ==> script == old(script)[2..])
      ensures |old(script)| >= 2 && old(script)[0].foreign == [] && old(script)[1].foreign == [] ==>
                store.file == old(store.file)
      ensures Quiet(old(script)) ==> Quiet(script) && store.file == old(store.file)
    {
      var more, m := Pass(ticket);
      if m.stop {
        return Some(Stopped), false;
      }
      more, m := Pass(ticket);
      match m.verdict {
        case Raises => return Some(RevalidationFailed), false;
        case Reprepare(retained) => return Some(MustReprepare(retained)), false;
        case Same => return None, false;
        case Retry => return None, true;
      }
    }

    /** Leave as asked: a retained re-prepare at once, anything else after a confirmed withdrawal. */
    method LeaveAs(ghost ticket: Option<int>, asked: Exit) returns (exit: Exit)
      requires Ok() && KeepsTicket(store.file, spec, me, ticket)
      requires asked in {Stopped, RevalidationFailed} || asked.MustReprepare?
      modifies this`script, store
      ensures Answers(exit, Some(asked)) && exit != Admitted && CleanExit(exit, store.file, spec, me, ticket)
      ensures Retains(asked) || (Quiet(old(script)) && Withdrawable(old(store.file), spec, me)) ==> exit == asked
      ensures Retains(exit) ==> Ok()
    {
      if asked.MustReprepare? && asked.retained.Some? {
        return asked;
      }
      var ok := WithdrawClaim(ticket);
      exit := if ok then asked else LeaseError;
    }

    /** _service_controls: the exit asked for, or on with the wait. */
    method ServiceControls(ghost ticket: Option<int>) returns (s: Signal)
      requires Ok() && KeepsTicket(store.file, spec, me, ticket)
      modifies this`script, store
      ensures s == Proceed ==> |script| <= |old(script)|
      ensures Calm(old(script)) && |old(script)| >= 2 ==>
                s == Proceed && script == old(script)[2..] && store.file == old(store.file)
      ensures Quiet(old(script)) && Withdrawable(old(store.file), spec, me) && Control(old(script)).Some? ==>
                s == Leave(Control(old(script)).value)
      ensures if Control(old(script)).None? then s == Proceed else s.Leave? && Answers(s.exit, Control(old(script)))
      ensures s == Proceed ==> Ok() && KeepsTicket(store.file, spec, me, ticket)
      ensures s.Leave? ==> CleanExit(s.exit, store.file, spec, me, ticket) && s.exit != Admitted
      ensures s.Leave? && Retains(s.exit) ==> Ok()
    {
      var asked, retry := ReadControls(ticket);
      if asked.None? {
        return Proceed;
      }
      var exit := LeaveAs(ticket, asked.value);
      s := Leave(exit);
    }

    /** _service_controls_final: the last check before the lease; an unreadable configuration is retried. */
    method ServiceControlsFinal(ghost ticket: Option<int>) returns (s: Signal)
      requires Ok() && Reservation(store.file, spec, me, ticket)
      modifies this`script, store
      ensures Calm(old(script)) ==> s == Proceed
      ensures Quiet(old(script)) && FinalControl(old(script)).Some? ==> s == Leave(FinalControl(old(script)).value)
      ensures if FinalControl(old(script)).None? then s == Proceed
              else s.Leave? && Answers(s.exit, FinalControl(old(script)))
      ensures s == Proceed ==> Reservation(store.file, spec, me, ticket)
      ensures s.Leave? ==> CleanExit(s.exit, store.file, spec, me, ticket) && s.exit != Admitted
      ensures s.Leave? && Retains(s.exit) ==> Ok()
    {
      while true
        invariant Ok() && Reservation(store.file, spec, me, ticket)
        invariant FinalControl(script) == FinalControl(old(script))
        invariant Quiet(old(script)) ==> Quiet(script)
        decreases |script|
      {
        var asked, retry := ReadControls(ticket);
        if asked.Some? {
          var exit := LeaveAs(ticket, asked.value);
          return Leave(exit);
        }
        if !retry {
          return Proceed;
        }
      }
    }

    /** _reconcile_dead_owner: others may publish between the sample and the commit. */
    method ReconcileDeadOwner(ghost ticket: Option<int>) returns (ok: bool)
      requires Ok() && KeepsTicket(store.file, spec, me, ticket)
      modifies this`script, store
      ensures |script| <= |old(script)|
      ensures Calm(old(script)) && |old(script)| >= 1 && OnlyMine(old(store.file), me) ==>
                ok && script == old(script)[1..] && store.file == old(store.file)
      ensures Reclaiming(old(script), old(store.file)) ==>
                && ok && var j := ReadableJournal(old(store.file)).value;
                   var removed := RemovedClaims(j, old(script)[0].evidence);
                   store.file == if removed == {} then old(store.file) else Decoded(AfterReclaim(j, removed))
      ensures ok ==> Ok() && KeepsTicket(store.file, spec, me, ticket)
    {
      var more, m := Pass(ticket);
      if !more {
        return true;
      }
      if OnlyMine(store.file, me) {
        SampleSparesMine(store.file, me, m.evidence);
      }
      var j, removed, reason := store.SampleClaims(m.evidence);
      if j.None? {
        return false;
      }
      if removed == {} {
        return true;
      }
      if ticket.Some? {
        SampleSparesLive(j.value, spec, me, ticket.value, m.evidence);
      }
      RemovedAreClaims(j.value, m.evidence);
      ok := CommitFindings(ticket, j.value, removed, reason);
    }

    /** The locked half of reconcile, after others may have published. */
    method CommitFindings(ghost ticket: Option<int>, j: Journal, removed: set<string>, reason: Reason)
      returns (ok: bool)
      requires Ok() && KeepsTicket(store.file, spec, me, ticket)
      requires ticket.Some? ==> spec.invocation !in removed
      requires exists c | c in Claims(j) :: c.Invocation() in removed
      modifies this`script, store
      ensures |script| <= |old(script)|
      ensures ok ==> Ok() && KeepsTicket(store.file, spec, me, ticket)
      ensures |old(script)| >= 1 && old(script)[0].foreign == [] && old(script)[0].env == Environment(Free, Published)
              && ReadableJournal(old(store.file)) == Some(j) ==>
                ok && store.file == Decoded(AfterReclaim(j, removed))
    {
      var more, m := Pass(ticket);
      ghost var before := store.file;
      var o := store.CommitReclaim(j.revision, removed, reason, m.env);
      ReclaimSparesTicket(before, spec, me, ticket, Reclaim(j.revision, removed, reason), m.env, o, store.file);
      if m.env == Environment(Free, Published) && ReadableJournal(before) == Some(j) {
        ReclaimLands(before, removed, reason, o, store.file);
      }
      ok := o.state != Rejected;
    }

    /** The first enqueue of an admission; exit LeaseError is a rejection. */
    method Enlist(ghost held: Option<int>) returns (exit: Exit, ticket: Option<int>, acquired: bool)
      requires Ok() && KeepsTicket(store.file, spec, me, held)
      modifies this`script, store
      ensures exit in {StillWaiting, LeaseError}
      ensures Joined(held, ticket)
      ensures exit == StillWaiting ==> Ok() && KeepsTicket(store.file, spec, me, Known(held, ticket))
      ensures exit == StillWaiting && acquired ==> Reservation(store.file, spec, me, ticket)
      ensures Quiet(old(script)) && Newcomer(old(store.file), spec.invocation) ==>
                exit == StillWaiting && ticket == Some(ReadableJournal(old(store.file)).value.nextTicket)
      ensures Calm(old(script)) && |old(script)| >= 1 && Idle(old(store.file)) ==>
                && exit == StillWaiting && !acquired && ticket.Some? && script == old(script)[1..]
                && Alone(store.file, spec, me) && OnlyMine(store.file, me)
    {
      var more, m := Pass(held);
      ghost var before := store.file;
      var o := store.EnqueueClaim(spec, Some(me), m.env);
      OwnEnqueue(before, spec, me, m.env, o, store.file);
      if held.Some? {
        EnqueueKeepsHeld(before, spec, me, held.value, m.env, o, store.file);
      }
      if Idle(before) && m.env == Environment(Free, Published) {
        IdleEnqueue(before, spec, me, o, store.file);
      }
      if Newcomer(before, spec.invocation) && m.env == Environment(Free, Published) {
        NewcomerGetsTicket(before, spec, me, o, store.file);
      }
      if o.state == Rejected {
        return LeaseError, None, false;
      }
      return StillWaiting, o.ticket, o.state == Acquired;
    }

    /** Poll for the grant while servicing controls and reconciling. */
    method Wait(first: Option<int>, ghost held: Option<int>) returns (acquired: bool, ticket: Option<int>, exit: Exit)
      requires Ok() && KeepsTicket(store.file, spec, me, Known(held, first)) && Joined(held, first)
      modifies this`script, store
      ensures Joined(held, ticket)
      ensures acquired ==> Ok() && Reservation(store.file, spec, me, ticket)
      ensures !acquired ==> exit != Admitted && CleanExit(exit, store.file, spec, me, Known(held, ticket))
      ensures !acquired && Retains(exit) ==> Ok()
      ensures Calm(old(script)) && |old(script)| >= 1 && first.Some? && Alone(old(store.file), spec, me) ==>
                acquired && Calm(script)
    {
      acquired, ticket := false, first;
      while !acquired
        invariant Ok() && KeepsTicket(store.file, spec, me, Known(held, ticket)) && Joined(held, ticket)
        invariant acquired ==> Reservation(store.file, spec, me, ticket)
        invariant Calm(old(script)) && |old(script)| >= 1 && first.Some? && Alone(old(store.file), spec, me) ==>
                    if acquired then script == old(script)[1..]
                    else script == old(script) && store.file == old(store.file) && ticket == first
        decreases !acquired, |script|
      {
        var more, m := Pass(Known(held, ticket));
        if !more {
          return false, ticket, StillWaiting;
        }
        if m.controlsDue {
          var left, signal := ServiceAndReconcile(Known(held, ticket));
          if left {
            return false, ticket, signal;
          }
        }
        acquired, ticket, exit := Poll(ticket, m.env, held);
        if exit == LeaseError {
          return false, ticket, exit;
        }
      }
      exit := StillWaiting;
    }

    /** Up to the grant: enqueue, service the controls and reconcile once, then wait. */
    method Obtain(ghost held: Option<int>) returns (acquired: bool, ticket: Option<int>, exit: Exit)
      requires Ok() && KeepsTicket(store.file, spec, me, held)
      modifies this`script, store
      ensures Joined(held, ticket)
      ensures acquired ==> Ok() && Reservation(store.file, spec, me, ticket)
      ensures !acquired ==> exit != Admitted && CleanExit(exit, store.file, spec, me, Known(held, ticket))
      ensures !acquired && Retains(exit) ==> Ok()
      ensures Calm(old(script)) && |old(script)| >= 5 && Idle(old(store.file)) ==>
                acquired && Calm(script)
    {
      CalmTail(script);
      exit, ticket, acquired := Enlist(held);
      CalmTail(script);
      if exit == LeaseError {
        acquired := false;
        return;
      }
      if !acquired {
        var left, signal := ServiceAndReconcile(Known(held, ticket));
        if left {
          return false, ticket, signal;
        }
        acquired, ticket, exit := Wait(ticket, held);
      }
    }

    /**
     admit: enqueue, wait for the grant, then check once more before handing over.  Whatever way it
     ends, the journal is as that way out promises, also for a claim kept by an earlier admission;
     on an idle resource in calm moments it admits.
     */
    method Admit(controller: Option<Identity>, ghost held: Option<int>) returns (exit: Exit, ticket: Option<int>)
      requires Ok() && (controller.Some? ==> controller.value == me)
      requires KeepsTicket(store.file, spec, me, held)
      modifies this`script, store
      ensures CleanExit(exit, store.file, spec, me, Known(held, ticket))
      ensures Retains(exit) ==> Ok() && KeepsTicket(store.file, spec, me, held)
      ensures exit == Admitted ==> Reservation(store.file, spec, me, ticket)
      ensures Joined(held, ticket)
      ensures controller.Some? && Calm(old(script)) && |old(script)| >= 5 && Idle(old(store.file)) ==> exit == Admitted
      ensures controller.None? ==> exit == LeaseError && store.file == old(store.file)
    {
      if controller.None? {
        return LeaseError, None;
      }
      var acquired;
      acquired, ticket, exit := Obtain(held);
      if !acquired {
        return;
      }
      var s := ServiceControlsFinal(ticket);
      exit := if s.Leave? then s.exit else Admitted;
    }

    /**
     Admission repeated over retained re-prepares, with others acting in between: every admission
     that learns a ticket learns the same one, and the lease is for that ticket.
     */
    method Readmit(rounds: nat) returns (exit: Exit, tickets: seq<Option<int>>)
      requires Ok()
      modifies this`script, store
      ensures tickets != []
      ensures forall i, j | 0 <= i < j < |tickets| && tickets[i].Some? && tickets[j].Some? :: tickets[i] == tickets[j]
      ensures exit == Admitted ==> Reservation(store.file, spec, me, tickets[|tickets| - 1])
      ensures Retains(exit) ==> forall i | 0 <= i < |tickets| :: KeepsTicket(store.file, spec, me, tickets[i])
    {
      ghost var held: Option<int> := None;
      var ticket;
      exit, ticket := Admit(Some(me), held);
      tickets := [ticket];
      held := ticket;
      for round := 0 to rounds
        invariant tickets != []
        invariant forall i | 0 <= i < |tickets| :: tickets[i].Some? ==> tickets[i] == held
        invariant exit == Admitted ==> Reservation(store.file, spec, me, tickets[|tickets| - 1])
        invariant Retains(exit) ==> Ok() && KeepsTicket(store.file, spec, me, held)
      {
        if !Retains(exit) {
          return;
        }
        var more, m := Pass(held);
        exit, ticket := Admit(Some(me), held);
        tickets := tickets + [ticket];
        held := Known(held, ticket);
      }
    }

    /** Controls, then reconciliation, as the wait services them. */
    method ServiceAndReconcile(ghost ticket: Option<int>) returns (left: bool, exit: Exit)
      requires Ok() && KeepsTicket(store.file, spec, me, ticket)
      modifies this`script, store
      ensures |script| <= |old(script)| || left
      ensures Calm(old(script)) && |old(script)| >= 3 && OnlyMine(old(store.file), me) ==>
                !left && script == old(script)[3..] && store.file == old(store.file)
      ensures !left ==> Ok() && KeepsTicket(store.file, spec, me, ticket)
      ensures left ==> exit != Admitted && CleanExit(exit, store.file, spec, me, ticket)
      ensures left && Retains(exit) ==> Ok()
    {
      ghost var before := script;
      var s := ServiceControls(ticket);
      if s.Leave? {
        return true, s.exit;
      }
      CalmTail(before);
      var ok := ReconcileDeadOwner(ticket);
      left, exit := !ok, LeaseError;
    }

    /** One poll: repeat a contended enqueue, or try to acquire. */
    method Poll(ticket: Option<int>, env: Environment, ghost held: Option<int>)
      returns (acquired: bool, next: Option<int>, exit: Exit)
      requires Ok() && KeepsTicket(store.file, spec, me, Known(held, ticket)) && Joined(held, ticket)
      modifies store
      ensures exit in {StillWaiting, LeaseError}
      ensures Joined(held, next)
      ensures exit == StillWaiting ==> Ok() && KeepsTicket(store.file, spec, me, Known(held, next))
      ensures exit == StillWaiting && acquired ==> Reservation(store.file, spec, me, next)
      ensures ticket.Some? ==> next == ticket
      ensures forall c | ticket.Some? && env == Environment(Free, Published)
                         && MayTake(old(store.file), spec.invocation, me, c) :: acquired && exit == StillWaiting
      ensures ticket.Some? && env == Environment(Free, Published) && Alone(old(store.file), spec, me) ==>
                acquired && exit == StillWaiting
    {
      ghost var before := store.file;
      next, exit := ticket, StillWaiting;
      var o;
      if ticket.None? {
        o := store.EnqueueClaim(spec, Some(me), env);
        OwnEnqueue(before, spec, me, env, o, store.file);
        if held.Some? {
          EnqueueKeepsHeld(before, spec, me, held.value, env, o, store.file);
        }
        next := o.ticket;
      } else {
        o := store.TryAcquireClaim(spec.invocation, me, env);
        OwnAcquire(before, spec, me, ticket.value, env, o, store.file);
        if env == Environment(Free, Published) && Alone(before, spec, me) {
          AloneAcquires(before, spec, me, o, store.file);
        }
      }
      acquired := o.state == Acquired;
      if o.state == Rejected {
        exit := LeaseError;
      }
    }
  }

  /** The first attempt that meets no contention meets no failure, and the owner is this reserved claim. */
  predicate LaunchesAt(file: JournalFile, invocation: string, who: Identity, envs: seq<Environment>, i: nat) {
    && i < |envs| && envs[i] == Environment(Free, Published) && (forall k | 0 <= k < i :: envs[k].lock == Held)
    && ReadableJournal(file).Some?
    && OwnedBy(ReadableJournal(file).value, invocation, who)
    && ReadableJournal(file).value.owner.value.status == Reserved
  }

  /** The lease of one admitted claim; launch intent is recorded at most once. */
  class ExecutionLease {
    const store: ExecutionResourceStore
    const invocation: string
    const controller: Identity
    var launchMarked: bool

    constructor (store: ExecutionResourceStore, invocation: string, controller: Identity)
      ensures this.store == store && this.invocation == invocation && this.controller == controller && !launchMarked
    {
      this.store, this.invocation, this.controller, launchMarked := store, invocation, controller, false;
    }

    /** Contention is retried, with the same fenced transition, until the deadline. */
    method MarkLaunching(envs: seq<Environment>) returns (ok: bool)
      modifies this`launchMarked, store
      ensures old(launchMarked) ==> ok && launchMarked && store.file == old(store.file)
      ensures forall i | LaunchesAt(old(store.file), invocation, controller, envs, i) :: ok
      ensures !old(launchMarked) ==> launchMarked == ok
      ensures !old(launchMarked) && ok ==>
                && ReadableJournal(old(store.file)).Some?
                && var j := ReadableJournal(old(store.file)).value;
                   && Decide(j, Op.MarkLaunching(invocation, controller)).outcome.state == WasLaunching
                   && store.file == Decoded(Apply(j, Op.MarkLaunching(invocation, controller)))
    {
      if launchMarked {
        return true;
      }
      ok := false;
      for i := 0 to |envs|
        invariant store.file == old(store.file) && launchMarked == old(launchMarked) && !ok
        invariant forall k | 0 <= k < i :: envs[k].lock == Held
      {
        var o := store.MarkClaimLaunching(invocation, controller, envs[i]);
        var d := Decide(CurrentJournal(old(store.file)), Op.MarkLaunching(invocation, controller));
        ConcludeCases(old(store.file), envs[i], d, o, store.file);
        if o.state != Contended {
          launchMarked := o.state == WasLaunching;
          return launchMarked;
        }
      }
    }
  }
}
