/**
 The durable journal of one exclusive resource and the decision every broker operation takes on
 it (aflow/execution_resources.py:85-128, 216-310, 400-816).
 */
module ResourceJournal {
  import opened Prelude

  const MAX_OUTSTANDING_CLAIMS: nat := 4096

  /** PID, birth and host boot identify a controller process. */
  datatype Identity = Identity(pid: int, birth: string, boot: string)

  datatype ClaimSpec = ClaimSpec(
    projectRoot: string, runId: string, invocation: string, kind: string, role: string, selector: string)

  datatype Status = Queued | Reserved | Launching | Running | Unconfirmed

  datatype Claim = Claim(
    status: Status, spec: ClaimSpec, ticket: int, controller: Identity,
    childPid: Option<int>, childBirth: Option<string>, processGroup: Option<int>)
  {
    function Invocation(): string { spec.invocation }
  }

  datatype Journal = Journal(revision: int, nextTicket: int, owner: Option<Claim>, queue: seq<Claim>)

  const EMPTY_JOURNAL := Journal(0, 1, None, [])

  datatype State =
    | WasQueued | Acquired | Contended | Rejected | Cancelled | Released | Retained | Reclaimed | Unchanged
    | WasLaunching | WasRunning

  datatype Reason =
    | NoReason | Busy | OwnerUnconfirmed | IdentityConflict | Capacity | UnknownInvocation | NotCancellable | NotOwner
    | InvalidChild | IdentityUnavailable | LockContended | IoFailure | MalformedJournal | RevisionChanged
    | OwnerReclaimed | DeadWaiterRemoved

  datatype Outcome = Outcome(state: State, ticket: Option<int>, reason: Reason)

  function Reject(reason: Reason): Outcome { Outcome(Rejected, None, reason) }

  // ---- validation ----

  function Claims(j: Journal): seq<Claim> {
    j.queue + if j.owner.Some? then [j.owner.value] else []
  }

  predicate WellFormedClaim(c: Claim) {
    c.ticket >= 1 && c.controller.pid >= 1 && c.controller.birth != "" && c.controller.boot != ""
  }

  predicate Distinct(claims: seq<Claim>) {
    forall a, b | 0 <= a < b < |claims| ::
      claims[a].ticket != claims[b].ticket && claims[a].Invocation() != claims[b].Invocation()
  }

  predicate ValidJournal(j: Journal) {
    && j.revision >= 0 && j.nextTicket >= 1
    && (j.owner.Some? ==> j.owner.value.status != Queued)
    && (forall c | c in j.queue :: c.status == Queued)
    && |Claims(j)| <= MAX_OUTSTANDING_CLAIMS
    && (forall c | c in Claims(j) :: WellFormedClaim(c) && c.ticket < j.nextTicket)
    && Distinct(Claims(j))
  }

  // ---- decisions ----

  function FindClaim(j: Journal, invocation: string): (found: Option<Claim>)
    ensures found.Some? ==> found.value in Claims(j) && found.value.Invocation() == invocation
    ensures found.None? ==> forall c | c in Claims(j) :: c.Invocation() != invocation
  {
    if j.owner.Some? && j.owner.value.Invocation() == invocation then j.owner else FindQueued(j.queue, invocation)
  }

  function FindQueued(queue: seq<Claim>, invocation: string): (found: Option<Claim>)
    ensures found.Some? ==> found.value in queue && found.value.Invocation() == invocation
    ensures found.None? ==> forall c | c in queue :: c.Invocation() != invocation
  {
    if queue == [] then None
    else if queue[0].Invocation() == invocation then Some(queue[0])
    else FindQueued(queue[1..], invocation)
  }

  /** The queue without the claims of some invocations, in order. */
  function Drop(queue: seq<Claim>, removed: set<string>): (kept: seq<Claim>)
    ensures forall c :: c in kept <==> c in queue && c.Invocation() !in removed
    ensures |kept| <= |queue|
  {
    if queue == [] then []
    else if queue[0].Invocation() in removed then Drop(queue[1..], removed)
    else [queue[0]] + Drop(queue[1..], removed)
  }

  /** The waiting claim with the least ticket. */
  function Head(queue: seq<Claim>): (head: Claim)
    requires queue != []
    ensures head in queue && forall c | c in queue :: head.ticket <= c.ticket
  {
    if |queue| == 1 then queue[0]
    else
      var rest := Head(queue[1..]);
      if queue[0].ticket <= rest.ticket then queue[0] else rest
  }

  function SameSpec(a: ClaimSpec, b: ClaimSpec): bool {
    a.(invocation := b.invocation) == b
  }

  /** An operation, with the controller that issues it; a reclaim carries its unlocked sample. */
  datatype Op =
    | Enqueue(spec: ClaimSpec, who: Identity)
    | TryAcquire(invocation: string, who: Identity)
    | Cancel(invocation: string, who: Identity)
    | MarkLaunching(invocation: string, who: Identity)
    | RegisterChild(invocation: string, who: Identity, pid: int, birth: Option<string>, group: Option<int>)
    | Complete(invocation: string, who: Identity)
    | MarkUnconfirmed(invocation: string, who: Identity)
    | Reclaim(revision: int, removed: set<string>, reason: Reason)

  /** The outcome, and the journal to publish if the operation writes one. */
  datatype Decision = Decision(outcome: Outcome, next: Option<Journal>)

  function Keep(outcome: Outcome): Decision { Decision(outcome, None) }

  function Publish(outcome: Outcome, j: Journal): Decision {
    Decision(outcome, Some(j.(revision := j.revision + 1)))
  }

  function NewClaim(spec: ClaimSpec, ticket: int, who: Identity): Claim {
    Claim(Queued, spec, ticket, who, None, None, None)
  }

  function DecideEnqueue(j: Journal, spec: ClaimSpec, who: Identity): Decision {
    match FindClaim(j, spec.invocation)
    case Some(existing) =>
      if existing.controller == who && SameSpec(existing.spec, spec) then
        Keep(Outcome(if existing.status == Reserved then Acquired else WasQueued, Some(existing.ticket), NoReason))
      else Keep(Reject(IdentityConflict))
    case None =>
      if |Claims(j)| >= MAX_OUTSTANDING_CLAIMS then Keep(Reject(Capacity))
      else
        Publish(Outcome(WasQueued, Some(j.nextTicket), NoReason),
                j.(nextTicket := j.nextTicket + 1, queue := j.queue + [NewClaim(spec, j.nextTicket, who)]))
  }

  function DecideTryAcquire(j: Journal, invocation: string, who: Identity): Decision {
    match FindClaim(j, invocation)
    case None => Keep(Reject(UnknownInvocation))
    case Some(claim) =>
      if claim.controller != who then Keep(Reject(IdentityConflict))
      else if claim.status != Queued then Keep(Outcome(WasQueued, Some(claim.ticket), Busy))
      else if j.owner.Some? then
        Keep(Outcome(WasQueued, Some(claim.ticket),
                     if j.owner.value.status == Unconfirmed then OwnerUnconfirmed else Busy))
      else if j.queue == [] || Head(j.queue).Invocation() != invocation then
        Keep(Outcome(WasQueued, Some(claim.ticket), Busy))
      else
        Publish(Outcome(Acquired, Some(claim.ticket), NoReason),
                j.(owner := Some(claim.(status := Reserved)), queue := Drop(j.queue, {invocation})))
  }

  function DecideCancel(j: Journal, invocation: string, who: Identity): Decision {
    match FindClaim(j, invocation)
    case None => Keep(Reject(UnknownInvocation))
    case Some(claim) =>
      if claim.controller != who then Keep(Reject(IdentityConflict))
      else if claim.status !in {Queued, Reserved} then Keep(Reject(NotCancellable))
      else
        Publish(Outcome(Cancelled, Some(claim.ticket), NoReason),
                if j.owner == Some(claim) then j.(owner := None) else j.(queue := Drop(j.queue, {invocation})))
  }

  /** The owner claim after an owner transition; completion removes it. */
  function OwnerAfter(c: Claim, op: Op): Option<Claim> {
    match op
    case MarkLaunching(_, _) => Some(c.(status := Launching))
    case RegisterChild(_, _, pid, birth, group) =>
      Some(c.(childPid := Some(pid), childBirth := birth, processGroup := group, status := Running))
    case MarkUnconfirmed(_, _) => Some(c.(status := Unconfirmed))
    case _ => None
  }

  /** The nonce and identity fence of every owner transition. */
  function DecideOwned(j: Journal, op: Op, invocation: string, who: Identity, allowed: set<Status>,
                       success: State, reason: Reason): Decision {
    if j.owner.None? || j.owner.value.Invocation() != invocation then Keep(Reject(NotOwner))
    else if j.owner.value.controller != who then Keep(Reject(IdentityConflict))
    else if j.owner.value.status !in allowed then Keep(Reject(NotOwner))
    else
      Publish(Outcome(success, Some(j.owner.value.ticket), reason), j.(owner := OwnerAfter(j.owner.value, op)))
  }

  const OWNER_STATUSES := {Reserved, Launching, Running, Unconfirmed}

  function DecideReclaim(j: Journal, revision: int, removed: set<string>, reason: Reason): Decision {
    if j.revision != revision then Keep(Outcome(Unchanged, None, RevisionChanged))
    else
      var owner := if j.owner.Some? && j.owner.value.Invocation() in removed then None else j.owner;
      var queue := Drop(j.queue, removed);
      if owner == j.owner && |queue| == |j.queue| then Keep(Outcome(Unchanged, None, NoReason))
      else Publish(Outcome(Reclaimed, None, reason), j.(owner := owner, queue := queue))
  }

  function Decide(j: Journal, op: Op): Decision {
    match op
    case Enqueue(spec, who) => DecideEnqueue(j, spec, who)
    case TryAcquire(i, who) => DecideTryAcquire(j, i, who)
    case Cancel(i, who) => DecideCancel(j, i, who)
    case MarkLaunching(i, who) => DecideOwned(j, op, i, who, {Reserved}, WasLaunching, NoReason)
    case RegisterChild(i, who, pid, _, _) =>
      if pid < 1 then Keep(Reject(InvalidChild))
      else DecideOwned(j, op, i, who, {Launching}, WasRunning, NoReason)
    case Complete(i, who) => DecideOwned(j, op, i, who, OWNER_STATUSES, Released, NoReason)
    case MarkUnconfirmed(i, who) => DecideOwned(j, op, i, who, OWNER_STATUSES, Retained, OwnerUnconfirmed)
    case Reclaim(revision, removed, reason) => DecideReclaim(j, revision, removed, reason)
  }

  /** The journal after an operation whose write, if any, is published. */
  function Apply(j: Journal, op: Op): Journal {
    match Decide(j, op).next case Some(k) => k case None => j
  }

  // ---- what reconciliation may remove ----

  datatype Liveness = Present | Absent | Unknown
  datatype ProcessEvidence = ProcessEvidence(liveness: Liveness, birth: Option<string>)
  datatype GroupEvidence = GroupAbsent | GroupPresent | GroupUnknown

  /** The probes one claim is reconciled on: boot, controller, child and child group. */
  datatype Probes = Probes(
    boot: Option<string>, controller: ProcessEvidence, child: ProcessEvidence, group: GroupEvidence)

  predicate ShowsGone(e: ProcessEvidence, birth: Option<string>) {
    e.liveness == Absent
    || (e.liveness == Present && birth.Some? && e.birth.Some? && e.birth != birth)
  }

  /** True exactly when the claim is to be removed. */
  predicate ReconcileClaim(c: Claim, p: Probes) {
    if p.boot.Some? && c.controller.boot != p.boot.value then true
    else if !ShowsGone(p.controller, Some(c.controller.birth)) then false
    else if c.status in {Queued, Reserved} then true
    else c.childPid.Some? && ShowsGone(p.child, c.childBirth) && p.group == GroupAbsent
  }
}
