/**
 When each broker operation succeeds, what it then does, and what it answers otherwise, for every
 journal that validates (aflow/execution_resources.py:284-310, 481-761). Stated on the claims of the
 journal, without the functions that decide.
 */
module ResourceDecisions {
  import opened Prelude
  import opened ResourceJournal
  import opened ResourceOrder
  import opened ResourceValidity

  /** In a valid journal an invocation names one claim, and finding it finds that one. */
  lemma NamesOneClaim(j: Journal, c: Claim)
    requires ValidJournal(j) && c in Claims(j)
    ensures FindClaim(j, c.Invocation()) == Some(c)
  {
    var found := FindClaim(j, c.Invocation()).value;
    if found != c {
      DistinctMembers(Claims(j), found, c);
    }
  }

  predicate Names(j: Journal, invocation: string) { exists c | c in Claims(j) :: c.Invocation() == invocation }

  lemma UnknownIsNotFound(j: Journal, invocation: string)
    ensures FindClaim(j, invocation).None? <==> !Names(j, invocation)
  {
    if FindClaim(j, invocation).Some? {
      assert FindClaim(j, invocation).value in Claims(j);
    }
  }

  lemma QueuedAreClaims(j: Journal)
    ensures forall c | c in j.queue :: c in Claims(j)
    ensures j.owner.Some? ==> j.owner.value in Claims(j)
    ensures forall c | c in Claims(j) :: c in j.queue || j.owner == Some(c)
  {
  }

  /** Nothing is written, and the operation answers this. */
  predicate Refuses(j: Journal, op: Op, o: Outcome) { Decide(j, op) == Decision(o, None) }

  // ---- enqueue ----

  /** A new invocation gets the next ticket at the end of the queue while there is room. */
  lemma NewClaimIsQueued(j: Journal, spec: ClaimSpec, who: Identity)
    requires ValidJournal(j) && !Names(j, spec.invocation)
    ensures |Claims(j)| == MAX_OUTSTANDING_CLAIMS ==> Refuses(j, Enqueue(spec, who), Outcome(Rejected, None, Capacity))
    ensures |Claims(j)| < MAX_OUTSTANDING_CLAIMS ==>
              Decide(j, Enqueue(spec, who)) == Decision(
                Outcome(WasQueued, Some(j.nextTicket), NoReason),
                Some(Journal(j.revision + 1, j.nextTicket + 1, j.owner,
                             j.queue + [Claim(Queued, spec, j.nextTicket, who, None, None, None)])))
  {
    UnknownIsNotFound(j, spec.invocation);
  }

  /** A known one is answered by its own controller and spec alone, and never written. */
  lemma KnownClaimIsAnswered(j: Journal, spec: ClaimSpec, who: Identity, c: Claim)
    requires ValidJournal(j) && c in Claims(j) && c.Invocation() == spec.invocation
    ensures Refuses(j, Enqueue(spec, who),
                    if c.controller == who && c.spec.projectRoot == spec.projectRoot && c.spec.runId == spec.runId
                       && c.spec.kind == spec.kind && c.spec.role == spec.role && c.spec.selector == spec.selector
                    then Outcome(if c.status == Reserved then Acquired else WasQueued, Some(c.ticket), NoReason)
                    else Outcome(Rejected, None, IdentityConflict))
  {
    NamesOneClaim(j, c);
  }

  // ---- try_acquire ----

  /** The caller's waiting claim has the least ticket and the resource is free. */
  predicate FirstWaiter(j: Journal, c: Claim) {
    j.owner.None? && c in j.queue && forall d | d in j.queue :: c.ticket <= d.ticket
  }

  /** Whenever the resource is free, the first waiter that asks is granted, however many wait. */
  lemma FirstWaiterIsGranted(j: Journal, c: Claim)
    requires ValidJournal(j) && FirstWaiter(j, c)
    ensures var d := Decide(j, TryAcquire(c.Invocation(), c.controller));
            && d.outcome == Outcome(Acquired, Some(c.ticket), NoReason) && d.next.Some?
            && var k := d.next.value;
               && k.owner == Some(c.(status := Reserved)) && k.nextTicket == j.nextTicket
               && k.revision == j.revision + 1 && forall w :: w in k.queue <==> w in j.queue && w != c
  {
    QueuedAreClaims(j);
    NamesOneClaim(j, c);
    ValidParts(j);
    var head := Head(j.queue);
    if head != c {
      DistinctMembers(j.queue, head, c);
    }
    forall w | w in j.queue && w.Invocation() == c.Invocation() ensures w == c {
      NamesOneClaim(j, w);
    }
  }

  /** Any other call grants nothing, writes nothing and says why. */
  lemma OthersAreNotGranted(j: Journal, invocation: string, who: Identity)
    requires ValidJournal(j)
    requires forall c | FirstWaiter(j, c) && c.Invocation() == invocation :: c.controller != who
    ensures Decide(j, TryAcquire(invocation, who)).next.None?
    ensures Decide(j, TryAcquire(invocation, who)).outcome.state in {Rejected, WasQueued}
    ensures !Names(j, invocation) ==>
              Refuses(j, TryAcquire(invocation, who), Outcome(Rejected, None, UnknownInvocation))
    ensures forall c | c in Claims(j) && c.Invocation() == invocation ::
              Refuses(j, TryAcquire(invocation, who),
                      if c.controller != who then Outcome(Rejected, None, IdentityConflict)
                      else if c.status == Queued && j.owner.Some? && j.owner.value.status == Unconfirmed
                      then Outcome(WasQueued, Some(c.ticket), OwnerUnconfirmed)
                      else Outcome(WasQueued, Some(c.ticket), Busy))
  {
    UnknownIsNotFound(j, invocation);
    forall c | c in Claims(j) && c.Invocation() == invocation ensures FindClaim(j, invocation) == Some(c) {
      NamesOneClaim(j, c);
    }
    if FindClaim(j, invocation).Some? {
      var c := FindClaim(j, invocation).value;
      if j.owner.None? && j.queue != [] && Head(j.queue).Invocation() == invocation {
        QueuedAreClaims(j);
        NamesOneClaim(j, Head(j.queue));
        assert FirstWaiter(j, c);
      }
    }
  }

  // ---- cancel ----

  lemma CancelExactly(j: Journal, c: Claim, who: Identity)
    requires ValidJournal(j) && c in Claims(j)
    ensures c.controller != who ==>
              Refuses(j, Cancel(c.Invocation(), who), Outcome(Rejected, None, IdentityConflict))
    ensures c.controller == who && c.status !in {Queued, Reserved} ==>
              Refuses(j, Cancel(c.Invocation(), who), Outcome(Rejected, None, NotCancellable))
    ensures c.controller == who && c.status in {Queued, Reserved} ==>
              var d := Decide(j, Cancel(c.Invocation(), who));
              && d.outcome == Outcome(Cancelled, Some(c.ticket), NoReason) && d.next.Some?
              && RemovesOnly(j, d.next.value, {c.Invocation()}) && c !in Claims(d.next.value)
  {
    QueuedAreClaims(j);
    NamesOneClaim(j, c);
    ValidParts(j);
    if c.controller == who && c.status in {Queued, Reserved} {
      var k := Decide(j, Cancel(c.Invocation(), who)).next.value;
      if j.owner == Some(c) {
        forall w | w in j.queue ensures w.Invocation() != c.Invocation() {
          OwnerApart(j, w);
        }
      } else if j.owner.Some? {
        OwnerApart(j, c);
      }
      QueuedAreClaims(k);
    }
  }

  lemma CancelUnknown(j: Journal, invocation: string, who: Identity)
    requires !Names(j, invocation)
    ensures Refuses(j, Cancel(invocation, who), Outcome(Rejected, None, UnknownInvocation))
  {
    UnknownIsNotFound(j, invocation);
  }

  /** The claims of the named invocations are gone; every other one is where it was. */
  ghost predicate RemovesOnly(j: Journal, k: Journal, removed: set<string>) {
    && k.revision == j.revision + 1 && k.nextTicket == j.nextTicket
    && (forall c :: c in k.queue <==> c in j.queue && c.Invocation() !in removed)
    && k.owner == if j.owner.Some? && j.owner.value.Invocation() in removed then None else j.owner
  }

  // ---- the owner's transitions ----

  /** The resource is owned by this invocation of this controller. */
  predicate OwnedBy(j: Journal, invocation: string, who: Identity) {
    j.owner.Some? && j.owner.value.Invocation() == invocation && j.owner.value.controller == who
  }

  /** Only the owner claim changes. */
  predicate OwnerBecomes(j: Journal, op: Op, state: State, reason: Reason, owner: Option<Claim>)
    requires j.owner.Some?
  {
    Decide(j, op) == Decision(Outcome(state, Some(j.owner.value.ticket), reason),
                              Some(Journal(j.revision + 1, j.nextTicket, owner, j.queue)))
  }

  predicate TransitionRefused(j: Journal, op: Op, invocation: string, who: Identity) {
    Refuses(j, op, if j.owner.Some? && j.owner.value.Invocation() == invocation && j.owner.value.controller != who
                   then Outcome(Rejected, None, IdentityConflict) else Outcome(Rejected, None, NotOwner))
  }

  /** Launching is marked for a reserved owner by its own controller, and for nothing else. */
  lemma LaunchExactly(j: Journal, invocation: string, who: Identity)
    ensures var op := MarkLaunching(invocation, who);
            if OwnedBy(j, invocation, who) && j.owner.value.status == Reserved
            then OwnerBecomes(j, op, WasLaunching, NoReason, Some(j.owner.value.(status := Launching)))
            else TransitionRefused(j, op, invocation, who)
  {
  }

  /** A child is bound to a launching owner by its own controller, and to nothing else. */
  lemma BindExactly(j: Journal, invocation: string, who: Identity, pid: int, birth: Option<string>, group: Option<int>)
    ensures var op := RegisterChild(invocation, who, pid, birth, group);
            if pid < 1 then Refuses(j, op, Outcome(Rejected, None, InvalidChild))
            else if OwnedBy(j, invocation, who) && j.owner.value.status == Launching
            then OwnerBecomes(j, op, WasRunning, NoReason,
                              Some(j.owner.value.(status := Running, childPid := Some(pid), childBirth := birth,
                                                  processGroup := group)))
            else TransitionRefused(j, op, invocation, who)
  {
  }

  /** Its own controller releases or retains an owner in any status. */
  lemma CompleteExactly(j: Journal, invocation: string, who: Identity)
    requires ValidJournal(j)
    ensures if OwnedBy(j, invocation, who) then OwnerBecomes(j, Complete(invocation, who), Released, NoReason, None)
            else TransitionRefused(j, Complete(invocation, who), invocation, who)
    ensures if OwnedBy(j, invocation, who)
            then OwnerBecomes(j, MarkUnconfirmed(invocation, who), Retained, OwnerUnconfirmed,
                              Some(j.owner.value.(status := Unconfirmed)))
            else TransitionRefused(j, MarkUnconfirmed(invocation, who), invocation, who)
  {
    ValidParts(j);
  }

  // ---- the locked half of reconcile ----

  lemma DropLength(queue: seq<Claim>, removed: set<string>)
    ensures |Drop(queue, removed)| == |queue| <==> forall c | c in queue :: c.Invocation() !in removed
  {
    if forall c | c in queue :: c.Invocation() !in removed {
      DropAbsent(queue, removed);
    } else {
      var c :| c in queue && c.Invocation() in removed;
      DropShrinks(queue, removed, c);
    }
  }

  lemma ReclaimRemoves(j: Journal, removed: set<string>, reason: Reason)
    requires exists c | c in Claims(j) :: c.Invocation() in removed
    ensures var d := Decide(j, Reclaim(j.revision, removed, reason));
            && d.outcome == Outcome(Reclaimed, None, reason)
            && d.next.Some? && RemovesOnly(j, d.next.value, removed)
  {
    QueuedAreClaims(j);
    DropLength(j.queue, removed);
  }

  /** An unchanged journal loses exactly the claims the sample found gone. */
  lemma ReclaimExactly(j: Journal, revision: int, removed: set<string>, reason: Reason)
    ensures var op := Reclaim(revision, removed, reason);
            if j.revision != revision then Refuses(j, op, Outcome(Unchanged, None, RevisionChanged))
            else if forall c | c in Claims(j) :: c.Invocation() !in removed
            then Refuses(j, op, Outcome(Unchanged, None, NoReason))
            else
              && Decide(j, op).outcome == Outcome(Reclaimed, None, reason)
              && Decide(j, op).next.Some? && RemovesOnly(j, Decide(j, op).next.value, removed)
  {
    if j.revision == revision {
      if exists c | c in Claims(j) :: c.Invocation() in removed {
        ReclaimRemoves(j, removed, reason);
      } else {
        QueuedAreClaims(j);
        DropLength(j.queue, removed);
      }
    }
  }
}
