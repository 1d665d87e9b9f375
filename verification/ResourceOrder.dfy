/**
 What every operation keeps about the journal of one resource, and what whole runs of
 operations by any number of controllers guarantee about order.
 */
module ResourceOrder {
  import opened Prelude
  import opened ResourceJournal

  predicate Waiting(c: Claim, nextTicket: int) {
    WellFormedClaim(c) && c.ticket < nextTicket && c.status == Queued && c.childPid.None?
  }

  /** A child is bound exactly from running on. */
  predicate Owning(c: Claim, nextTicket: int) {
    && WellFormedClaim(c) && c.ticket < nextTicket && c.status != Queued
    && (c.status == Running ==> c.childPid.Some?)
    && (c.childPid.Some? ==> c.status in {Running, Unconfirmed})
  }

  /** Tickets ascend along the queue and no invocation waits twice. */
  predicate InLine(queue: seq<Claim>) {
    forall a, b | 0 <= a < b < |queue| ::
      queue[a].ticket < queue[b].ticket && queue[a].Invocation() != queue[b].Invocation()
  }

  /** The journals operations reach from an empty one. */
  predicate Ordered(j: Journal) {
    && j.revision >= 0 && j.nextTicket >= 1
    && |Claims(j)| <= MAX_OUTSTANDING_CLAIMS
    && (forall c | c in j.queue :: Waiting(c, j.nextTicket))
    && InLine(j.queue)
    && (j.owner.Some? ==>
          && Owning(j.owner.value, j.nextTicket)
          && forall c | c in j.queue ::
               j.owner.value.ticket < c.ticket && j.owner.value.Invocation() != c.Invocation())
  }

  /** What reading a journal validates holds of every ordered journal. */
  lemma OrderedIsValid(j: Journal)
    requires Ordered(j)
    ensures ValidJournal(j)
  {
    var claims := Claims(j);
    forall a, b | 0 <= a < b < |claims|
      ensures claims[a].ticket != claims[b].ticket && claims[a].Invocation() != claims[b].Invocation()
    {
      assert claims[a] == j.queue[a];
      assert b < |j.queue| ==> claims[b] == j.queue[b];
    }
  }

  predicate ControllerOk(op: Op) {
    op.Enqueue? ==> op.who.pid >= 1 && op.who.birth != "" && op.who.boot != ""
  }

  // ---- every operation keeps the journal ordered ----

  lemma {:induction false} DropKeepsLine(queue: seq<Claim>, removed: set<string>)
    requires InLine(queue)
    ensures InLine(Drop(queue, removed))
  {
    if queue != [] {
      DropKeepsLine(queue[1..], removed);
      var rest := Drop(queue[1..], removed);
      forall b | 0 <= b < |rest|
        ensures queue[0].ticket < rest[b].ticket && queue[0].Invocation() != rest[b].Invocation()
      {
        assert rest[b] in queue[1..];
      }
    }
  }

  /** In a line the invocation names the claim, and the first claim is the head. */
  lemma LineHead(queue: seq<Claim>)
    requires InLine(queue) && queue != []
    ensures Head(queue) == queue[0]
    ensures Drop(queue, {queue[0].Invocation()}) == queue[1..]
  {
    DropAbsent(queue[1..], {queue[0].Invocation()});
  }

  lemma {:induction false} DropAbsent(queue: seq<Claim>, removed: set<string>)
    requires forall c | c in queue :: c.Invocation() !in removed
    ensures Drop(queue, removed) == queue
  {
    if queue != [] {
      DropAbsent(queue[1..], removed);
    }
  }

  lemma AppendKeepsLine(queue: seq<Claim>, c: Claim)
    requires InLine(queue)
    requires forall a | 0 <= a < |queue| :: queue[a].ticket < c.ticket && queue[a].Invocation() != c.Invocation()
    ensures InLine(queue + [c])
  {
  }

  lemma EnqueueKeepsOrdered(j: Journal, spec: ClaimSpec, who: Identity)
    requires Ordered(j) && ControllerOk(Enqueue(spec, who))
    ensures Ordered(Apply(j, Enqueue(spec, who)))
  {
    if FindClaim(j, spec.invocation).None? && |Claims(j)| < MAX_OUTSTANDING_CLAIMS {
      var k := Apply(j, Enqueue(spec, who));
      assert k.queue == j.queue + [NewClaim(spec, j.nextTicket, who)];
      forall a | 0 <= a < |j.queue|
        ensures j.queue[a].ticket < j.nextTicket && j.queue[a].Invocation() != spec.invocation
      {
        assert Claims(j)[a] == j.queue[a] && j.queue[a] in j.queue;
      }
      AppendKeepsLine(j.queue, NewClaim(spec, j.nextTicket, who));
      assert j.owner.Some? ==> j.owner.value in Claims(j);
    }
  }

  lemma FirstInLine(j: Journal, invocation: string)
    requires InLine(j.queue) && j.owner.None? && j.queue != [] && Head(j.queue).Invocation() == invocation
    ensures FindClaim(j, invocation) == Some(j.queue[0])
    ensures Drop(j.queue, {invocation}) == j.queue[1..]
  {
    LineHead(j.queue);
  }

  /** A grant takes the first waiting claim. */
  lemma AcquireTakesFirst(j: Journal, invocation: string, who: Identity)
    requires Ordered(j) && Decide(j, TryAcquire(invocation, who)).next.Some?
    ensures j.owner.None? && j.queue != [] && j.queue[0].Invocation() == invocation && j.queue[0].controller == who
    ensures Apply(j, TryAcquire(invocation, who)).owner == Some(j.queue[0].(status := Reserved))
    ensures Apply(j, TryAcquire(invocation, who)).queue == j.queue[1..]
    ensures Apply(j, TryAcquire(invocation, who)).nextTicket == j.nextTicket
  {
    FirstInLine(j, invocation);
  }

  lemma AcquireKeepsOrdered(j: Journal, invocation: string, who: Identity)
    requires Ordered(j)
    ensures Ordered(Apply(j, TryAcquire(invocation, who)))
  {
    if Decide(j, TryAcquire(invocation, who)).next.Some? {
      AcquireTakesFirst(j, invocation, who);
    }
  }

  /** Removing waiting claims, and perhaps the owner, leaves an ordered journal. */
  lemma DropKeepsOrdered(j: Journal, removed: set<string>, k: Journal)
    requires Ordered(j) && k.revision >= 0 && k.nextTicket == j.nextTicket
    requires k.queue == Drop(j.queue, removed) && (k.owner == j.owner || k.owner.None?)
    ensures Ordered(k)
  {
    DropKeepsLine(j.queue, removed);
  }

  lemma CancelKeepsOrdered(j: Journal, invocation: string, who: Identity)
    requires Ordered(j)
    ensures Ordered(Apply(j, Cancel(invocation, who)))
  {
    var k := Apply(j, Cancel(invocation, who));
    if k != j && k.owner == j.owner {
      DropKeepsOrdered(j, {invocation}, k);
    }
  }

  lemma ReclaimKeepsOrdered(j: Journal, revision: int, removed: set<string>, reason: Reason)
    requires Ordered(j)
    ensures Ordered(Apply(j, Reclaim(revision, removed, reason)))
  {
    var k := Apply(j, Reclaim(revision, removed, reason));
    if k != j {
      DropKeepsOrdered(j, removed, k);
    }
  }

  predicate IsOwnerOp(op: Op) {
    op.MarkLaunching? || op.RegisterChild? || op.Complete? || op.MarkUnconfirmed?
  }

  lemma OwnedKeepsOrdered(j: Journal, op: Op)
    requires Ordered(j) && IsOwnerOp(op)
    ensures Ordered(Apply(j, op))
  {
  }

  /** Every operation maps an ordered journal to an ordered one, and each write raises the revision by one. */
  lemma ApplyKeepsOrdered(j: Journal, op: Op)
    requires Ordered(j) && ControllerOk(op)
    ensures Ordered(Apply(j, op))
  {
    match op
    case Enqueue(spec, who) => EnqueueKeepsOrdered(j, spec, who);
    case TryAcquire(i, who) => AcquireKeepsOrdered(j, i, who);
    case Cancel(i, who) => CancelKeepsOrdered(j, i, who);
    case Reclaim(revision, removed, reason) => ReclaimKeepsOrdered(j, revision, removed, reason);
    case _ => OwnedKeepsOrdered(j, op);
  }

  lemma EveryWriteRaisesRevision(j: Journal, op: Op)
    ensures Decide(j, op).next.Some? ==> Apply(j, op).revision == j.revision + 1
  {
  }

  // ---- one ticket, over whole runs ----

  /** The stages of a ticket; a ticket that is issued but no longer in the journal is Gone. */
  datatype Stage = Unissued | Waits | Holds(status: Status) | Gone {
    function Rank(): nat {
      match this
      case Unissued => 0
      case Waits => 1
      case Holds(Queued) => 1
      case Holds(Reserved) => 2
      case Holds(Launching) => 3
      case Holds(Running) => 4
      case Holds(Unconfirmed) => 5
      case Gone => 6
    }
  }

  function StageOf(j: Journal, ticket: int): Stage {
    if ticket >= j.nextTicket then Unissued
    else if j.owner.Some? && j.owner.value.ticket == ticket then Holds(j.owner.value.status)
    else if exists c | c in j.queue :: c.ticket == ticket then Waits
    else Gone
  }

  /** The outstanding tickets granted, or to be granted, before this one. */
  function Ahead(j: Journal, ticket: int): set<int> {
    set c | c in Claims(j) && c.ticket < ticket :: c.ticket
  }

  lemma QueueAfter(j: Journal, op: Op)
    requires Ordered(j) && ControllerOk(op)
    ensures forall c | c in Apply(j, op).queue ::
              c in j.queue || (op.Enqueue? && c == NewClaim(op.spec, j.nextTicket, op.who))
    ensures j.nextTicket <= Apply(j, op).nextTicket
  {
    if op.TryAcquire? && Decide(j, op).next.Some? {
      AcquireTakesFirst(j, op.invocation, op.who);
    }
  }

  /** The owner after a step: the same ticket moved forward, or the first waiting claim granted. */
  lemma OwnerAfterStep(j: Journal, op: Op)
    requires Ordered(j) && ControllerOk(op)
    ensures var k := Apply(j, op);
            k.owner.Some? ==>
              || (j.owner.Some? && k.owner.value.ticket == j.owner.value.ticket
                  && Holds(j.owner.value.status).Rank() <= Holds(k.owner.value.status).Rank())
              || (j.owner.None? && j.queue != [] && k.owner == Some(j.queue[0].(status := Reserved))
                  && k.queue == j.queue[1..])
  {
    if op.TryAcquire? && Decide(j, op).next.Some? {
      AcquireTakesFirst(j, op.invocation, op.who);
    }
  }

  lemma StageMovesForward(j: Journal, op: Op, ticket: int)
    requires Ordered(j) && ControllerOk(op)
    ensures StageOf(j, ticket).Rank() <= StageOf(Apply(j, op), ticket).Rank()
  {
    QueueAfter(j, op);
    OwnerAfterStep(j, op);
    var k := Apply(j, op);
    if StageOf(k, ticket).Waits? {
      var c :| c in k.queue && c.ticket == ticket;
      assert c in j.queue || c.ticket == j.nextTicket;
    }
  }

  lemma AheadShrinks(j: Journal, op: Op, ticket: int)
    requires Ordered(j) && ControllerOk(op) && ticket < j.nextTicket
    ensures Ahead(Apply(j, op), ticket) <= Ahead(j, ticket)
  {
    QueueAfter(j, op);
    OwnerAfterStep(j, op);
    var k := Apply(j, op);
    forall c | c in Claims(k) && c.ticket < ticket ensures c.ticket in Ahead(j, ticket) {
      if c in k.queue {
        assert c in Claims(j);
      } else {
        assert c == k.owner.value;
        assert j.owner.Some? ==> j.owner.value in Claims(j);
        assert j.queue != [] ==> j.queue[0] in Claims(j);
      }
    }
  }

  /** A run: operations of any controllers in any order; a write may fail to be published. */
  predicate IsRun(js: seq<Journal>, ops: seq<Op>) {
    && |js| == |ops| + 1 && Ordered(js[0])
    && forall i | 0 <= i < |ops| :: ControllerOk(ops[i]) && js[i + 1] in {js[i], Apply(js[i], ops[i])}
  }

  lemma {:induction false} RunIsOrdered(js: seq<Journal>, ops: seq<Op>, i: nat)
    requires IsRun(js, ops) && i < |js|
    ensures Ordered(js[i]) && ValidJournal(js[i])
  {
    if i > 0 {
      RunIsOrdered(js, ops, i - 1);
      assert ControllerOk(ops[i - 1]) && js[i] in {js[i - 1], Apply(js[i - 1], ops[i - 1])};
      ApplyKeepsOrdered(js[i - 1], ops[i - 1]);
    }
    OrderedIsValid(js[i]);
  }

  /** Each journal is the previous one or has the next revision. */
  predicate CountsWrites(js: seq<Journal>) {
    forall i | 0 <= i < |js| - 1 :: js[i + 1] == js[i] || js[i + 1].revision == js[i].revision + 1
  }

  lemma RunCountsWrites(js: seq<Journal>, ops: seq<Op>)
    requires IsRun(js, ops)
    ensures CountsWrites(js)
  {
    forall i | 0 <= i < |js| - 1 ensures js[i + 1] == js[i] || js[i + 1].revision == js[i].revision + 1 {
      assert js[i + 1] in {js[i], Apply(js[i], ops[i])};
      EveryWriteRaisesRevision(js[i], ops[i]);
    }
  }

  lemma {:induction false} CountNamesJournal(js: seq<Journal>, a: nat, b: nat)
    requires CountsWrites(js) && a <= b < |js|
    ensures js[a].revision <= js[b].revision
    ensures js[a].revision == js[b].revision ==> js[a] == js[b]
    decreases b
  {
    if a < b {
      CountNamesJournal(js, a, b - 1);
      assert js[b - 1 + 1] == js[b - 1] || js[b - 1 + 1].revision == js[b - 1].revision + 1;
    }
  }

  /** The revision counts the writes: an unchanged revision means the whole journal is unchanged. */
  lemma RevisionNamesJournal(js: seq<Journal>, ops: seq<Op>, a: nat, b: nat)
    requires IsRun(js, ops) && a <= b < |js|
    ensures js[a].revision <= js[b].revision
    ensures js[a].revision == js[b].revision ==> js[a] == js[b]
  {
    RunCountsWrites(js, ops);
    CountNamesJournal(js, a, b);
  }

  /** Tickets only move forward, and the tickets ahead of an issued ticket only disappear. */
  lemma {:induction false} TicketsInOrder(js: seq<Journal>, ops: seq<Op>, a: nat, b: nat, ticket: int)
    requires IsRun(js, ops) && a <= b < |js|
    ensures StageOf(js[a], ticket).Rank() <= StageOf(js[b], ticket).Rank()
    ensures js[a].nextTicket <= js[b].nextTicket
    ensures ticket < js[a].nextTicket ==> Ahead(js[b], ticket) <= Ahead(js[a], ticket)
    decreases b
  {
    if a < b {
      TicketsInOrder(js, ops, a, b - 1, ticket);
      RunIsOrdered(js, ops, b - 1);
      assert ControllerOk(ops[b - 1]) && js[b] in {js[b - 1], Apply(js[b - 1], ops[b - 1])};
      StageMovesForward(js[b - 1], ops[b - 1], ticket);
      QueueAfter(js[b - 1], ops[b - 1]);
      if ticket < js[a].nextTicket {
        AheadShrinks(js[b - 1], ops[b - 1], ticket);
      }
    }
  }

  /** The step from one journal to the next grants a ticket. */
  predicate Grants(j: Journal, k: Journal, ticket: int) {
    StageOf(j, ticket) == Waits && StageOf(k, ticket) == Holds(Reserved)
  }

  lemma GrantIsLeast(j: Journal, op: Op, ticket: int, later: int)
    requires Ordered(j) && ControllerOk(op) && Grants(j, Apply(j, op), ticket)
    requires StageOf(j, later).Rank() <= 1 && later != ticket
    ensures ticket < later
  {
    OwnerAfterStep(j, op);
    assert j.queue[0].ticket == ticket;
    if StageOf(j, later).Waits? {
      var c :| c in j.queue && c.ticket == later;
      assert c in j.queue[1..];
    }
  }

  /** First in, first out: the tickets granted along a run strictly increase. */
  lemma GrantsIncrease(js: seq<Journal>, ops: seq<Op>, a: nat, b: nat, first: int, second: int)
    requires IsRun(js, ops) && a < b < |ops|
    requires Grants(js[a], js[a + 1], first) && Grants(js[b], js[b + 1], second)
    ensures first < second
  {
    assert StageOf(js[a], second).Rank() <= 1 && second != first by {
      TicketsInOrder(js, ops, a, b, second);
      TicketsInOrder(js, ops, a + 1, b, first);
    }
    assert js[a + 1] == Apply(js[a], ops[a]) && ControllerOk(ops[a]);
    RunIsOrdered(js, ops, a);
    GrantIsLeast(js[a], ops[a], first, second);
  }

  // ---- who may change a claim ----

  function Issuer(op: Op): Option<Identity> {
    match op
    case Reclaim(_, _, _) => None
    case _ => Some(op.who)
  }

  lemma ClaimIsFound(j: Journal, c: Claim)
    requires Ordered(j) && c in Claims(j)
    ensures FindClaim(j, c.Invocation()) == Some(c)
  {
    var found := FindClaim(j, c.Invocation()).value;
    OrderedIsValid(j);
    var a :| 0 <= a < |Claims(j)| && Claims(j)[a] == c;
    var b :| 0 <= b < |Claims(j)| && Claims(j)[b] == found;
  }

  lemma OthersKeepWaiting(j: Journal, op: Op, c: Claim)
    requires Ordered(j) && ControllerOk(op) && c in j.queue
    requires Issuer(op) != Some(c.controller)
    requires op.Reclaim? ==> c.Invocation() !in op.removed
    ensures c in Apply(j, op).queue
  {
    if op.TryAcquire? && Decide(j, op).next.Some? {
      AcquireTakesFirst(j, op.invocation, op.who);
      assert j.queue[0] != c;
    } else if op.Cancel? {
      ClaimIsFound(j, c);
    }
  }

  lemma OthersKeepOwner(j: Journal, op: Op, c: Claim)
    requires Ordered(j) && ControllerOk(op) && j.owner == Some(c)
    requires Issuer(op) != Some(c.controller)
    requires op.Reclaim? ==> c.Invocation() !in op.removed
    ensures Apply(j, op).owner == Some(c)
  {
  }

  /** A claim changes only by its own identity, or by a reclaim that names it. */
  lemma OthersKeepClaim(j: Journal, op: Op, c: Claim)
    requires Ordered(j) && ControllerOk(op) && c in Claims(j)
    requires Issuer(op) != Some(c.controller)
    requires op.Reclaim? ==> c.Invocation() !in op.removed
    ensures c in Claims(Apply(j, op)) && FindClaim(Apply(j, op), c.Invocation()) == Some(c)
  {
    if c in j.queue {
      OthersKeepWaiting(j, op, c);
    } else {
      OthersKeepOwner(j, op, c);
    }
    ApplyKeepsOrdered(j, op);
    ClaimIsFound(Apply(j, op), c);
  }
}
