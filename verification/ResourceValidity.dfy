/**
 Operations on any journal that validates, whatever wrote it: a queue out of ticket order, an owner
 behind a waiting claim, or a running owner without a child included
 (aflow/execution_resources.py:411-468, 481-761).
 */
module ResourceValidity {
  import opened Prelude
  import opened ResourceJournal
  import opened ResourceOrder

  predicate Apart(c: Claim, d: Claim) { c.ticket != d.ticket && c.Invocation() != d.Invocation() }

  predicate ApartFromAll(c: Claim, claims: seq<Claim>) { forall d | d in claims :: Apart(c, d) }

  // ---- distinct claims ----

  lemma DistinctHead(c: Claim, rest: seq<Claim>)
    ensures Distinct([c] + rest) <==> Distinct(rest) && ApartFromAll(c, rest)
  {
    var all := [c] + rest;
    if Distinct(all) {
      forall a, b | 0 <= a < b < |rest| ensures Apart(rest[a], rest[b]) {
        assert all[a + 1] == rest[a] && all[b + 1] == rest[b];
      }
      forall d | d in rest ensures Apart(c, d) {
        var b :| 0 <= b < |rest| && rest[b] == d;
        assert all[0] == c && all[b + 1] == d;
      }
    }
    if Distinct(rest) && ApartFromAll(c, rest) {
      forall a, b | 0 <= a < b < |all| ensures Apart(all[a], all[b]) {
        assert all[b] == rest[b - 1] && (a > 0 ==> all[a] == rest[a - 1]);
      }
    }
  }

  lemma DistinctPrefix(a: seq<Claim>, b: seq<Claim>)
    requires Distinct(a + b)
    ensures Distinct(a)
  {
    forall i, j | 0 <= i < j < |a| ensures Apart(a[i], a[j]) {
      assert (a + b)[i] == a[i] && (a + b)[j] == a[j];
    }
  }

  lemma DistinctAppend(claims: seq<Claim>, c: Claim)
    requires Distinct(claims) && ApartFromAll(c, claims)
    ensures Distinct(claims + [c])
  {
    var all := claims + [c];
    forall i, j | 0 <= i < j < |all| ensures Apart(all[i], all[j]) {
      assert all[i] == claims[i] && claims[i] in claims;
      if j < |claims| {
        assert all[j] == claims[j];
      } else {
        assert Apart(c, claims[i]);
      }
    }
  }

  /** Removing claims of some invocations from the front part keeps the whole distinct. */
  lemma {:induction false} DropKeepsDistinct(queue: seq<Claim>, removed: set<string>, tail: seq<Claim>)
    requires Distinct(queue + tail)
    ensures Distinct(Drop(queue, removed) + tail)
  {
    if queue != [] {
      var rest := queue[1..];
      assert queue + tail == [queue[0]] + (rest + tail);
      DistinctHead(queue[0], rest + tail);
      DropKeepsDistinct(rest, removed, tail);
      if queue[0].Invocation() !in removed {
        assert Drop(queue, removed) + tail == [queue[0]] + (Drop(rest, removed) + tail);
        DistinctHead(queue[0], Drop(rest, removed) + tail);
      }
    }
  }

  lemma {:induction false} DropShrinks(queue: seq<Claim>, removed: set<string>, c: Claim)
    requires c in queue && c.Invocation() in removed
    ensures |Drop(queue, removed)| < |queue|
  {
    if queue[0].Invocation() !in removed {
      DropShrinks(queue[1..], removed, c);
    }
  }

  lemma DistinctMembers(claims: seq<Claim>, c: Claim, d: Claim)
    requires Distinct(claims) && c in claims && d in claims && c != d
    ensures Apart(c, d)
  {
    var i :| 0 <= i < |claims| && claims[i] == c;
    var j :| 0 <= j < |claims| && claims[j] == d;
    assert i < j || j < i;
  }

  // ---- valid journals ----

  predicate Sized(j: Journal, k: Journal) {
    k.revision >= 0 && k.nextTicket >= j.nextTicket && |Claims(k)| <= MAX_OUTSTANDING_CLAIMS
  }

  predicate Listed(c: Claim, nextTicket: int) { WellFormedClaim(c) && c.ticket < nextTicket }

  /** A journal whose claims come from a valid one, in their places, is valid. */
  lemma ValidFrom(j: Journal, k: Journal)
    requires ValidJournal(j) && Sized(j, k) && Distinct(Claims(k))
    requires forall c | c in k.queue :: c.status == Queued && Listed(c, k.nextTicket)
    requires k.owner.Some? ==> k.owner.value.status != Queued && Listed(k.owner.value, k.nextTicket)
    ensures ValidJournal(k)
  {
    forall c | c in Claims(k) ensures Listed(c, k.nextTicket) {
      assert c in k.queue || k.owner == Some(c);
    }
  }

  lemma ValidParts(j: Journal)
    requires ValidJournal(j)
    ensures forall c | c in j.queue :: c.status == Queued && Listed(c, j.nextTicket)
    ensures j.owner.Some? ==> j.owner.value.status != Queued && Listed(j.owner.value, j.nextTicket)
    ensures Distinct(j.queue)
  {
    forall c | c in j.queue ensures c in Claims(j) {
    }
    if j.owner.Some? {
      assert j.owner.value in Claims(j);
    }
    DistinctPrefix(j.queue, if j.owner.Some? then [j.owner.value] else []);
  }

  lemma DropKeepsValid(j: Journal, removed: set<string>, k: Journal)
    requires ValidJournal(j) && k.revision >= 0 && k.nextTicket == j.nextTicket
    requires k.queue == Drop(j.queue, removed) && (k.owner == j.owner || k.owner.None?)
    ensures ValidJournal(k)
  {
    ValidParts(j);
    var tail := if j.owner.Some? then [j.owner.value] else [];
    DropKeepsDistinct(j.queue, removed, tail);
    if k.owner.None? {
      DistinctPrefix(k.queue, tail);
      assert Claims(k) == k.queue;
    }
    ValidFrom(j, k);
  }

  lemma EnqueueKeepsValid(j: Journal, spec: ClaimSpec, who: Identity)
    requires ValidJournal(j) && ControllerOk(Enqueue(spec, who))
    requires FindClaim(j, spec.invocation).None? && |Claims(j)| < MAX_OUTSTANDING_CLAIMS
    ensures ValidJournal(Apply(j, Enqueue(spec, who)))
  {
    ValidParts(j);
    var k, c := Apply(j, Enqueue(spec, who)), NewClaim(spec, j.nextTicket, who);
    assert k.queue == j.queue + [c] && k.owner == j.owner;
    forall d | d in Claims(j) ensures Apart(c, d) {
    }
    forall d | d in j.queue ensures Apart(c, d) {
      assert d in Claims(j);
    }
    DistinctAppend(j.queue, c);
    if j.owner.Some? {
      var o := j.owner.value;
      assert o in Claims(j);
      forall d | d in k.queue ensures Apart(o, d) {
        if d in j.queue {
          OwnerApart(j, d);
        }
      }
      DistinctAppend(k.queue, o);
    }
    ValidFrom(j, k);
  }

  lemma OwnerApart(j: Journal, d: Claim)
    requires ValidJournal(j) && j.owner.Some? && d in j.queue
    ensures Apart(j.owner.value, d)
  {
    assert d in Claims(j) && j.owner.value in Claims(j) && d.status != j.owner.value.status;
    DistinctMembers(Claims(j), j.owner.value, d);
  }

  lemma AcquireKeepsValid(j: Journal, invocation: string, who: Identity)
    requires ValidJournal(j)
    requires Decide(j, TryAcquire(invocation, who)).next.Some?
    ensures ValidJournal(Apply(j, TryAcquire(invocation, who)))
  {
    ValidParts(j);
    var c := FindClaim(j, invocation).value;
    var k := Apply(j, TryAcquire(invocation, who));
    assert c in j.queue && k.queue == Drop(j.queue, {invocation});
    assert j.queue + [] == j.queue && k.queue + [] == k.queue;
    DropKeepsDistinct(j.queue, {invocation}, []);
    DropShrinks(j.queue, {invocation}, c);
    forall d | d in k.queue ensures Apart(k.owner.value, d) {
      DistinctMembers(j.queue, c, d);
    }
    DistinctAppend(k.queue, k.owner.value);
    ValidFrom(j, k);
  }

  lemma OwnerChangeKeepsValid(j: Journal, k: Journal)
    requires ValidJournal(j) && k.revision >= 0 && k.nextTicket == j.nextTicket && k.queue == j.queue
    requires j.owner.Some?
    requires k.owner.Some? ==>
               && k.owner.value.status != Queued && k.owner.value.ticket == j.owner.value.ticket
               && k.owner.value.spec == j.owner.value.spec && k.owner.value.controller == j.owner.value.controller
    ensures ValidJournal(k)
  {
    ValidParts(j);
    if k.owner.Some? {
      forall d | d in k.queue ensures Apart(k.owner.value, d) {
        OwnerApart(j, d);
      }
      DistinctAppend(k.queue, k.owner.value);
    } else {
      assert Claims(k) == j.queue;
    }
    ValidFrom(j, k);
  }

  lemma CancelKeepsValid(j: Journal, invocation: string, who: Identity)
    requires ValidJournal(j) && Decide(j, Cancel(invocation, who)).next.Some?
    ensures ValidJournal(Apply(j, Cancel(invocation, who)))
  {
    var k := Apply(j, Cancel(invocation, who));
    if k.owner == j.owner {
      DropKeepsValid(j, {invocation}, k);
    } else {
      OwnerChangeKeepsValid(j, k);
    }
  }

  lemma ReclaimKeepsValid(j: Journal, revision: int, removed: set<string>, reason: Reason)
    requires ValidJournal(j) && Decide(j, Reclaim(revision, removed, reason)).next.Some?
    ensures ValidJournal(Apply(j, Reclaim(revision, removed, reason)))
  {
    DropKeepsValid(j, removed, Apply(j, Reclaim(revision, removed, reason)));
  }

  lemma OwnedKeepsValid(j: Journal, op: Op)
    requires ValidJournal(j) && IsOwnerOp(op) && Decide(j, op).next.Some?
    ensures ValidJournal(Apply(j, op))
  {
    OwnerChangeKeepsValid(j, Apply(j, op));
  }

  /** Every operation maps any journal that validates to one that validates. */
  lemma ApplyKeepsValid(j: Journal, op: Op)
    requires ValidJournal(j) && ControllerOk(op)
    ensures ValidJournal(Apply(j, op))
  {
    if Decide(j, op).next.Some? {
      match op
      case Enqueue(spec, who) => EnqueueKeepsValid(j, spec, who);
      case TryAcquire(i, who) => AcquireKeepsValid(j, i, who);
      case Cancel(i, who) => CancelKeepsValid(j, i, who);
      case Reclaim(revision, removed, reason) => ReclaimKeepsValid(j, revision, removed, reason);
      case _ => OwnedKeepsValid(j, op);
    }
  }

  /** Over any run from a journal that validates, every published journal validates. */
  lemma {:induction false} ValidRun(js: seq<Journal>, ops: seq<Op>, i: nat)
    requires |js| == |ops| + 1 && ValidJournal(js[0]) && i < |js|
    requires forall k | 0 <= k < |ops| :: ControllerOk(ops[k]) && js[k + 1] in {js[k], Apply(js[k], ops[k])}
    ensures ValidJournal(js[i])
  {
    if i > 0 {
      ValidRun(js, ops, i - 1);
      assert ControllerOk(ops[i - 1]) && js[i] in {js[i - 1], Apply(js[i - 1], ops[i - 1])};
      ApplyKeepsValid(js[i - 1], ops[i - 1]);
    }
  }

  /** A valid journal no run of operations from the empty one reaches: its queue is out of ticket order. */
  lemma ValidNeedNotBeOrdered() returns (j: Journal)
    ensures ValidJournal(j) && !Ordered(j)
  {
    var who := Identity(1, "birth", "boot");
    var c := NewClaim(ClaimSpec("", "", "a", "", "", ""), 2, who);
    var d := NewClaim(ClaimSpec("", "", "b", "", "", ""), 1, who);
    j := Journal(2, 3, None, [c, d]);
    assert c.Invocation()[0] != d.Invocation()[0];
    assert Claims(j) == [c, d];
    assert j.queue[0].ticket > j.queue[1].ticket;
  }
}
