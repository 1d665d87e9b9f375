/**
 The compare-and-swap register the configuration pair refines, and what a run of saves,
 loads and power losses over it guarantees.
 */
module PairRegister {
  import opened Prelude
  import opened Base64
  import opened PairRecord
  import opened PairStorage

  datatype Request = Load | Save(payloads: Payloads, expected: Option<Digest>) | Outage

  /**
   Declined: an error before this save wrote anything.  Restored: the error that claims the
   previous pair is back.  Unfinished: the error that claims nothing.  Crashed: the process died.
   */
  datatype Reply =
    | Loaded(value: Pair)
    | Acknowledged
    | Conflict(current: Digest)
    | Restored
    | Unfinished
    | Declined
    | Crashed
    | PoweredOff

  /** The guard of a save: without an expected revision every pair passes. */
  predicate Passes(value: Pair, expected: Option<Digest>) {
    expected.None? || Revision(value) == expected.value
  }

  /** No new value: the register may at most have been decided. */
  predicate Narrows(before: Register, after: Register) {
    after.Values() <= before.Values()
  }

  /** The save may still take effect, or not. */
  predicate MayStillLand(before: Register, payloads: Payloads, expected: Option<Digest>, after: Register) {
    exists v :: v in before.Values() && Passes(v, expected) && after.Values() <= {v, payloads.AsPair()}
  }

  lemma OpenSaveMayStillLand(
    before: Register, current: Pair, payloads: Payloads, expected: Option<Digest>, after: Register)
    requires current in before.Values() && Passes(current, expected)
    requires after in {Settled(current), Undecided(current, payloads), Settled(payloads.AsPair())}
    ensures MayStillLand(before, payloads, expected, after)
  {
    assert after.Values() <= {current, payloads.AsPair()};
  }

  /** One operation of the register, run alone under the pair lock. */
  predicate Step(before: Register, request: Request, reply: Reply, after: Register) {
    match (request, reply)
    case (Outage, PoweredOff) => after == before
    case (Load, Loaded(v)) => v in before.Values() && after == Settled(v)
    case (Load, Declined) => Narrows(before, after)
    case (Load, Crashed) => Narrows(before, after)
    case (Save(p, e), Acknowledged) =>
      (exists v :: v in before.Values() && Passes(v, e)) && after == Settled(p.AsPair())
    case (Save(p, e), Conflict(current)) =>
      after.Settled? && Narrows(before, after) && current == Revision(after.value) && e.Some? && e.value != current
    case (Save(p, e), Restored) => after.Settled? && Narrows(before, after) && Passes(after.value, e)
    case (Save(p, e), Declined) => Narrows(before, after)
    case (Save(p, e), Unfinished) => Narrows(before, after) || MayStillLand(before, p, e, after)
    case (Save(p, e), Crashed) => Narrows(before, after) || MayStillLand(before, p, e, after)
    case _ => false
  }

  /** However the writing half of a save ends, the save was one step. */
  lemma SaveIsAStep(
    before: Register, current: Pair, payloads: Payloads, expected: Option<Digest>, reply: Reply, after: Register)
    requires current in before.Values() && Passes(current, expected)
    requires reply in {Acknowledged, Restored, Unfinished, Crashed}
    requires reply == Acknowledged ==> after == Settled(payloads.AsPair())
    requires reply == Restored ==> after == Settled(current)
    requires after in {Settled(current), Undecided(current, payloads), Settled(payloads.AsPair())}
    ensures Step(before, Save(payloads, expected), reply, after)
  {
    OpenSaveMayStillLand(before, current, payloads, expected, after);
  }

  /** A history is a register value before every operation and after the last. */
  predicate Explains(registers: seq<Register>, requests: seq<Request>, replies: seq<Reply>) {
    && |requests| == |replies| && |registers| == |requests| + 1
    && forall i | 0 <= i < |requests| :: Step(registers[i], requests[i], replies[i], registers[i + 1])
  }

  lemma ExtendHistory(
    registers: seq<Register>, requests: seq<Request>, replies: seq<Reply>,
    request: Request, reply: Reply, after: Register)
    requires Explains(registers, requests, replies)
    requires Step(registers[|requests|], request, reply, after)
    ensures Explains(registers + [after], requests + [request], replies + [reply])
  {
  }

  /** The operations that may change a decided value. */
  predicate MayWrite(request: Request, reply: Reply) {
    request.Save? && reply in {Acknowledged, Unfinished, Crashed}
  }

  /** A save that cannot replace this value: it reported no write, or its expected revision is stale. */
  predicate Harmless(value: Pair, request: Request, reply: Reply) {
    !MayWrite(request, reply) || !Passes(value, request.expected)
  }

  /**
   A decided value stays until a save prepared on it was acknowledged or left open: saves with a
   stale expected revision change nothing, even when they crash.
   */
  lemma {:induction false} DecidedValueStays(
    registers: seq<Register>, requests: seq<Request>, replies: seq<Reply>, i: nat, j: nat)
    requires Explains(registers, requests, replies) && i <= j < |registers|
    requires registers[i].Settled?
    requires forall k | i <= k < j :: Harmless(registers[i].value, requests[k], replies[k])
    ensures registers[j].Values() == {registers[i].value}
    decreases j
  {
    if i < j {
      DecidedValueStays(registers, requests, replies, i, j - 1);
      assert Step(registers[j - 1], requests[j - 1], replies[j - 1], registers[j]);
      assert Harmless(registers[i].value, requests[j - 1], replies[j - 1]);
      var v := if registers[j].Undecided? then registers[j].prior else registers[j].value;
      assert v in registers[j].Values();
    }
  }

  /**
   Acknowledgement is truthful: through crashes, power losses, failed saves and recoveries,
   every later load returns the acknowledged pair until another save that was prepared on it is
   acknowledged or left open.  A writer with a stale expected revision is never acknowledged and,
   wherever it dies, overwrites nothing.
   */
  lemma AcknowledgedSaveIsRead(
    registers: seq<Register>, requests: seq<Request>, replies: seq<Reply>, i: nat, j: nat)
    requires Explains(registers, requests, replies) && i < j < |requests|
    requires requests[i].Save? && replies[i] == Acknowledged
    requires forall k | i < k < j :: Harmless(requests[i].payloads.AsPair(), requests[k], replies[k])
    ensures replies[j].Loaded? ==> replies[j].value == requests[i].payloads.AsPair()
    ensures replies[j].Conflict? ==> replies[j].current == Revision(requests[i].payloads.AsPair())
    ensures requests[j].Save? && replies[j] == Acknowledged && requests[j].expected.Some?
            ==> requests[j].expected.value == Revision(requests[i].payloads.AsPair())
  {
    assert Step(registers[i], requests[i], replies[i], registers[i + 1]);
    DecidedValueStays(registers, requests, replies, i + 1, j);
    assert Step(registers[j], requests[j], replies[j], registers[j + 1]);
    if replies[j].Conflict? {
      assert registers[j + 1].value in registers[j + 1].Values();
    }
  }

  /** A save that reported restoration is never read: all later loads return one pair that preceded it. */
  lemma RestoredSaveIsNeverRead(
    registers: seq<Register>, requests: seq<Request>, replies: seq<Reply>, i: nat, j: nat)
    requires Explains(registers, requests, replies) && i < j < |requests|
    requires requests[i].Save? && replies[i] == Restored
    requires registers[i + 1].Settled? ==>
               forall k | i < k < j :: Harmless(registers[i + 1].value, requests[k], replies[k])
    ensures registers[i + 1].Settled? && registers[i + 1].value in registers[i].Values()
    ensures Passes(registers[i + 1].value, requests[i].expected)
    ensures replies[j].Loaded? ==> replies[j].value == registers[i + 1].value
  {
    assert Step(registers[i], requests[i], replies[i], registers[i + 1]);
    assert registers[i + 1].value in registers[i + 1].Values();
    DecidedValueStays(registers, requests, replies, i + 1, j);
    assert Step(registers[j], requests[j], replies[j], registers[j + 1]);
  }

  /** The generations a run may ever show: the first values and the saves up to a point. */
  ghost predicate Written(
    registers: seq<Register>, requests: seq<Request>, replies: seq<Reply>, i: nat, v: Pair)
    requires Explains(registers, requests, replies) && i <= |requests|
  {
    v in registers[0].Values()
    || exists k | 0 <= k < i :: MayWrite(requests[k], replies[k]) && v == requests[k].payloads.AsPair()
  }

  /** No load returns a mixed pair: every value is whole, from the start or from one earlier save. */
  lemma {:induction false} ValuesAreWhole(
    registers: seq<Register>, requests: seq<Request>, replies: seq<Reply>, i: nat, v: Pair)
    requires Explains(registers, requests, replies) && i <= |requests|
    requires v in registers[i].Values()
    ensures Written(registers, requests, replies, i, v)
    decreases i
  {
    if i > 0 {
      assert Step(registers[i - 1], requests[i - 1], replies[i - 1], registers[i]);
      if v in registers[i - 1].Values() {
        ValuesAreWhole(registers, requests, replies, i - 1, v);
      } else {
        assert MayWrite(requests[i - 1], replies[i - 1]) && v == requests[i - 1].payloads.AsPair();
      }
    }
  }

  lemma LoadsAreWhole(registers: seq<Register>, requests: seq<Request>, replies: seq<Reply>, i: nat)
    requires Explains(registers, requests, replies) && i < |requests| && replies[i].Loaded?
    ensures Written(registers, requests, replies, i, replies[i].value)
  {
    assert Step(registers[i], requests[i], replies[i], registers[i + 1]);
    ValuesAreWhole(registers, requests, replies, i, replies[i].value);
  }
}
