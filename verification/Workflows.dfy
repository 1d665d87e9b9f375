/**
 Workflow inheritance: the memoised materialization of the loader (aflow/config.py:898-1067) and
 the lifecycle resolver the concierge keeps beside it (aflow/concierge.py:811-892).
 */
module Workflows {
  import opened Prelude

  const END: string := "END"

  /** A declared step with its transition targets; a workflow's steps are ordered and named apart. */
  datatype Step = Step(name: string, targets: seq<string>)

  /** A lifecycle list as the document holds it: Items are non-empty texts. */
  datatype RawList = Absent | Malformed | Items(items: seq<string>)
  datatype RawBase = NoBase | BadBase | Base(name: string)
  datatype Entry =
    | NotATable
    | Table(setup: RawList, teardown: RawList, base: RawBase, steps: Option<seq<Step>>, exclude: seq<string>)
  datatype Document = Document(setup: RawList, teardown: RawList, entries: map<string, Entry>)

  datatype Lifecycle = Lifecycle(setup: seq<string>, teardown: seq<string>)

  // ---- the loader: parsing ----

  function TrimLeft(s: string): string { if s != "" && IsSpace(s[0]) then TrimLeft(s[1..]) else s }

  function TrimRight(s: string): string {
    if s != "" && IsSpace(s[|s| - 1]) then TrimRight(s[..|s| - 1]) else s
  }

  function Trim(s: string): string { TrimRight(TrimLeft(s)) }

  function TrimAll(items: seq<string>): (t: seq<string>)
    ensures |t| == |items|
  {
    seq(|items|, i requires 0 <= i < |items| => Trim(items[i]))
  }

  datatype Config = Config(
    setup: Option<seq<string>>, teardown: Option<seq<string>>, base: Option<string>,
    declared: seq<Step>, excluded: seq<string>)

  /** None is a ConfigError; Some(None) an absent list. */
  function ParseList(l: RawList): Option<Option<seq<string>>> {
    match l
    case Absent => Some(None)
    case Malformed => None
    case Items(items) => if "" in TrimAll(items) then None else Some(Some(TrimAll(items)))
  }

  function ParseEntry(e: Entry): Option<Config> {
    if e.NotATable? || e.base.BadBase? || ParseList(e.setup).None? || ParseList(e.teardown).None? then None
    else if e.base.Base? then
      if Trim(e.base.name) == "" || e.steps.Some? then None
      else Some(Config(ParseList(e.setup).value, ParseList(e.teardown).value, Some(Trim(e.base.name)), [], e.exclude))
    else if e.steps.None? then None
    else Some(Config(ParseList(e.setup).value, ParseList(e.teardown).value, None, e.steps.value, e.exclude))
  }

  predicate Parses(d: Document) {
    && ParseList(d.setup).Some? && ParseList(d.teardown).Some?
    && forall n | n in d.entries :: ParseEntry(d.entries[n]).Some?
  }

  function OrElse<T>(a: Option<T>, b: T): T { if a.Some? then a.value else b }

  function ParseDefaults(d: Document): Lifecycle
    requires Parses(d)
  {
    Lifecycle(OrElse(ParseList(d.setup).value, []), OrElse(ParseList(d.teardown).value, []))
  }

  function ParseWorkflows(d: Document): map<string, Config>
    requires Parses(d)
  {
    map n | n in d.entries :: ParseEntry(d.entries[n]).value
  }

  // ---- the loader: exclusions ----

  datatype Error =
    | UnknownStep(name: string) | NoStepLeft | UnknownTarget
    | UnknownBase | BaseIsAlias | UnknownWorkflow | AliasCycle

  function StepNames(steps: seq<Step>): set<string> { set s | s in steps :: s.name }

  function WithoutSteps(steps: seq<Step>, excluded: set<string>): (kept: seq<Step>)
    ensures forall s :: s in kept <==> s in steps && s.name !in excluded
  {
    if steps == [] then []
    else if steps[0].name in excluded then WithoutSteps(steps[1..], excluded)
    else [steps[0]] + WithoutSteps(steps[1..], excluded)
  }

  function SetOf(items: seq<string>): set<string> { set i | i in items }

  /** _apply_excluded_steps: the executable steps in declared order; the first of them starts. */
  function ApplyExcludedSteps(declared: seq<Step>, excluded: seq<string>): Result<seq<Step>, Error> {
    if exists e | e in excluded :: e !in StepNames(declared) then
      Failure(UnknownStep(FirstUnknown(declared, excluded)))
    else
      var kept := WithoutSteps(declared, SetOf(excluded));
      if kept == [] then Failure(NoStepLeft) else Success(kept)
  }

  function FirstUnknown(declared: seq<Step>, excluded: seq<string>): (name: string)
    requires exists e | e in excluded :: e !in StepNames(declared)
    ensures name in excluded && name !in StepNames(declared)
  {
    if excluded[0] !in StepNames(declared) then excluded[0] else FirstUnknown(declared, excluded[1..])
  }

  /** _merge_excluded_steps: the base's exclusions, then the local ones not among them. */
  function MergeExcluded(base: seq<string>, local: seq<string>): (merged: seq<string>)
    ensures SetOf(merged) == SetOf(base) + SetOf(local)
    decreases |local|
  {
    if local == [] then base
    else if local[0] in base then MergeExcluded(base, local[1..])
    else MergeExcluded(base + [local[0]], local[1..])
  }

  predicate TargetsKnown(steps: seq<Step>) {
    forall s | s in steps :: forall t | t in s.targets :: t == END || t in StepNames(steps)
  }

  // ---- the loader: one workflow, without memo ----

  datatype Workflow = Workflow(declared: seq<Step>, steps: seq<Step>, excluded: seq<string>, lifecycle: Lifecycle)

  function Concrete(declared: seq<Step>, excluded: seq<string>, lifecycle: Lifecycle): Result<Workflow, Error> {
    match ApplyExcludedSteps(declared, excluded)
    case Failure(e) => Failure(e)
    case Success(steps) =>
      if TargetsKnown(steps) then Success(Workflow(declared, steps, excluded, lifecycle)) else Failure(UnknownTarget)
  }

  function ResolveBase(c: Config, defaults: Lifecycle): Result<Workflow, Error> {
    Concrete(c.declared, c.excluded, Lifecycle(OrElse(c.setup, defaults.setup), OrElse(c.teardown, defaults.teardown)))
  }

  /** What a workflow is, defined without the memo: its own table over at most one base. */
  function Resolved(raw: map<string, Config>, defaults: Lifecycle, name: string): Result<Workflow, Error> {
    if name !in raw then Failure(UnknownWorkflow)
    else
      var c := raw[name];
      if c.base.None? then ResolveBase(c, defaults)
      else if c.base.value !in raw then Failure(UnknownBase)
      else if raw[c.base.value].base.Some? then Failure(BaseIsAlias)
      else
        match ResolveBase(raw[c.base.value], defaults)
        case Failure(e) => Failure(e)
        case Success(b) =>
          Concrete(b.declared, MergeExcluded(b.excluded, c.excluded),
                   Lifecycle(OrElse(c.setup, b.lifecycle.setup), OrElse(c.teardown, b.lifecycle.teardown)))
  }

  // ---- what the loader makes of a table ----

  predicate Blank(s: string) { forall i | 0 <= i < |s| :: IsSpace(s[i]) }

  lemma {:induction false} TrimLeftExactly(s: string) returns (i: nat)
    ensures i <= |s| && TrimLeft(s) == s[i..] && Blank(s[..i]) && (i < |s| ==> !IsSpace(s[i]))
  {
    i := 0;
    if s != "" && IsSpace(s[0]) {
      var j := TrimLeftExactly(s[1..]);
      i := j + 1;
      assert s[1..][j..] == s[i..] && s[..i] == [s[0]] + s[1..][..j];
    }
  }

  lemma {:induction false} TrimRightExactly(s: string) returns (j: nat)
    ensures j <= |s| && TrimRight(s) == s[..j] && Blank(s[j..]) && (j > 0 ==> !IsSpace(s[j - 1]))
  {
    j := |s|;
    if s != "" && IsSpace(s[|s| - 1]) {
      var t := s[..|s| - 1];
      j := TrimRightExactly(t);
      assert t[..j] == s[..j] && s[j..] == t[j..] + [s[|s| - 1]];
    }
  }

  /** Trimming cuts blanks off both ends and stops at the first other character of each. */
  lemma TrimExactly(s: string) returns (i: nat, j: nat)
    ensures i <= j <= |s| && Trim(s) == s[i..j] && Blank(s[..i]) && Blank(s[j..])
    ensures i < j ==> !IsSpace(s[i]) && !IsSpace(s[j - 1])
    ensures Trim(s) == "" <==> Blank(s)
  {
    i := TrimLeftExactly(s);
    var left := s[i..];
    var n := TrimRightExactly(left);
    j := i + n;
    assert left[..n] == s[i..j] && left[n..] == s[j..];
    assert i < j ==> left[0] == s[i] && left[n - 1] == s[j - 1];
    assert n == 0 ==> s == s[..i] + s[j..];
  }

  /** A list is accepted exactly when it is absent or a list of items none of which is blank, and is then trimmed. */
  lemma ParsesListExactly(l: RawList)
    ensures ParseList(l).Some? <==> !l.Malformed? && (l.Items? ==> forall i | 0 <= i < |l.items| :: !Blank(l.items[i]))
    ensures ParseList(l).Some? && l.Items? ==>
              && ParseList(l).value.Some? && |ParseList(l).value.value| == |l.items|
              && forall i | 0 <= i < |l.items| :: ParseList(l).value.value[i] == Trim(l.items[i])
    ensures l.Absent? ==> ParseList(l) == Some(None)
  {
    if l.Items? {
      forall i | 0 <= i < |l.items| ensures TrimAll(l.items)[i] == "" <==> Blank(l.items[i]) {
        var _, _ := TrimExactly(l.items[i]);
      }
    }
  }

  lemma FirstKept(all: seq<Step>, s: Step, rest: seq<Step>, excluded: set<string>)
    requires all == [s] + rest
    ensures WithoutSteps(all, excluded)
         == (if s.name in excluded then [] else [s]) + WithoutSteps(rest, excluded)
  {
    assert all[0] == s && all[1..] == rest;
  }

  /** What remains keeps its order: each part of the steps is filtered on its own. */
  lemma {:induction false} WithoutStepsInOrder(a: seq<Step>, b: seq<Step>, all: seq<Step>, excluded: set<string>)
    requires all == a + b
    ensures WithoutSteps(all, excluded) == WithoutSteps(a, excluded) + WithoutSteps(b, excluded)
    decreases a
  {
    if a == [] {
      assert all == b;
    } else {
      var s, rest, more := a[0], a[1..], all[1..];
      WithoutStepsInOrder(rest, b, more, excluded);
      FirstKept(a, s, rest, excluded);
      FirstKept(all, s, more, excluded);
      Associates(if s.name in excluded then [] else [s], WithoutSteps(rest, excluded), WithoutSteps(b, excluded));
    }
  }

  lemma Associates(a: seq<Step>, b: seq<Step>, c: seq<Step>)
    ensures a + (b + c) == a + b + c
  {
  }

  /** The steps left can run: some are, and each leads to the end or to another one left. */
  predicate Runs(declared: seq<Step>, excluded: set<string>) {
    && (exists s | s in declared :: s.name !in excluded)
    && forall s | s in declared && s.name !in excluded ::
         forall t | t in s.targets :: t == "END" || Left(declared, excluded, t)
  }

  predicate Left(declared: seq<Step>, excluded: set<string>, name: string) {
    name !in excluded && exists s | s in declared :: s.name == name
  }

  lemma ConcreteExactly(declared: seq<Step>, excluded: seq<string>, lifecycle: Lifecycle)
    ensures var w := Concrete(declared, excluded, lifecycle);
            && (w.Success? <==>
                  (forall e | e in excluded :: exists s | s in declared :: s.name == e)
                  && Runs(declared, SetOf(excluded)))
            && (w.Success? ==>
                  w.value == Workflow(declared, WithoutSteps(declared, SetOf(excluded)), excluded, lifecycle))
  {
    var kept := WithoutSteps(declared, SetOf(excluded));
    assert kept != [] ==> kept[0] in declared && kept[0].name !in SetOf(excluded);
    forall t ensures t in StepNames(kept) <==> Left(declared, SetOf(excluded), t) {
      if Left(declared, SetOf(excluded), t) {
        var s :| s in declared && s.name == t;
        assert s in kept;
      }
    }
  }

  /**
   A workflow with steps of its own is accepted exactly when it excludes known steps and what is left
   can run; it takes each lifecycle list from its own table and else from the document.
   */
  lemma RootResolvesExactly(raw: map<string, Config>, defaults: Lifecycle, name: string)
    requires name in raw && raw[name].base.None?
    ensures var c, w := raw[name], Resolved(raw, defaults, name);
            && (w.Success? <==>
                  (forall e | e in c.excluded :: exists s | s in c.declared :: s.name == e)
                  && Runs(c.declared, SetOf(c.excluded)))
            && (w.Success? ==>
                  && w.value.declared == c.declared && w.value.excluded == c.excluded
                  && w.value.steps == WithoutSteps(c.declared, SetOf(c.excluded))
                  && w.value.lifecycle.setup == (if c.setup == None then defaults.setup else c.setup.value)
                  && w.value.lifecycle.teardown == (if c.teardown == None then defaults.teardown else c.teardown.value))
  {
    var c := raw[name];
    ConcreteExactly(c.declared, c.excluded,
                    Lifecycle(OrElse(c.setup, defaults.setup), OrElse(c.teardown, defaults.teardown)));
  }

  /**
   An alias is accepted exactly when its base is an accepted workflow with steps of its own, both
   exclude steps of the base, and what both leave can run; it takes each lifecycle list from its own
   table and else as its base has it.
   */
  lemma AliasResolvesExactly(raw: map<string, Config>, defaults: Lifecycle, name: string)
    requires name in raw && raw[name].base.Some?
    ensures var c, w := raw[name], Resolved(raw, defaults, name);
            && (c.base.value !in raw ==> w == Failure(UnknownBase))
            && (c.base.value in raw && raw[c.base.value].base.Some? ==> w == Failure(BaseIsAlias))
            && (c.base.value in raw && raw[c.base.value].base.None? ==>
                  var b := Resolved(raw, defaults, c.base.value);
                  && (b.Failure? ==> w == b)
                  && (b.Success? ==>
                        && (w.Success? <==>
                              (forall e | e in c.excluded :: exists s | s in b.value.declared :: s.name == e)
                              && Runs(b.value.declared, SetOf(b.value.excluded) + SetOf(c.excluded)))
                        && (w.Success? ==>
                              && w.value.lifecycle.setup
                                 == (if c.setup == None then b.value.lifecycle.setup else c.setup.value)
                              && w.value.lifecycle.teardown
                                 == (if c.teardown == None then b.value.lifecycle.teardown else c.teardown.value))))
  {
    var c := raw[name];
    if c.base.value in raw && raw[c.base.value].base.None? {
      RootResolvesExactly(raw, defaults, c.base.value);
      var b := Resolved(raw, defaults, c.base.value);
      if b.Success? {
        var merged := MergeExcluded(b.value.excluded, c.excluded);
        assert forall e :: e in merged <==> e in SetOf(merged);
        assert forall e :: e in SetOf(merged) <==> e in b.value.excluded || e in c.excluded;
        ConcreteExactly(b.value.declared, merged,
                        Lifecycle(OrElse(c.setup, b.value.lifecycle.setup),
                                  OrElse(c.teardown, b.value.lifecycle.teardown)));
      }
    }
  }

  predicate UpTo(order: seq<string>, i: nat, names: set<string>) {
    i <= |order| && forall j | 0 <= j < i :: order[j] in names
  }

  lemma UpToNext(order: seq<string>, i: nat, before: set<string>, after: set<string>)
    requires UpTo(order, i, before) && before <= after && i < |order| && order[i] in after
    ensures UpTo(order, i + 1, after)
  {
  }

  class Materializer {
    const raw: map<string, Config>
    const defaults: Lifecycle
    var resolved: map<string, Workflow>
    var resolving: set<string>

    constructor (raw: map<string, Config>, defaults: Lifecycle)
      ensures this.raw == raw && this.defaults == defaults && resolved == map[] && resolving == {}
    {
      this.raw, this.defaults, resolved, resolving := raw, defaults, map[], {};
    }

    /** Every memo entry is what the workflow is. */
    ghost predicate MemoOk()
      reads this
    {
      forall n {:trigger resolved[n]} | n in resolved :: Resolved(raw, defaults, n) == Success(resolved[n])
    }

    ghost predicate FailsWith(name: string, e: Error) { Resolved(raw, defaults, name) == Failure(e) }

    /** The memoised resolution computes what a workflow is; its alias-cycle error never occurs. */
    method Resolve(name: string) returns (r: Result<Workflow, Error>)
      requires MemoOk()
      requires forall n | n in resolving :: n in raw && raw[n].base.Some?
      requires resolving == {} || (name in raw && raw[name].base.None?)
      modifies this
      ensures MemoOk()
      ensures r == Resolved(raw, defaults, name)
      ensures r.Success? ==> resolving == old(resolving)
      ensures r.Success? ==> name in resolved
      ensures r.Success? && old(resolving) == {} ==> resolving == {}
      ensures old(resolved).Keys <= resolved.Keys
      decreases resolving == {}
    {
      if name in resolved {
        return Success(resolved[name]);
      }
      if name in resolving {
        return Failure(AliasCycle);
      }
      if name !in raw {
        return Failure(UnknownWorkflow);
      }
      resolving := resolving + {name};
      var c := raw[name];
      if c.base.None? {
        r := ResolveBase(c, defaults);
      } else {
        if c.base.value !in raw {
          return Failure(UnknownBase);
        }
        if raw[c.base.value].base.Some? {
          return Failure(BaseIsAlias);
        }
        var b := Resolve(c.base.value);
        if b.Failure? {
          return b;
        }
        r := Concrete(b.value.declared, MergeExcluded(b.value.excluded, c.excluded),
                      Lifecycle(OrElse(c.setup, b.value.lifecycle.setup),
                                OrElse(c.teardown, b.value.lifecycle.teardown)));
      }
      if r.Success? {
        resolving := resolving - {name};
        resolved := resolved[name := r.value];
      }
    }

    /** _materialize_workflows: every workflow, or the error of the first that has one. */
    method Materialize(order: seq<string>) returns (error: Option<Error>, ghost at: nat)
      requires resolved == map[] && resolving == {}
      modifies this
      ensures MemoOk()
      ensures error.None? ==> UpTo(order, |order|, resolved.Keys)
      ensures error.Some? ==> UpTo(order, at, resolved.Keys) && at < |order| && FailsWith(order[at], error.value)
    {
      for i := 0 to |order|
        invariant resolving == {}
        invariant MemoOk()
        invariant UpTo(order, i, resolved.Keys)
      {
        ghost var before := resolved.Keys;
        var r := Resolve(order[i]);
        if r.Failure? {
          return Some(r.error), i;
        }
        UpToNext(order, i, before, resolved.Keys);
      }
      return None, 0;
    }
  }

  /** A materialized alias runs the steps of its base except both exclusions, in the base's order. */
  lemma AliasInheritsSteps(raw: map<string, Config>, defaults: Lifecycle, name: string)
    requires name in raw && raw[name].base.Some? && Resolved(raw, defaults, name).Success?
    ensures raw[name].base.value in raw && Resolved(raw, defaults, raw[name].base.value).Success?
    ensures var w := Resolved(raw, defaults, name).value;
            var b := Resolved(raw, defaults, raw[name].base.value).value;
            && w.steps == WithoutSteps(b.steps, SetOf(raw[name].excluded)) && w.steps != []
            && SetOf(w.excluded) == SetOf(b.excluded) + SetOf(raw[name].excluded)
            && TargetsKnown(w.steps)
  {
    var b := Resolved(raw, defaults, raw[name].base.value).value;
    ExcludeTwice(b.declared, SetOf(b.excluded), SetOf(raw[name].excluded));
  }

  lemma {:induction false} ExcludeTwice(steps: seq<Step>, a: set<string>, b: set<string>)
    ensures WithoutSteps(WithoutSteps(steps, a), b) == WithoutSteps(steps, a + b)
  {
    if steps != [] {
      ExcludeTwice(steps[1..], a, b);
      if steps[0].name !in a {
        assert WithoutSteps(steps, a)[1..] == WithoutSteps(steps[1..], a);
      }
    }
  }

  // ---- the concierge's resolver ----

  /** _lifecycle_array: a missing and a malformed list count the same. */
  function ListOf(l: RawList): Option<seq<string>> {
    match l case Items(items) => Some(items) case _ => None
  }

  function DocumentDefaults(d: Document): Lifecycle {
    Lifecycle(OrElse(ListOf(d.setup), []), OrElse(ListOf(d.teardown), []))
  }

  /** The workflow k extends-edges up from a name; edges leave only from tables that name a base. */
  function Ancestor(d: Document, name: string, k: nat): Option<string>
    decreases k
  {
    if k == 0 then Some(name)
    else if name in d.entries && d.entries[name].Table? && d.entries[name].base.Base? && d.entries[name].base.name != ""
    then Ancestor(d, d.entries[name].base.name, k - 1)
    else None
  }

  predicate RootTable(d: Document, name: string) {
    name in d.entries && d.entries[name].Table? && d.entries[name].base.NoBase?
  }

  /** A missing workflow, an entry that is no table, or an extends that names nothing. */
  predicate Broken(d: Document, name: string) {
    name !in d.entries || d.entries[name].NotATable?
    || d.entries[name].base.BadBase? || d.entries[name].base == Base("")
  }

  predicate ReachesRoot(d: Document, name: string, k: nat) {
    Ancestor(d, name, k).Some? && RootTable(d, Ancestor(d, name, k).value)
  }

  /** Setup and teardown as the nearest table of the chain sets them, the document defaults last. */
  function Inherited(d: Document, name: string, k: nat): Lifecycle
    requires ReachesRoot(d, name, k)
    decreases k
  {
    var e := d.entries[name];
    var above := if k == 0 then DocumentDefaults(d) else Inherited(d, e.base.name, k - 1);
    Lifecycle(OrElse(ListOf(e.setup), above.setup), OrElse(ListOf(e.teardown), above.teardown))
  }

  /** The setup lists from a name to its root, nearest first, then the document's. */
  function SetupLists(d: Document, name: string, k: nat): (lists: seq<RawList>)
    requires ReachesRoot(d, name, k)
    ensures |lists| == k + 2
    decreases k
  {
    [d.entries[name].setup] + if k == 0 then [d.setup] else SetupLists(d, d.entries[name].base.name, k - 1)
  }

  function TeardownLists(d: Document, name: string, k: nat): (lists: seq<RawList>)
    requires ReachesRoot(d, name, k)
    ensures |lists| == k + 2
    decreases k
  {
    [d.entries[name].teardown] + if k == 0 then [d.teardown] else TeardownLists(d, d.entries[name].base.name, k - 1)
  }

  /** The items of the first list that is one, or none. */
  ghost predicate FirstItems(lists: seq<RawList>, items: seq<string>) {
    if forall i | 0 <= i < |lists| :: !lists[i].Items? then items == []
    else exists i | 0 <= i < |lists| :: lists[i] == Items(items) && forall j | 0 <= j < i :: !lists[j].Items?
  }

  /** The inherited lifecycle is made of the nearest setup list and the nearest teardown list. */
  lemma {:induction false} InheritedExactly(d: Document, name: string, k: nat)
    requires ReachesRoot(d, name, k)
    ensures FirstItems(SetupLists(d, name, k), Inherited(d, name, k).setup)
    ensures FirstItems(TeardownLists(d, name, k), Inherited(d, name, k).teardown)
    decreases k
  {
    var e := d.entries[name];
    if k == 0 {
      FirstItemsNext(d.setup, [], []);
      FirstItemsNext(d.teardown, [], []);
      FirstItemsNext(e.setup, [d.setup], DocumentDefaults(d).setup);
      FirstItemsNext(e.teardown, [d.teardown], DocumentDefaults(d).teardown);
    } else {
      var base := e.base.name;
      InheritedExactly(d, base, k - 1);
      FirstItemsNext(e.setup, SetupLists(d, base, k - 1), Inherited(d, base, k - 1).setup);
      FirstItemsNext(e.teardown, TeardownLists(d, base, k - 1), Inherited(d, base, k - 1).teardown);
    }
  }

  lemma FirstItemsNext(first: RawList, rest: seq<RawList>, items: seq<string>)
    requires FirstItems(rest, items)
    ensures FirstItems([first] + rest, OrElse(ListOf(first), items))
  {
    var lists := [first] + rest;
    assert forall i | 0 < i < |lists| :: lists[i] == rest[i - 1];
    if first.Items? {
      assert lists[0] == Items(first.items);
    } else if exists i | 0 <= i < |rest| :: rest[i].Items? {
      var i :| 0 <= i < |rest| && rest[i] == Items(items) && forall j | 0 <= j < i :: !rest[j].Items?;
      assert lists[i + 1] == Items(items);
    }
  }

  /** The chain runs into something broken or meets a workflow again. */
  ghost predicate NeverReachesRoot(d: Document, name: string) {
    || (exists k: nat :: Ancestor(d, name, k).Some? && Broken(d, Ancestor(d, name, k).value))
    || (exists i: nat, j: nat :: i < j && Ancestor(d, name, i).Some? && Ancestor(d, name, j) == Ancestor(d, name, i))
  }

  lemma {:induction false} AncestorAdds(d: Document, name: string, a: nat, b: nat)
    requires Ancestor(d, name, a).Some?
    ensures Ancestor(d, name, a + b) == Ancestor(d, Ancestor(d, name, a).value, b)
    decreases a
  {
    if a > 0 {
      AncestorAdds(d, d.entries[name].base.name, a - 1, b);
    }
  }

  lemma NothingAboveRoot(d: Document, name: string, j: nat, k: nat)
    requires ReachesRoot(d, name, k) && Ancestor(d, name, j).Some?
    ensures j <= k && !Broken(d, Ancestor(d, name, j).value)
  {
    if j < k {
      AncestorAdds(d, name, j, k - j);
    } else if j > k {
      AncestorAdds(d, name, k, j - k);
    }
  }

  lemma NoRepeatBelowRoot(d: Document, name: string, i: nat, j: nat, k: nat)
    requires ReachesRoot(d, name, k) && i < j && Ancestor(d, name, i).Some?
    ensures Ancestor(d, name, j) != Ancestor(d, name, i)
  {
    NothingAboveRoot(d, name, i, k);
    if Ancestor(d, name, j) == Ancestor(d, name, i) {
      AncestorAdds(d, name, i, k - i);
      AncestorAdds(d, name, j, k - i);
      NothingAboveRoot(d, name, j + (k - i), k);
    }
  }

  /** A chain that reaches a root reaches nothing broken and no workflow twice. */
  lemma RootExcludesFailure(d: Document, name: string, k: nat)
    requires ReachesRoot(d, name, k)
    ensures !NeverReachesRoot(d, name)
  {
    forall j: nat | Ancestor(d, name, j).Some? ensures !Broken(d, Ancestor(d, name, j).value) {
      NothingAboveRoot(d, name, j, k);
    }
    forall i: nat, j: nat | i < j && Ancestor(d, name, i).Some? ensures Ancestor(d, name, j) != Ancestor(d, name, i) {
      NoRepeatBelowRoot(d, name, i, j, k);
    }
  }

  lemma {:induction false} RootIsUnique(d: Document, name: string, j: nat, k: nat)
    requires ReachesRoot(d, name, j) && ReachesRoot(d, name, k)
    ensures j == k
    decreases j
  {
    if j > 0 && k > 0 {
      RootIsUnique(d, d.entries[name].base.name, j - 1, k - 1);
    }
  }

  lemma FailureMovesDown(d: Document, name: string)
    requires Ancestor(d, name, 1).Some? && NeverReachesRoot(d, Ancestor(d, name, 1).value)
    ensures NeverReachesRoot(d, name)
  {
    var base := Ancestor(d, name, 1).value;
    if k: nat :| Ancestor(d, base, k).Some? && Broken(d, Ancestor(d, base, k).value) {
      assert Ancestor(d, name, k + 1) == Ancestor(d, base, k);
    } else {
      var i: nat, j: nat :| i < j && Ancestor(d, base, i).Some? && Ancestor(d, base, j) == Ancestor(d, base, i);
      assert Ancestor(d, name, i + 1) == Ancestor(d, base, i) && Ancestor(d, name, j + 1) == Ancestor(d, base, j);
    }
  }

  class LifecycleResolver {
    const d: Document
    var resolved: map<string, Lifecycle>
    var resolving: set<string>

    constructor (d: Document)
      ensures this.d == d && resolved == map[] && resolving == {}
    {
      this.d, resolved, resolving := d, map[], {};
    }

    ghost predicate MemoOk()
      reads this
    {
      forall n | n in resolved :: exists k: nat :: ReachesRoot(d, n, k) && resolved[n] == Inherited(d, n, k)
    }

    /** The names being resolved are the chain that led here. */
    ghost predicate Chained(chain: seq<string>, name: string)
      reads this
    {
      && (forall n :: n in chain <==> n in resolving)
      && forall i | 0 <= i < |chain| :: Ancestor(d, chain[i], |chain| - i) == Some(name)
    }

    /**
     On every document this returns the inherited lifecycle if the chain reaches a root, and
     nothing exactly when the chain meets something broken or a cycle.
     */
    method Resolve(name: string, ghost chain: seq<string>) returns (r: Option<Lifecycle>)
      requires MemoOk() && Chained(chain, name) && resolving <= d.entries.Keys
      modifies this
      ensures MemoOk() && resolving == old(resolving)
      ensures r.Some? ==> exists k: nat :: ReachesRoot(d, name, k) && r.value == Inherited(d, name, k)
      ensures r.None? ==> NeverReachesRoot(d, name)
      decreases d.entries.Keys - resolving
    {
      if name in resolved {
        return Some(resolved[name]);
      }
      if name in resolving {
        ghost var i :| 0 <= i < |chain| && chain[i] == name;
        assert Ancestor(d, name, |chain| - i) == Ancestor(d, name, 0);
        return None;
      }
      if name !in d.entries || d.entries[name].NotATable? {
        assert Ancestor(d, name, 0) == Some(name);
        return None;
      }
      resolving := resolving + {name};
      var e := d.entries[name];
      var setup, teardown := ListOf(e.setup), ListOf(e.teardown);
      ghost var height := 0;
      if e.base.NoBase? {
        setup := Some(OrElse(setup, DocumentDefaults(d).setup));
        teardown := Some(OrElse(teardown, DocumentDefaults(d).teardown));
        assert ReachesRoot(d, name, 0);
      } else {
        if e.base.BadBase? || e.base.name == "" {
          resolving := resolving - {name};
          assert Ancestor(d, name, 0) == Some(name);
          return None;
        }
        assert Ancestor(d, name, 1) == Some(e.base.name) by { assert Ancestor(d, e.base.name, 0) == Some(e.base.name); }
        ghost var longer := chain + [name];
        forall i | 0 <= i < |longer| ensures Ancestor(d, longer[i], |longer| - i) == Some(e.base.name) {
          if i < |chain| {
            AncestorAdds(d, chain[i], |chain| - i, 1);
          }
        }
        var base := Resolve(e.base.name, longer);
        if base.None? {
          resolving := resolving - {name};
          FailureMovesDown(d, name);
          return None;
        }
        setup := Some(OrElse(setup, base.value.setup));
        teardown := Some(OrElse(teardown, base.value.teardown));
        ghost var k: nat :| ReachesRoot(d, e.base.name, k) && base.value == Inherited(d, e.base.name, k);
        assert ReachesRoot(d, name, k + 1);
        height := k + 1;
      }
      var lifecycle := Lifecycle(setup.value, teardown.value);
      assert lifecycle == Inherited(d, name, height);
      resolved := resolved[name := lifecycle];
      resolving := resolving - {name};
      r := Some(lifecycle);
    }
  }

  // ---- the two agree ----

  predicate NamesTrimmed(d: Document) {
    forall n | n in d.entries && d.entries[n].Table? && d.entries[n].base.Base? ::
      Trim(d.entries[n].base.name) == d.entries[n].base.name
  }

  function TrimLifecycle(l: Lifecycle): Lifecycle { Lifecycle(TrimAll(l.setup), TrimAll(l.teardown)) }

  /** The lifecycle the loader gives a workflow it accepts. */
  function Loaded(d: Document, name: string): Lifecycle
    requires Parses(d) && Resolved(ParseWorkflows(d), ParseDefaults(d), name).Success?
  {
    Resolved(ParseWorkflows(d), ParseDefaults(d), name).value.lifecycle
  }

  lemma ParsedListIsTrimmed(l: RawList)
    requires ParseList(l).Some?
    ensures ParseList(l).value == if ListOf(l).Some? then Some(TrimAll(ListOf(l).value)) else None
  {
  }

  /**
   For every document the loader accepts whose base names carry no outer blanks, the concierge
   finds every workflow, and the loader's lifecycle is the concierge's with each item trimmed.
   */
  lemma ResolversAgree(d: Document, name: string)
    requires Parses(d) && NamesTrimmed(d) && name in d.entries
    requires Resolved(ParseWorkflows(d), ParseDefaults(d), name).Success?
    ensures exists k: nat :: ReachesRoot(d, name, k)
    ensures forall k: nat | ReachesRoot(d, name, k) ::
              Loaded(d, name) == TrimLifecycle(Inherited(d, name, k))
  {
    var raw, defaults := ParseWorkflows(d), ParseDefaults(d);
    var e, c := d.entries[name], raw[name];
    ParsedListIsTrimmed(e.setup);
    ParsedListIsTrimmed(e.teardown);
    ParsedListIsTrimmed(d.setup);
    ParsedListIsTrimmed(d.teardown);
    assert TrimAll([]) == [];
    var height := if c.base.None? then 0 else 1;
    if c.base.Some? {
      assert e.base.name != "" && e.base.name == c.base.value by { assert Trim("") == ""; }
      var b := d.entries[e.base.name];
      ParsedListIsTrimmed(b.setup);
      ParsedListIsTrimmed(b.teardown);
      assert Ancestor(d, e.base.name, 0) == Some(e.base.name);
      assert ReachesRoot(d, e.base.name, 0);
    }
    assert ReachesRoot(d, name, height);
    forall k: nat | ReachesRoot(d, name, k)
      ensures Resolved(raw, defaults, name).value.lifecycle == TrimLifecycle(Inherited(d, name, k))
    {
      RootIsUnique(d, name, k, height);
    }
  }

  /** The loader accepts the whole document. */
  ghost predicate Accepted(d: Document) {
    && Parses(d) && NamesTrimmed(d)
    && forall n | n in d.entries :: Resolved(ParseWorkflows(d), ParseDefaults(d), n).Success?
  }

  ghost predicate Agree(d: Document, name: string)
    requires Accepted(d) && name in d.entries
  {
    exists k: nat :: ReachesRoot(d, name, k) && Inherited(d, name, k) == Loaded(d, name)
  }

  predicate Trimmed(items: seq<string>) { TrimAll(items) == items }

  predicate ListTrimmed(l: RawList) { l.Items? ==> Trimmed(l.items) }

  predicate IsRoot(d: Document, n: string) { n in d.entries && RootTable(d, n) }

  /** Every list in the document that some workflow uses is trimmed; a default is used by a root without its own. */
  predicate ItemsTrimmed(d: Document) {
    && (forall n | n in d.entries && d.entries[n].Table? ::
          ListTrimmed(d.entries[n].setup) && ListTrimmed(d.entries[n].teardown))
    && ((exists n | n in d.entries :: IsRoot(d, n) && d.entries[n].setup.Absent?) ==> ListTrimmed(d.setup))
    && ((exists n | n in d.entries :: IsRoot(d, n) && d.entries[n].teardown.Absent?) ==> ListTrimmed(d.teardown))
  }

  /** An accepted workflow is a root or one edge below one. */
  lemma AcceptedHeight(d: Document, name: string) returns (k: nat)
    requires Accepted(d) && name in d.entries
    ensures d.entries[name].Table? && k <= 1 && ReachesRoot(d, name, k)
    ensures k == 0 <==> RootTable(d, name)
    ensures k == 1 ==> d.entries[name].base.Base? && IsRoot(d, d.entries[name].base.name)
    ensures !d.entries[name].setup.Malformed? && !d.entries[name].teardown.Malformed?
  {
    ResolversAgree(d, name);
    assert ParseEntry(d.entries[name]).Some?;
    if RootTable(d, name) {
      assert Ancestor(d, name, 0) == Some(name);
      return 0;
    }
    var base := d.entries[name].base.name;
    assert Ancestor(d, base, 0) == Some(base);
    assert ParseEntry(d.entries[base]).Some?;
    k := 1;
  }

  lemma AgreeWhenTrimmed(d: Document, name: string, k: nat)
    requires Accepted(d) && name in d.entries && ReachesRoot(d, name, k)
    ensures Agree(d, name) <==> Trimmed(Inherited(d, name, k).setup) && Trimmed(Inherited(d, name, k).teardown)
  {
    ResolversAgree(d, name);
    forall j: nat | ReachesRoot(d, name, j) ensures j == k {
      RootIsUnique(d, name, j, k);
    }
  }

  lemma ListInEffect(l: RawList, above: seq<string>)
    requires ListTrimmed(l) && (!l.Items? ==> Trimmed(above))
    ensures Trimmed(OrElse(ListOf(l), above))
  {
  }

  lemma RootListsTrimmed(d: Document, name: string)
    requires Accepted(d) && ItemsTrimmed(d) && IsRoot(d, name)
    ensures ReachesRoot(d, name, 0)
    ensures Trimmed(Inherited(d, name, 0).setup) && Trimmed(Inherited(d, name, 0).teardown)
  {
    var k := AcceptedHeight(d, name);
    var e := d.entries[name];
    assert Trimmed([]);
    if e.setup.Absent? {
      assert ListTrimmed(d.setup);
      ListInEffect(d.setup, []);
    }
    if e.teardown.Absent? {
      assert ListTrimmed(d.teardown);
      ListInEffect(d.teardown, []);
    }
    ListInEffect(e.setup, DocumentDefaults(d).setup);
    ListInEffect(e.teardown, DocumentDefaults(d).teardown);
  }

  /** In an accepted document the lists in effect are the document's own. */
  lemma EffectiveListsTrimmed(d: Document, name: string, k: nat)
    requires Accepted(d) && ItemsTrimmed(d) && name in d.entries
    requires k <= 1 && ReachesRoot(d, name, k) && (k == 0 <==> RootTable(d, name))
    ensures Trimmed(Inherited(d, name, k).setup) && Trimmed(Inherited(d, name, k).teardown)
  {
    if k == 0 {
      RootListsTrimmed(d, name);
    } else {
      var height := AcceptedHeight(d, name);
      var e := d.entries[name];
      RootListsTrimmed(d, e.base.name);
      ListInEffect(e.setup, Inherited(d, e.base.name, 0).setup);
      ListInEffect(e.teardown, Inherited(d, e.base.name, 0).teardown);
    }
  }

  /** Own lists are in effect, and so are the defaults where a root has none of its own. */
  lemma OwnListsTrimmed(d: Document, name: string)
    requires Accepted(d) && name in d.entries && Agree(d, name)
    ensures d.entries[name].Table?
    ensures ListTrimmed(d.entries[name].setup) && ListTrimmed(d.entries[name].teardown)
    ensures RootTable(d, name) && d.entries[name].setup.Absent? ==> ListTrimmed(d.setup)
    ensures RootTable(d, name) && d.entries[name].teardown.Absent? ==> ListTrimmed(d.teardown)
  {
    var k := AcceptedHeight(d, name);
    AgreeWhenTrimmed(d, name, k);
  }

  /** For every accepted document: the two resolvers agree on all workflows exactly when its items are trimmed. */
  lemma ResolversAgreeExactly(d: Document)
    requires Accepted(d)
    ensures (forall n | n in d.entries :: Agree(d, n)) <==> ItemsTrimmed(d)
  {
    if ItemsTrimmed(d) {
      forall n | n in d.entries ensures Agree(d, n) {
        var k := AcceptedHeight(d, n);
        AgreeWhenTrimmed(d, n, k);
        EffectiveListsTrimmed(d, n, k);
      }
    }
    if forall n | n in d.entries :: Agree(d, n) {
      forall n | n in d.entries
        ensures d.entries[n].Table? ==> ListTrimmed(d.entries[n].setup) && ListTrimmed(d.entries[n].teardown)
        ensures IsRoot(d, n) && d.entries[n].setup.Absent? ==> ListTrimmed(d.setup)
        ensures IsRoot(d, n) && d.entries[n].teardown.Absent? ==> ListTrimmed(d.teardown)
      {
        OwnListsTrimmed(d, n);
      }
    }
  }

  /** An accepted document on which they disagree: an item with a leading blank. */
  lemma BlankItemDisagrees() returns (d: Document)
    ensures Accepted(d) && "main" in d.entries && !Agree(d, "main")
  {
    var step := Step("work", [END]);
    var e := Table(Items([" branch"]), Absent, NoBase, Some([step]), []);
    d := Document(Absent, Absent, map["main" := e]);
    assert " branch"[1..] == "branch" && Trim(" branch") == "branch";
    assert TrimAll([" branch"])[0] == "branch" && TrimAll([" branch"]) == ["branch"];
    assert ParseEntry(e).Some?;
    var raw := ParseWorkflows(d);
    assert raw["main"] == Config(Some(["branch"]), None, None, [step], []);
    assert WithoutSteps([step], SetOf([])) == [step] by { assert WithoutSteps([step][1..], SetOf([])) == []; }
    assert StepNames([step]) == {"work"} && TargetsKnown([step]);
    assert Resolved(raw, ParseDefaults(d), "main").Success?;
    assert Ancestor(d, "main", 0) == Some("main");
    AgreeWhenTrimmed(d, "main", 0);
  }

  /** Both memoised resolvers on one accepted document: the loader's answer is the concierge's, trimmed. */
  method ResolveBoth(d: Document, name: string) returns (loaded: Lifecycle, listed: Lifecycle)
    requires Accepted(d) && name in d.entries
    ensures loaded == Loaded(d, name) == TrimLifecycle(listed)
    ensures loaded == listed <==> Agree(d, name)
  {
    var loader := new Materializer(ParseWorkflows(d), ParseDefaults(d));
    var workflow := loader.Resolve(name);
    loaded := workflow.value.lifecycle;
    var concierge := new LifecycleResolver(d);
    var found := concierge.Resolve(name, []);
    ResolversAgree(d, name);
    ghost var k := AcceptedHeight(d, name);
    RootExcludesFailure(d, name, k);
    listed := found.value;
    forall j: nat | ReachesRoot(d, name, j) ensures j == k {
      RootIsUnique(d, name, j, k);
    }
  }
}
