/**
 Budget boundaries: which plan a finished turn started from and which step comes next, recomputed
 from receipts alone (aflow/budget_resume.py:191-279, 539-732, 954-1100).

 Plan paths are normalized identities inside the repository.  The selector evidence, snapshot,
 branch and on-disk checks of the classifier are assumed to pass, and so is the narrow
 historical recovery shape never to occur.
 */
module BudgetResume {
  import opened Prelude
  import opened Conditions

  type Path = string

  datatype Transition = Transition(to: string, condition: Option<string>, preserve: bool)
  datatype StepConfig = StepConfig(role: string, go: seq<Transition>)
  type Steps = map<string, StepConfig>

  const END: string := "END"

  datatype Receipt = Receipt(
    turn: nat, step: string, role: string, active: Path, created: Path, flags: Flags,
    chosen: Option<string>, condition: Option<string>, retry: bool)

  datatype Run = Run(
    id: string, workflow: string, workspace: string, original: Path, receipts: seq<Receipt>,
    terminalActive: Path, terminalCreated: Path, limit: nat, atLimit: bool, resumedFrom: Option<string>)

  /** _select_transition: the first transition without a condition, or whose condition holds. */
  function Select(go: seq<Transition>, f: Flags): Result<Transition, Error> {
    if go == [] then Failure(BadCondition)
    else if go[0].condition.None? then Success(go[0])
    else
      match Evaluate(go[0].condition.value, f)
      case Failure(e) => Failure(e)
      case Success(true) => Success(go[0])
      case Success(false) => Select(go[1..], f)
  }

  /** A condition that does not evaluate counts as false. */
  predicate Holds(condition: string, f: Flags) {
    Evaluate(condition, f) == Success(true)
  }

  /** The plan the controller works on after a turn. */
  function PostTransition(original: Path, active: Path, created: Path, exists_: bool, t: Transition): Path {
    if exists_ then created else if t.preserve then active else original
  }

  function WithCondition(go: seq<Transition>, condition: string): seq<Transition> {
    if go == [] then []
    else if go[0].condition == Some(condition) then [go[0]] + WithCondition(go[1..], condition)
    else WithCondition(go[1..], condition)
  }

  /** The first transition with a recorded target and condition. */
  function FirstEdge(go: seq<Transition>, to: string, condition: Option<string>): Option<Transition> {
    if go == [] then None
    else if go[0].to == to && go[0].condition == condition then Some(go[0])
    else FirstEdge(go[1..], to, condition)
  }

  function Exhausted(f: Flags): Flags { f.(maxTurnsReached := true) }
  function Restored(f: Flags): Flags { f.(maxTurnsReached := false) }

  /** _validated_budget_end_edge. */
  function ValidatedBudgetEnd(step: string, saved: Option<string>, f: Flags, steps: Steps): Option<Transition> {
    if step == "" || saved.None? || saved.value == "" || step !in steps then None
    else
      var go := steps[step].go;
      var matching := WithCondition(go, saved.value);
      if |matching| != 1 || matching[0].to != END then None
      else if !Holds(saved.value, Exhausted(f)) || Holds(saved.value, Restored(f)) then None
      else
        match Select(go, Exhausted(f))
        case Failure(_) => None
        case Success(t) => if t.to != END || t.condition != saved then None else Some(t)
  }

  /** _derived_next_start_identity. */
  function DerivedNextStart(r: Receipt, steps: Steps, original: Path): Option<Path> {
    if r.step == "" then None
    else if r.chosen.None? then (if r.retry then Some(r.active) else None)
    else if r.chosen.value == END || r.step !in steps then None
    else
      match FirstEdge(steps[r.step].go, r.chosen.value, r.condition)
      case None => None
      case Some(t) => Some(PostTransition(original, r.active, r.created, r.flags.newPlanExists, t))
  }

  /** The plan a run must show as its last active one, recomputed from its last receipt. */
  function ExpectedTerminal(r: Receipt, steps: Steps, original: Path): Option<Path> {
    if r.chosen == Some(END) then
      match ValidatedBudgetEnd(r.step, r.condition, r.flags, steps)
      case None => None
      case Some(t) => Some(PostTransition(original, r.active, r.created, r.flags.newPlanExists, t))
    else DerivedNextStart(r, steps, original)
  }

  /** The overlay a turn made, otherwise the plan it started from. */
  function Continuation(r: Receipt): Path {
    if r.flags.newPlanExists then r.created else r.active
  }

  /** _inherited_start_identity, over the recorded runs. */
  function InheritedStart(runs: map<string, Run>, run: Run, steps: Steps): Option<Path> {
    if run.resumedFrom.None? || run.resumedFrom.value == "" || run.resumedFrom.value == run.id
       || run.resumedFrom.value !in runs then None
    else
      var parent := runs[run.resumedFrom.value];
      if parent.workflow != run.workflow || parent.original != run.original || parent.workspace != run.workspace
         || parent.receipts == [] then None
      else
        var r := parent.receipts[|parent.receipts| - 1];
        if ExpectedTerminal(r, steps, run.original) != Some(parent.terminalActive) then None
        else Some(Continuation(r))
  }

  datatype Boundary = Boundary(turn: nat, nextStep: string, active: Path, overlay: Option<Path>)

  /** The edge and the next step of the last receipt. */
  function RoutedNext(r: Receipt, steps: Steps): Option<(Transition, string)>
    requires r.step in steps && r.chosen.Some?
  {
    var go := steps[r.step].go;
    if r.chosen.value == END then
      match ValidatedBudgetEnd(r.step, r.condition, r.flags, steps)
      case None => None
      case Some(t) =>
        (match Select(go, Restored(r.flags))
         case Failure(_) => None
         case Success(next) => if next.to == END then None else Some((t, next.to)))
    else
      match FirstEdge(go, r.chosen.value, r.condition)
      case None => None
      case Some(t) =>
        if r.condition.Some? && !Holds(r.condition.value, r.flags) then None else Some((t, r.chosen.value))
  }

  /** The recomputed starting plan of the last turn; None is a rejection. */
  predicate StartConfirmed(runs: map<string, Run>, run: Run, edge: Transition, steps: Steps)
    requires run.receipts != []
  {
    var n := |run.receipts|;
    var r := run.receipts[n - 1];
    if n == 1 then
      || r.active == run.original
      || (edge.preserve && !r.flags.newPlanExists)
      || InheritedStart(runs, run, steps) == Some(r.active)
    else DerivedNextStart(run.receipts[n - 2], steps, run.original) == Some(r.active)
  }

  /** classify_budget_boundary: its routing and plan-identity parts. */
  function Classify(runs: map<string, Run>, run: Run, steps: Steps): Option<Boundary> {
    if !run.atLimit || run.receipts == [] then None
    else
      var n := |run.receipts|;
      var r := run.receipts[n - 1];
      if r.turn != n || r.step == "" || r.chosen.None? || r.chosen.value == "" || r.step !in steps
         || r.role != steps[r.step].role || r.flags.maxTurnsReached != (n >= run.limit) then None
      else
        match RoutedNext(r, steps)
        case None => None
        case Some((edge, next)) =>
          if next !in steps then None
          else if r.created != run.terminalCreated then None
          else if run.terminalActive
                  != PostTransition(run.original, r.active, r.created, r.flags.newPlanExists, edge) then None
          else if !StartConfirmed(runs, run, edge, steps) then None
          else Some(Boundary(n, next, r.active, if r.flags.newPlanExists then Some(r.created) else None))
  }

  /** The plan a successor starts on (aflow/cli.py:5970-5977). */
  function SuccessorPlan(b: Boundary): Path {
    match b.overlay case Some(p) => p case None => b.active
  }

  // ---- routing ----

  /** A recorded target and condition identify the edge first-match routing took, preserve flag included. */
  lemma {:induction false} RecordedEdgeIsTaken(go: seq<Transition>, f: Flags)
    requires Select(go, f).Success?
    ensures var t := Select(go, f).value; FirstEdge(go, t.to, t.condition) == Some(t)
    ensures var t := Select(go, f).value; t in go && (t.condition.Some? ==> Holds(t.condition.value, f))
  {
    if go[0].condition.Some? && Evaluate(go[0].condition.value, f) == Success(false) {
      RecordedEdgeIsTaken(go[1..], f);
    }
  }

  /** Routing takes the edge at the least place whose condition holds or is missing, all before it being false. */
  lemma {:induction false} SelectIsFirstMatch(go: seq<Transition>, f: Flags, t: Transition)
    ensures Select(go, f) == Success(t) <==>
              exists i | 0 <= i < |go| ::
                && go[i] == t && (t.condition.Some? ==> Evaluate(t.condition.value, f) == Success(true))
                && forall j | 0 <= j < i ::
                     go[j].condition.Some? && Evaluate(go[j].condition.value, f) == Success(false)
  {
    if go != [] {
      SelectIsFirstMatch(go[1..], f, t);
      assert forall i | 0 < i < |go| :: go[i] == go[1..][i - 1];
      assert forall i | 0 <= i < |go| - 1 :: go[1..][i] == go[i + 1];
    }
  }

  /** The edge a receipt identifies is the first one with its target and its condition. */
  lemma {:induction false} FirstEdgeIsFirst(go: seq<Transition>, to: string, condition: Option<string>, t: Transition)
    ensures FirstEdge(go, to, condition) == Some(t) <==>
              exists i | 0 <= i < |go| ::
                && go[i] == t && t.to == to && t.condition == condition
                && forall j | 0 <= j < i :: go[j].to != to || go[j].condition != condition
  {
    if go != [] {
      FirstEdgeIsFirst(go[1..], to, condition, t);
      assert forall i | 0 < i < |go| :: go[i] == go[1..][i - 1];
      assert forall i | 0 <= i < |go| - 1 :: go[1..][i] == go[i + 1];
    }
  }

  lemma {:induction false} WithConditionKeeps(go: seq<Transition>, t: Transition, condition: string)
    ensures t in WithCondition(go, condition) <==> t in go && t.condition == Some(condition)
  {
    if go != [] {
      WithConditionKeeps(go[1..], t, condition);
    }
  }

  /** One place, and only one, carries this condition text. */
  ghost predicate Unique(go: seq<Transition>, condition: string) {
    exists i | 0 <= i < |go| ::
      go[i].condition == Some(condition) && forall j | 0 <= j < |go| && j != i :: go[j].condition != Some(condition)
  }

  lemma {:induction false} AbsentExactly(go: seq<Transition>, condition: string)
    ensures WithCondition(go, condition) == [] <==> forall i | 0 <= i < |go| :: go[i].condition != Some(condition)
  {
    if go != [] {
      AbsentExactly(go[1..], condition);
      assert forall i | 0 < i < |go| :: go[i] == go[1..][i - 1];
      assert forall i | 0 <= i < |go| - 1 :: go[1..][i] == go[i + 1];
    }
  }

  lemma {:induction false} UniqueExactly(go: seq<Transition>, condition: string)
    ensures |WithCondition(go, condition)| == 1 <==> Unique(go, condition)
  {
    if go != [] {
      AbsentExactly(go[1..], condition);
      UniqueExactly(go[1..], condition);
      assert forall i | 0 < i < |go| :: go[i] == go[1..][i - 1];
      assert forall i | 0 <= i < |go| - 1 :: go[1..][i] == go[i + 1];
    }
  }

  /**
   A recorded END is validated, as this edge, exactly when its condition text is the edge's alone,
   holds with the budget exhausted and not with the budget restored, and first-match routing under
   the exhausted budget takes the edge.
   */
  lemma ValidatedExactly(step: string, saved: Option<string>, f: Flags, steps: Steps, t: Transition)
    ensures ValidatedBudgetEnd(step, saved, f, steps) == Some(t) <==>
              && step != "" && step in steps && saved.Some? && saved.value != ""
              && t.to == "END" && t.condition == saved && Unique(steps[step].go, saved.value)
              && Evaluate(saved.value, f.(maxTurnsReached := true)) == Success(true)
              && Evaluate(saved.value, f.(maxTurnsReached := false)) != Success(true)
              && Select(steps[step].go, f.(maxTurnsReached := true)) == Success(t)
  {
    if step in steps && saved.Some? {
      var go := steps[step].go;
      UniqueExactly(go, saved.value);
      if Select(go, Exhausted(f)) == Success(t) {
        RecordedEdgeIsTaken(go, Exhausted(f));
        WithConditionKeeps(go, t, saved.value);
      }
    }
  }

  /** The next start follows from a receipt exactly so; a retry replays its plan and an END has no successor. */
  lemma DerivedExactly(r: Receipt, steps: Steps, original: Path, p: Path)
    ensures DerivedNextStart(r, steps, original) == Some(p) <==>
              && r.step != ""
              && match r.chosen
                 case None => r.retry && p == r.active
                 case Some(to) =>
                   && to != "END" && r.step in steps
                   && exists i | 0 <= i < |steps[r.step].go| ::
                        var t := steps[r.step].go[i];
                        && t.to == to && t.condition == r.condition
                        && (forall j | 0 <= j < i ::
                              steps[r.step].go[j].to != to || steps[r.step].go[j].condition != r.condition)
                        && p == if r.flags.newPlanExists then r.created else if t.preserve then r.active else original
  {
    if r.chosen.Some? && r.step in steps {
      var go := steps[r.step].go;
      var found := FirstEdge(go, r.chosen.value, r.condition);
      if found.Some? {
        FirstEdgeIsFirst(go, r.chosen.value, r.condition, found.value);
      }
      forall t | t in go
        ensures found == Some(t) <==>
                exists i | 0 <= i < |go| ::
                  && go[i] == t && t.to == r.chosen.value && t.condition == r.condition
                  && forall j | 0 <= j < i :: go[j].to != r.chosen.value || go[j].condition != r.condition
      {
        FirstEdgeIsFirst(go, r.chosen.value, r.condition, t);
      }
    }
  }

  /**
   A first turn inherits a plan exactly from another recorded run of the same workflow, workspace
   and original plan whose last active plan follows from its own last receipt.
   */
  lemma InheritedExactly(runs: map<string, Run>, run: Run, steps: Steps, p: Path)
    ensures InheritedStart(runs, run, steps) == Some(p) <==>
              && run.resumedFrom.Some? && run.resumedFrom.value != "" && run.resumedFrom.value != run.id
              && run.resumedFrom.value in runs
              && var parent := runs[run.resumedFrom.value];
                 && parent.workflow == run.workflow && parent.workspace == run.workspace
                 && parent.original == run.original && parent.receipts != []
                 && var r := parent.receipts[|parent.receipts| - 1];
                    && p == (if r.flags.newPlanExists then r.created else r.active)
                    && if r.chosen == Some("END") then
                         exists t :: ValidatedBudgetEnd(r.step, r.condition, r.flags, steps) == Some(t)
                           && parent.terminalActive
                              == if r.flags.newPlanExists then r.created
                                 else if t.preserve then r.active else run.original
                       else DerivedNextStart(r, steps, run.original) == Some(parent.terminalActive)
  {
  }

  /**
   Whatever the records say, an accepted run stopped at its limit, and its last receipt is the turn
   of that number, by the role of its step, with the limit flag of that number; the recorded
   last plans follow from it by an edge of the step, and its own start from the turn before.
   */
  lemma AcceptedIsConsistent(runs: map<string, Run>, run: Run, steps: Steps)
    requires Classify(runs, run, steps).Some?
    ensures run.atLimit && run.receipts != []
    ensures var n := |run.receipts|;
            var r, b := run.receipts[n - 1], Classify(runs, run, steps).value;
            && r.turn == n == b.turn && r.step != "" && r.step in steps && r.role == steps[r.step].role
            && (r.flags.maxTurnsReached <==> n >= run.limit)
            && b.nextStep in steps && b.active == r.active && r.chosen.Some? && run.terminalCreated == r.created
            && (b.overlay == if r.flags.newPlanExists then Some(r.created) else None)
            && (n > 1 ==> DerivedNextStart(run.receipts[n - 2], steps, run.original) == Some(r.active))
            && exists edge | edge in steps[r.step].go ::
                 && edge.to == r.chosen.value && edge.condition == r.condition
                 && (r.chosen != Some("END") ==> b.nextStep == r.chosen.value)
                 && (r.condition.Some? ==> Evaluate(r.condition.value, r.flags.(maxTurnsReached :=
                       r.flags.maxTurnsReached || r.chosen == Some("END"))) == Success(true))
                 && (run.terminalActive
                     == if r.flags.newPlanExists then r.created else if edge.preserve then r.active else run.original)
                 && (n == 1 && r.active != run.original && !(edge.preserve && !r.flags.newPlanExists) ==>
                       InheritedStart(runs, run, steps) == Some(r.active))
  {
    var n := |run.receipts|;
    var r := run.receipts[n - 1];
    var edge := RoutedNext(r, steps).value.0;
    if r.chosen.value == END {
      ValidatedExactly(r.step, r.condition, r.flags, steps, edge);
      RecordedEdgeIsTaken(steps[r.step].go, Exhausted(r.flags));
    } else {
      FirstEdgeIsFirst(steps[r.step].go, r.chosen.value, r.condition, edge);
    }
    assert edge in steps[r.step].go;
  }

  /**
   An accepted END was the first match under the exhausted budget and cannot be chosen once the
   budget is restored; the step handed to the successor is the restored first match.
   */
  lemma AcceptedEndIsBudgetDriven(runs: map<string, Run>, run: Run, steps: Steps)
    requires Classify(runs, run, steps).Some?
    requires run.receipts[|run.receipts| - 1].chosen == Some(END)
    ensures var r := run.receipts[|run.receipts| - 1];
            var go := steps[r.step].go;
            && Select(go, Exhausted(r.flags)).Success?
            && var t := Select(go, Exhausted(r.flags)).value;
               && t.to == END && t.condition == r.condition
               && (forall u | Select(go, Restored(r.flags)) == Success(u) ::
                     u.condition != t.condition && u.to == Classify(runs, run, steps).value.nextStep && u.to != END)
               && Select(go, Restored(r.flags)).Success?
  {
    var r := run.receipts[|run.receipts| - 1];
    RecordedEdgeIsTaken(steps[r.step].go, Restored(r.flags));
  }

  // ---- the controller ----

  datatype TurnInput = TurnInput(done: bool, newPlanExists: bool, created: Path)

  /** How a run of the controller ends. */
  datatype Stop = StillRunning | LimitReached | BudgetEnd | OtherStop

  datatype Progress = Progress(receipts: seq<Receipt>, active: Path, created: Path, stop: Stop)

  /** An END that matches only because the budget is exhausted. */
  predicate LimitTerminal(t: Transition, f: Flags) {
    t.to == END && f.maxTurnsReached && t.condition.Some? && Evaluate(t.condition.value, Restored(f)) == Success(false)
  }

  /** Turns n, n+1, ... of a run: route by first match, then select the next plan. */
  function Drive(steps: Steps, original: Path, limit: nat, n: nat, step: string, active: Path, created: Path,
                 inputs: seq<TurnInput>): (p: Progress)
    decreases |inputs|
  {
    if n > limit then Progress([], active, created, LimitReached)
    else if step !in steps then Progress([], active, created, OtherStop)
    else if inputs == [] then Progress([], active, created, StillRunning)
    else
      var input := inputs[0];
      var f := Flags(input.done, input.newPlanExists, n >= limit);
      match Select(steps[step].go, f)
      case Failure(_) => Progress([], active, created, OtherStop)
      case Success(t) =>
        var r := Receipt(n, step, steps[step].role, active, input.created, f, Some(t.to), t.condition, false);
        var next := PostTransition(original, active, input.created, input.newPlanExists, t);
        if t.to == END then
          Progress([r], next, input.created, if LimitTerminal(t, f) then BudgetEnd else OtherStop)
        else
          var rest := Drive(steps, original, limit, n + 1, t.to, next, input.created, inputs[1..]);
          rest.(receipts := [r] + rest.receipts)
  }

  /** A finished run whose controller stopped at its limit. */
  predicate StoppedAtLimit(run: Run, steps: Steps, start: Path, step: string, inputs: seq<TurnInput>) {
    var p := Drive(steps, run.original, run.limit, 1, step, start, start, inputs);
    && run.atLimit && p.stop in {LimitReached, BudgetEnd} && p.receipts != []
    && run.receipts == p.receipts && run.terminalActive == p.active && run.terminalCreated == p.created
  }

  /** What workflow loading guarantees of steps: targets are known, names and conditions not empty. */
  predicate WellFormed(steps: Steps) {
    && "" !in steps
    && forall s | s in steps :: forall t | t in steps[s].go :: (t.to == END || t.to in steps) && t.condition != Some("")
  }

  /** One receipt of the controller: the turn, and the edge first-match routing took. */
  predicate TurnOk(r: Receipt, steps: Steps, limit: nat, turn: nat) {
    && r.turn == turn && r.step in steps && r.role == steps[r.step].role
    && r.flags.maxTurnsReached == (turn >= limit)
    && Select(steps[r.step].go, r.flags).Success?
    && r.chosen == Some(Select(steps[r.step].go, r.flags).value.to)
    && r.condition == Select(steps[r.step].go, r.flags).value.condition
  }

  /** The overlay of the turn, or else its own plan when its first match preserves it, or else the original. */
  function NextPlan(r: Receipt, steps: Steps, original: Path): Path
    requires r.step in steps && Select(steps[r.step].go, r.flags).Success?
  {
    if r.flags.newPlanExists then r.created
    else if Select(steps[r.step].go, r.flags).value.preserve then r.active
    else original
  }

  /** Consecutive receipts: each turn starts on the plan the previous one selected. */
  predicate Linked(receipts: seq<Receipt>, steps: Steps, original: Path, limit: nat, n: nat) {
    && (forall i | 0 <= i < |receipts| :: TurnOk(receipts[i], steps, limit, n + i))
    && (forall i | 0 <= i < |receipts| - 1 :: receipts[i].chosen != Some(END))
    && (forall i | 0 <= i < |receipts| - 1 :: receipts[i + 1].active == NextPlan(receipts[i], steps, original))
  }

  lemma LinkOne(r: Receipt, rest: seq<Receipt>, steps: Steps, original: Path, limit: nat, n: nat)
    requires TurnOk(r, steps, limit, n) && Linked(rest, steps, original, limit, n + 1)
    requires rest != [] ==> r.chosen != Some(END) && rest[0].active == NextPlan(r, steps, original)
    ensures Linked([r] + rest, steps, original, limit, n)
  {
    var all := [r] + rest;
    forall i | 0 <= i < |all| ensures TurnOk(all[i], steps, limit, n + i) {
      assert i > 0 ==> TurnOk(rest[i - 1], steps, limit, n + 1 + (i - 1));
    }
    forall i | 0 <= i < |all| - 1
      ensures all[i].chosen != Some(END) && all[i + 1].active == NextPlan(all[i], steps, original)
    {
      assert all[i + 1] == rest[i];
      assert i > 0 ==> all[i] == rest[i - 1];
    }
  }

  predicate EndsWith(p: Progress, steps: Steps, original: Path, limit: nat) {
    p.receipts != [] ==>
      var r := p.receipts[|p.receipts| - 1];
      && r.step in steps && Select(steps[r.step].go, r.flags).Success?
      && p.active == NextPlan(r, steps, original) && p.created == r.created
      && var t := Select(steps[r.step].go, r.flags).value;
         && (t.to == END ==> p.stop == if LimitTerminal(t, r.flags) then BudgetEnd else OtherStop)
         && (p.stop == BudgetEnd ==> t.to == END)
  }

  lemma {:induction false} DriveIsLinked(
    steps: Steps, original: Path, limit: nat, n: nat, step: string, active: Path, created: Path, inputs: seq<TurnInput>)
    ensures var p := Drive(steps, original, limit, n, step, active, created, inputs);
            (p.receipts != [] ==> p.receipts[0].active == active) && Linked(p.receipts, steps, original, limit, n)
    decreases |inputs|
  {
    var p := Drive(steps, original, limit, n, step, active, created, inputs);
    if p.receipts != [] {
      var r, input := p.receipts[0], inputs[0];
      var t := Select(steps[step].go, r.flags).value;
      var rest := [];
      if t.to != END {
        var next := PostTransition(original, active, input.created, input.newPlanExists, t);
        DriveIsLinked(steps, original, limit, n + 1, t.to, next, input.created, inputs[1..]);
        rest := Drive(steps, original, limit, n + 1, t.to, next, input.created, inputs[1..]).receipts;
      }
      assert p.receipts == [r] + rest;
      LinkOne(r, rest, steps, original, limit, n);
    }
  }

  lemma EndsOneEarlier(r: Receipt, rest: Progress, steps: Steps, original: Path, limit: nat)
    requires EndsWith(rest, steps, original, limit)
    requires r.step in steps && Select(steps[r.step].go, r.flags).Success?
    requires Select(steps[r.step].go, r.flags).value.to != END
    requires rest.receipts == [] ==>
               rest.active == NextPlan(r, steps, original) && rest.created == r.created && rest.stop != BudgetEnd
    ensures EndsWith(rest.(receipts := [r] + rest.receipts), steps, original, limit)
  {
    var all := [r] + rest.receipts;
    if rest.receipts != [] {
      assert all[|all| - 1] == rest.receipts[|rest.receipts| - 1];
    }
  }

  lemma {:induction false} DriveEnds(
    steps: Steps, original: Path, limit: nat, n: nat, step: string, active: Path, created: Path, inputs: seq<TurnInput>)
    ensures EndsWith(Drive(steps, original, limit, n, step, active, created, inputs), steps, original, limit)
    decreases |inputs|
  {
    var p := Drive(steps, original, limit, n, step, active, created, inputs);
    if p.receipts != [] {
      var input := inputs[0];
      var t := Select(steps[step].go, p.receipts[0].flags).value;
      if t.to != END {
        var next := PostTransition(original, active, input.created, input.newPlanExists, t);
        DriveEnds(steps, original, limit, n + 1, t.to, next, input.created, inputs[1..]);
        DriveRestIsEmpty(steps, original, limit, n + 1, t.to, next, input.created, inputs[1..]);
        EndsOneEarlier(p.receipts[0], Drive(steps, original, limit, n + 1, t.to, next, input.created, inputs[1..]),
                       steps, original, limit);
      }
    }
  }

  /** The receipts record what the turns were given; each turn is at the step the one before chose. */
  predicate Records(
    receipts: seq<Receipt>, inputs: seq<TurnInput>, step: string, active: Path, limit: nat, n: nat)
  {
    && |receipts| <= |inputs|
    && (receipts != [] ==> receipts[0].step == step && receipts[0].active == active)
    && (forall i | 0 <= i < |receipts| ::
          && receipts[i].created == inputs[i].created
          && receipts[i].flags == Flags(inputs[i].done, inputs[i].newPlanExists, n + i >= limit))
    && (forall i | 0 <= i < |receipts| - 1 :: receipts[i].chosen == Some(receipts[i + 1].step))
  }

  lemma RecordsOneEarlier(r: Receipt, rest: seq<Receipt>, inputs: seq<TurnInput>, limit: nat, n: nat)
    requires inputs != [] && r.created == inputs[0].created
    requires r.flags == Flags(inputs[0].done, inputs[0].newPlanExists, n >= limit)
    requires rest != [] ==>
               r.chosen == Some(rest[0].step) && Records(rest, inputs[1..], rest[0].step, rest[0].active, limit, n + 1)
    ensures Records([r] + rest, inputs, r.step, r.active, limit, n)
  {
    var all := [r] + rest;
    forall i | 0 <= i < |all|
      ensures && i < |inputs| && all[i].created == inputs[i].created
              && all[i].flags == Flags(inputs[i].done, inputs[i].newPlanExists, n + i >= limit)
    {
      if i > 0 {
        assert all[i] == rest[i - 1] && inputs[i] == inputs[1..][i - 1];
      }
    }
    forall i | 0 <= i < |all| - 1 ensures all[i].chosen == Some(all[i + 1].step) {
      assert all[i + 1] == rest[i];
      assert i > 0 ==> all[i] == rest[i - 1];
    }
  }

  /** A run starts on its plan and step and records every input. */
  lemma {:induction false} DriveRecords(
    steps: Steps, original: Path, limit: nat, n: nat, step: string, active: Path, created: Path, inputs: seq<TurnInput>)
    ensures var p := Drive(steps, original, limit, n, step, active, created, inputs);
            Records(p.receipts, inputs, step, active, limit, n)
    decreases |inputs|
  {
    var p := Drive(steps, original, limit, n, step, active, created, inputs);
    if p.receipts != [] {
      var r, input := p.receipts[0], inputs[0];
      var t := Select(steps[step].go, r.flags).value;
      var rest := [];
      if t.to != END {
        var next := PostTransition(original, active, input.created, input.newPlanExists, t);
        DriveRecords(steps, original, limit, n + 1, t.to, next, input.created, inputs[1..]);
        rest := Drive(steps, original, limit, n + 1, t.to, next, input.created, inputs[1..]).receipts;
      }
      assert p.receipts == [r] + rest;
      RecordsOneEarlier(r, rest, inputs, limit, n);
    }
  }

  /**
   A run stops at its limit exactly after the turn of that number chose a further step, and at a
   budget END exactly when its last END holds by the exhausted budget alone.
   */
  lemma {:induction false} DriveStops(
    steps: Steps, original: Path, limit: nat, n: nat, step: string, active: Path, created: Path, inputs: seq<TurnInput>)
    requires n <= limit + 1
    ensures var p := Drive(steps, original, limit, n, step, active, created, inputs);
            && n + |p.receipts| <= limit + 1
            && (p.stop == LimitReached <==>
                  n + |p.receipts| == limit + 1
                  && (p.receipts != [] ==> p.receipts[|p.receipts| - 1].chosen != Some("END")))
            && (p.stop == BudgetEnd <==>
                  && n + |p.receipts| == limit + 1 && p.receipts != []
                  && var r := p.receipts[|p.receipts| - 1];
                     && r.chosen == Some("END") && r.condition.Some?
                     && Evaluate(r.condition.value, r.flags.(maxTurnsReached := false)) == Success(false))
    decreases |inputs|
  {
    var p := Drive(steps, original, limit, n, step, active, created, inputs);
    if p.receipts != [] {
      var r, input := p.receipts[0], inputs[0];
      var t := Select(steps[step].go, r.flags).value;
      if t.to != END {
        var next := PostTransition(original, active, input.created, input.newPlanExists, t);
        DriveStops(steps, original, limit, n + 1, t.to, next, input.created, inputs[1..]);
        var rest := Drive(steps, original, limit, n + 1, t.to, next, input.created, inputs[1..]).receipts;
        assert p.receipts == [r] + rest;
        assert rest != [] ==> p.receipts[|p.receipts| - 1] == rest[|rest| - 1];
      }
    }
  }

  lemma DriveRestIsEmpty(
    steps: Steps, original: Path, limit: nat, n: nat, step: string, active: Path, created: Path, inputs: seq<TurnInput>)
    ensures var p := Drive(steps, original, limit, n, step, active, created, inputs);
            p.receipts == [] ==> p.active == active && p.created == created && p.stop != BudgetEnd
  {
  }

  /** The recomputation of each next starting plan from its predecessor's receipt is exact. */
  lemma DerivedStartIsExact(run: Run, steps: Steps, start: Path, step: string, inputs: seq<TurnInput>, i: nat)
    requires WellFormed(steps) && StoppedAtLimit(run, steps, start, step, inputs) && i + 1 < |run.receipts|
    ensures DerivedNextStart(run.receipts[i], steps, run.original) == Some(run.receipts[i + 1].active)
  {
    DriveIsLinked(steps, run.original, run.limit, 1, step, start, start, inputs);
    assert TurnOk(run.receipts[i], steps, run.limit, 1 + i);
    RecordedEdgeIsTaken(steps[run.receipts[i].step].go, run.receipts[i].flags);
  }

  // ---- acceptance, one generation and over chains ----

  /**
   What acceptance turns on: after a budget END, no other edge of the step carries the same
   condition text, and the restored budget leads to a real step.
   */
  predicate Resumable(run: Run, steps: Steps)
    requires run.receipts != []
  {
    var r := run.receipts[|run.receipts| - 1];
    r.chosen == Some(END) ==>
      && r.step in steps && r.condition.Some?
      && |WithCondition(steps[r.step].go, r.condition.value)| == 1
      && Select(steps[r.step].go, Restored(r.flags)).Success?
      && Select(steps[r.step].go, Restored(r.flags)).value.to != END
  }

  lemma BudgetEndIsValidated(r: Receipt, steps: Steps, limit: nat)
    requires WellFormed(steps) && TurnOk(r, steps, limit, r.turn)
    requires LimitTerminal(Select(steps[r.step].go, r.flags).value, r.flags)
    ensures ValidatedBudgetEnd(r.step, r.condition, r.flags, steps)
         == if |WithCondition(steps[r.step].go, r.condition.value)| == 1
            then Some(Select(steps[r.step].go, r.flags).value) else None
  {
    var go := steps[r.step].go;
    var t := Select(go, r.flags).value;
    RecordedEdgeIsTaken(go, r.flags);
    WithConditionKeeps(go, t, r.condition.value);
    assert Exhausted(r.flags) == r.flags;
  }

  lemma LastReceipt(run: Run, steps: Steps, start: Path, step: string, inputs: seq<TurnInput>)
    requires StoppedAtLimit(run, steps, start, step, inputs)
    ensures var n := |run.receipts|; var r := run.receipts[n - 1];
            && TurnOk(r, steps, run.limit, n)
            && run.terminalActive == NextPlan(r, steps, run.original) && run.terminalCreated == r.created
            && (r.chosen == Some(END) ==> LimitTerminal(Select(steps[r.step].go, r.flags).value, r.flags))
            && (n == 1 ==> r.active == start)
  {
    DriveIsLinked(steps, run.original, run.limit, 1, step, start, start, inputs);
    DriveEnds(steps, run.original, run.limit, 1, step, start, start, inputs);
    assert TurnOk(run.receipts[|run.receipts| - 1], steps, run.limit, 1 + (|run.receipts| - 1));
  }

  /** The last receipt of a run at its limit routes on exactly when the run is resumable, by the edge it took. */
  lemma RoutedExactly(run: Run, steps: Steps, start: Path, step: string, inputs: seq<TurnInput>)
    requires WellFormed(steps) && StoppedAtLimit(run, steps, start, step, inputs)
    ensures var r := run.receipts[|run.receipts| - 1];
            && r.step in steps && r.chosen.Some? && Select(steps[r.step].go, r.flags).Success?
            && (RoutedNext(r, steps).Some? <==> Resumable(run, steps))
            && (RoutedNext(r, steps).Some? ==>
                  && RoutedNext(r, steps).value.0 == Select(steps[r.step].go, r.flags).value
                  && RoutedNext(r, steps).value.1 in steps)
  {
    var r := run.receipts[|run.receipts| - 1];
    LastReceipt(run, steps, start, step, inputs);
    RecordedEdgeIsTaken(steps[r.step].go, r.flags);
    if r.chosen == Some(END) {
      BudgetEndIsValidated(r, steps, run.limit);
      if Select(steps[r.step].go, Restored(r.flags)).Success? {
        RecordedEdgeIsTaken(steps[r.step].go, Restored(r.flags));
      }
    }
  }

  /** The recorded start of the last turn is confirmed by the receipts. */
  lemma StartIsConfirmed(
    runs: map<string, Run>, run: Run, steps: Steps, start: Path, step: string, inputs: seq<TurnInput>, edge: Transition)
    requires WellFormed(steps) && StoppedAtLimit(run, steps, start, step, inputs)
    requires start == run.original || InheritedStart(runs, run, steps) == Some(start)
    ensures StartConfirmed(runs, run, edge, steps)
  {
    if |run.receipts| > 1 {
      DerivedStartIsExact(run, steps, start, step, inputs, |run.receipts| - 2);
    } else {
      LastReceipt(run, steps, start, step, inputs);
    }
  }

  /**
   What a boundary must hand over: the number of the last turn, the plan it started from, the
   overlay it made, and the step of its first match, or after an END the step of the first match
   with the budget restored.
   */
  predicate HandsOver(b: Boundary, run: Run, inputs: seq<TurnInput>, steps: Steps) {
    && 0 < |run.receipts| <= |inputs|
    && var n := |run.receipts|;
       var r, last := run.receipts[n - 1], inputs[n - 1];
       var f := Flags(last.done, last.newPlanExists, true);
       && r.step in steps && b.turn == n && b.active == r.active
       && b.overlay == (if last.newPlanExists then Some(last.created) else None)
       && Select(steps[r.step].go, f).Success?
       && var first := Select(steps[r.step].go, f).value;
          if first.to != "END" then b.nextStep == first.to
          else
            && Select(steps[r.step].go, f.(maxTurnsReached := false)).Success?
            && b.nextStep == Select(steps[r.step].go, f.(maxTurnsReached := false)).value.to
  }

  lemma BoundaryHandsOver(
    runs: map<string, Run>, run: Run, steps: Steps, start: Path, step: string, inputs: seq<TurnInput>)
    requires WellFormed(steps) && StoppedAtLimit(run, steps, start, step, inputs)
    requires Classify(runs, run, steps).Some?
    ensures HandsOver(Classify(runs, run, steps).value, run, inputs, steps)
  {
    var n := |run.receipts|;
    var r := run.receipts[n - 1];
    LastReceipt(run, steps, start, step, inputs);
    DriveRecords(steps, run.original, run.limit, 1, step, start, start, inputs);
    AtTheLimit(run, steps, start, step, inputs);
    RecordedEdgeIsTaken(steps[r.step].go, r.flags);
    assert r.flags == Flags(inputs[n - 1].done, inputs[n - 1].newPlanExists, true);
  }

  lemma AtTheLimit(run: Run, steps: Steps, start: Path, step: string, inputs: seq<TurnInput>)
    requires StoppedAtLimit(run, steps, start, step, inputs)
    ensures |run.receipts| == run.limit
  {
    assert run.limit > 0;
    DriveStops(steps, run.original, run.limit, 1, step, start, start, inputs);
  }

  /** A turn starts on the overlay the turn before made, or on its plan if its edge preserves it, or on the original. */
  lemma TurnsFollow(run: Run, steps: Steps, start: Path, step: string, inputs: seq<TurnInput>, i: nat)
    requires StoppedAtLimit(run, steps, start, step, inputs) && i + 1 < |run.receipts|
    ensures |run.receipts| <= |inputs| && run.receipts[0].active == start && run.receipts[0].step == step
    ensures var r, next := run.receipts[i], run.receipts[i + 1];
            && r.step in steps
            && exists t | t in steps[r.step].go ::
                 && Select(steps[r.step].go, Flags(inputs[i].done, inputs[i].newPlanExists, i + 1 >= run.limit))
                    == Success(t)
                 && next.step == t.to
                 && next.active == if inputs[i].newPlanExists then inputs[i].created
                                   else if t.preserve then r.active else run.original
  {
    DriveIsLinked(steps, run.original, run.limit, 1, step, start, start, inputs);
    DriveRecords(steps, run.original, run.limit, 1, step, start, start, inputs);
    assert TurnOk(run.receipts[i], steps, run.limit, 1 + i);
    RecordedEdgeIsTaken(steps[run.receipts[i].step].go, run.receipts[i].flags);
  }

  /**
   One generation: a run that stopped at its limit is accepted exactly when it is resumable, and
   then the boundary names the plan its last turn really started from, the overlay that turn made
   and the step its routing leads to.
   */
  lemma AcceptedExactly(
    runs: map<string, Run>, run: Run, steps: Steps, start: Path, step: string, inputs: seq<TurnInput>)
    requires WellFormed(steps) && StoppedAtLimit(run, steps, start, step, inputs)
    requires start == run.original || InheritedStart(runs, run, steps) == Some(start)
    ensures Classify(runs, run, steps).Some? <==> Resumable(run, steps)
    ensures Classify(runs, run, steps).Some? ==> HandsOver(Classify(runs, run, steps).value, run, inputs, steps)
  {
    var r := run.receipts[|run.receipts| - 1];
    LastReceipt(run, steps, start, step, inputs);
    RoutedExactly(run, steps, start, step, inputs);
    StartIsConfirmed(runs, run, steps, start, step, inputs, Select(steps[r.step].go, r.flags).value);
    if Classify(runs, run, steps).Some? {
      BoundaryHandsOver(runs, run, steps, start, step, inputs);
    }
  }

  /** One generation of a chain, with the inputs its turns saw. */
  datatype Generation = Generation(run: Run, start: Path, step: string, inputs: seq<TurnInput>)

  /** A fresh run, then successors each started from the accepted boundary of the one before. */
  predicate Chain(gens: seq<Generation>, runs: map<string, Run>, steps: Steps) {
    && (forall k | 0 <= k < |gens| ::
          && gens[k].run.id in runs && runs[gens[k].run.id] == gens[k].run && gens[k].run.id != ""
          && StoppedAtLimit(gens[k].run, steps, gens[k].start, gens[k].step, gens[k].inputs))
    && (gens != [] ==> gens[0].start == gens[0].run.original)
    && (forall k | 0 <= k < |gens| - 1 :: Succeeds(gens[k], gens[k + 1], runs, steps))
  }

  predicate Succeeds(parent: Generation, child: Generation, runs: map<string, Run>, steps: Steps) {
    var boundary := Classify(runs, parent.run, steps);
    && boundary.Some?
    && child.start == SuccessorPlan(boundary.value) && child.step == boundary.value.nextStep
    && child.run.resumedFrom == Some(parent.run.id) && child.run.id != parent.run.id
    && child.run.workflow == parent.run.workflow && child.run.workspace == parent.run.workspace
    && child.run.original == parent.run.original
  }

  /** The child starts on the overlay of its parent's last turn, or else on that turn's plan, at the routed step. */
  predicate Continues(parent: Generation, child: Generation, steps: Steps) {
    && 0 < |parent.run.receipts| <= |parent.inputs|
    && var n := |parent.run.receipts|;
       var r, last := parent.run.receipts[n - 1], parent.inputs[n - 1];
       var f := Flags(last.done, last.newPlanExists, true);
       && child.start == (if last.newPlanExists then last.created else r.active)
       && r.step in steps && Select(steps[r.step].go, f).Success?
       && var first := Select(steps[r.step].go, f).value;
          if first.to != "END" then child.step == first.to
          else Select(steps[r.step].go, f.(maxTurnsReached := false)).Success?
               && child.step == Select(steps[r.step].go, f.(maxTurnsReached := false)).value.to
  }

  /** The plan a successor inherits, recomputed from its parent's receipts, is the plan it started on. */
  lemma InheritedStartIsExact(parent: Generation, child: Generation, runs: map<string, Run>, steps: Steps)
    requires parent.run.id in runs && runs[parent.run.id] == parent.run && parent.run.id != ""
    requires Succeeds(parent, child, runs, steps)
    ensures InheritedStart(runs, child.run, steps) == Some(child.start)
  {
  }

  /**
   Receipt reconstruction is exact over chains: every generation is accepted exactly when it is
   resumable, and the starting plan of every turn, the first one of each run included, is the
   one recomputed from receipts.
   */
  lemma ReconstructionIsExact(gens: seq<Generation>, runs: map<string, Run>, steps: Steps, k: nat)
    requires WellFormed(steps) && Chain(gens, runs, steps) && k < |gens|
    ensures Classify(runs, gens[k].run, steps).Some? <==> Resumable(gens[k].run, steps)
    ensures Classify(runs, gens[k].run, steps).Some? ==>
              HandsOver(Classify(runs, gens[k].run, steps).value, gens[k].run, gens[k].inputs, steps)
    ensures gens[k].run.receipts[0].active == gens[k].start && gens[k].run.receipts[0].step == gens[k].step
    ensures k > 0 ==> Continues(gens[k - 1], gens[k], steps)
    ensures k > 0 ==> InheritedStart(runs, gens[k].run, steps) == Some(gens[k].start)
    ensures forall i | 0 <= i < |gens[k].run.receipts| - 1 ::
              DerivedNextStart(gens[k].run.receipts[i], steps, gens[k].run.original)
              == Some(gens[k].run.receipts[i + 1].active)
  {
    var g := gens[k];
    assert StoppedAtLimit(g.run, steps, g.start, g.step, g.inputs);
    if k > 0 {
      assert Succeeds(gens[k - 1], gens[k - 1 + 1], runs, steps);
      InheritedStartIsExact(gens[k - 1], g, runs, steps);
      BoundaryHandsOver(runs, gens[k - 1].run, steps, gens[k - 1].start, gens[k - 1].step, gens[k - 1].inputs);
    }
    AcceptedExactly(runs, g.run, steps, g.start, g.step, g.inputs);
    DriveRecords(steps, g.run.original, g.run.limit, 1, g.step, g.start, g.start, g.inputs);
    forall i | 0 <= i < |g.run.receipts| - 1
      ensures DerivedNextStart(g.run.receipts[i], steps, g.run.original) == Some(g.run.receipts[i + 1].active)
    {
      DerivedStartIsExact(g.run, steps, g.start, g.step, g.inputs, i);
    }
  }

  lemma SelectOfRepeated(go: seq<Transition>, f: Flags)
    requires go == [Transition(END, Some(MaxTurnsReached.Text()), false),
                    Transition(END, Some(MaxTurnsReached.Text()), false),
                    Transition("work", None, false)]
    ensures Select(go, f) == Success(if f.maxTurnsReached then go[0] else go[2])
    ensures WithCondition(go, MaxTurnsReached.Text()) == [go[0], go[1]]
  {
    SymbolEvaluates(MaxTurnsReached, f);
    assert go[1..][0] == go[1] && go[1..][1..] == [go[2]];
    assert Select(go[1..], f) == Success(if f.maxTurnsReached then go[1] else go[2]);
    assert WithCondition([go[2]], MaxTurnsReached.Text()) == [];
  }

  /**
   Two edges of one step may carry the same condition text; then a true budget stop, with a real
   next step under the restored budget, is rejected.
   */
  lemma RepeatedConditionIsRejected() returns (steps: Steps, run: Run, inputs: seq<TurnInput>)
    ensures WellFormed(steps) && StoppedAtLimit(run, steps, run.original, "work", inputs)
    ensures var r := run.receipts[|run.receipts| - 1];
            r.step in steps && Select(steps[r.step].go, Restored(r.flags)) == Success(Transition("work", None, false))
    ensures Classify(map[run.id := run], run, steps).None?
  {
    var stop := Transition(END, Some(MaxTurnsReached.Text()), false);
    var go := [stop, stop, Transition("work", None, false)];
    steps := map["work" := StepConfig("worker", go)];
    inputs := [TurnInput(false, false, "created")];
    var f := Flags(false, false, true);
    SelectOfRepeated(go, f);
    SelectOfRepeated(go, Restored(f));
    SymbolEvaluates(MaxTurnsReached, Restored(f));
    var r := Receipt(1, "work", "worker", "original", "created", f, Some(END), stop.condition, false);
    var p := Drive(steps, "original", 1, 1, "work", "original", "original", inputs);
    assert p == Progress([r], "original", "created", BudgetEnd);
    run := Run("run", "workflow", "workspace", "original", [r], "original", "created", 1, true, None);
    assert ValidatedBudgetEnd("work", stop.condition, f, steps).None?;
  }
}
