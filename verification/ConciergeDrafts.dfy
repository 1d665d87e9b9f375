/**
 The concierge's durable create intent (aflow/concierge.py): the record a tick writes before it
 asks for a plan document, as a system of atomic steps on the record files of one repository.

 A record file is named by the digest of repository, issue number and issue text; the digest is
 taken as injective, so files are keyed by Claim. The planner keeps its workspace record in the
 same file. Writes are durable when they return; one whose directory sync fails raises after the
 new file is already visible. Until the next successful write a power loss may then leave, file by
 file, any version since the last one.
 */
module ConciergeDrafts {
  import opened Prelude

  /** What a plan path resolves to; spelling 0 is the relative path the concierge itself writes. */
  datatype Identity = Todo(issue: nat) | InProgress(issue: nat) | Elsewhere(id: nat)
  datatype Path = Path(file: Identity, spelling: nat)

  datatype Claim = Claim(issue: nat, source: nat)
  datatype Status = CreatePending | Created | Promoted
  /** Revision 0 is the empty revision of a pending record. */
  datatype Draft = Draft(claim: Claim, path: Path, revision: nat, document: nat, status: Status)
  datatype File = Record(draft: Draft) | Workspace
  type Files = map<Claim, File>

  datatype Event =
    | Ticked
    | Saved(claim: Claim, file: File)
    | Unsaved(claim: Claim)
    | CreateRequest(claim: Claim, document: nat)
    | PromoteRequest(claim: Claim, revision: nat)
    | OtherRequest
    | Restarted

  /** Kept: the contents of the directory since its last successful sync, the visible one among them. */
  datatype State = State(live: Files, kept: set<Files>, log: seq<Event>)

  /** Lost: nothing written, or the process is gone; Unsynced: visible, but the sync raised. */
  datatype Fault = Fine | Lost | Unsynced

  datatype Action =
    | Begin
    | Prepare(claim: Claim, misread: bool, fault: Fault)
    | Intend(claim: Claim, document: nat, hidden: set<Claim>, fault: Fault)
    | Create(claim: Claim, document: nat)
    | Advance(claim: Claim, path: Path, revision: nat, status: Status, fault: Fault)
    | Promote(claim: Claim, revision: nat)
    | Other
    | PowerLoss(after: Files)

  function Pending(c: Claim, document: nat): Draft {
    Draft(c, Path(Todo(c.issue), 0), 0, document, CreatePending)
  }

  predicate IsRecord(files: Files, c: Claim) { c in files && files[c].Record? }

  /** Some readable record is about the issue, whatever its status. */
  predicate CoversIssue(files: Files, hidden: set<Claim>, issue: nat) {
    exists c | c in files :: IsRecord(files, c) && c.issue == issue && c !in hidden
  }

  function Next(s: Status): Option<Status> {
    match s case CreatePending => Some(Created) case Created => Some(Promoted) case Promoted => None
  }

  function Home(s: Status, issue: nat): Identity { if s == Promoted then InProgress(issue) else Todo(issue) }

  function Lookup(files: Files, c: Claim): Option<File> { if c in files then Some(files[c]) else None }

  predicate SomeVersion(kept: set<Files>, c: Claim, file: Option<File>) {
    exists f | f in kept :: Lookup(f, c) == file
  }

  function Names(kept: set<Files>): set<Claim> { set f, c | f in kept && c in f :: c }

  /** Each file as some kept version has it. */
  predicate Survives(kept: set<Files>, after: Files) {
    kept != {} && forall c | c in Names(kept) + after.Keys :: SomeVersion(kept, c, Lookup(after, c))
  }

  ghost predicate Enabled(s: State, a: Action) {
    match a
    case Begin => true
    case Prepare(c, misread, _) => c !in s.live || misread
    case Intend(c, _, hidden, _) => !CoversIssue(s.live, hidden, c.issue)
    case Create(c, document) => s.log != [] && s.log[|s.log| - 1] == Saved(c, Record(Pending(c, document)))
    case Advance(c, path, _, status, _) =>
      && IsRecord(s.live, c) && Next(s.live[c].draft.status) == Some(status)
      && path.file == Home(status, c.issue)
    case Promote(c, _) => IsRecord(s.live, c) && s.live[c].draft.status == Created
    case Other => true
    case PowerLoss(after) => Survives(s.kept, after)
  }

  function AfterSave(s: State, c: Claim, f: File, fault: Fault): State {
    var live := s.live[c := f];
    match fault
    case Fine => State(live, {live}, s.log + [Saved(c, f)])
    case Lost => Logged(s, Unsaved(c))
    case Unsynced => State(live, s.kept + {live}, s.log + [Unsaved(c)])
  }

  function Logged(s: State, e: Event): State { s.(log := s.log + [e]) }

  function Advanced(d: Draft, path: Path, revision: nat, status: Status): Draft {
    d.(path := path, revision := revision, status := status)
  }

  ghost function Do(s: State, a: Action): State
    requires Enabled(s, a)
  {
    match a
    case Begin => Logged(s, Ticked)
    case Prepare(c, _, fault) => AfterSave(s, c, Workspace, fault)
    case Intend(c, document, _, fault) => AfterSave(s, c, Record(Pending(c, document)), fault)
    case Create(c, document) => Logged(s, CreateRequest(c, document))
    case Advance(c, path, revision, status, fault) =>
      AfterSave(s, c, Record(Advanced(s.live[c].draft, path, revision, status)), fault)
    case Promote(c, revision) => Logged(s, PromoteRequest(c, revision))
    case Other => Logged(s, OtherRequest)
    case PowerLoss(after) => State(after, {after}, s.log + [Restarted])
  }

  const START := State(map[], {map[]}, [])

  /** Steps taken from a state, if each is enabled where it is taken. */
  ghost function RunFrom(s: State, trace: seq<Action>): Option<State> {
    if trace == [] then Some(s)
    else
      var front, last := RunFrom(s, trace[..|trace| - 1]), trace[|trace| - 1];
      if front.Some? && Enabled(front.value, last) then Some(Do(front.value, last)) else None
  }

  ghost predicate Performable(trace: seq<Action>) { RunFrom(START, trace).Some? }

  ghost function Perform(trace: seq<Action>): State
    requires Performable(trace)
  {
    RunFrom(START, trace).value
  }

  lemma Extends(s: State, trace: seq<Action>, a: Action)
    requires RunFrom(s, trace).Some? && Enabled(RunFrom(s, trace).value, a)
    ensures RunFrom(s, trace + [a]) == Some(Do(RunFrom(s, trace).value, a))
  {
    assert (trace + [a])[..|trace|] == trace;
  }

  lemma {:induction false} RunJoins(s: State, a: seq<Action>, b: seq<Action>)
    requires RunFrom(s, a).Some?
    ensures RunFrom(s, a + b) == RunFrom(RunFrom(s, a).value, b)
    decreases |b|
  {
    if b == [] {
      assert a + b == a;
    } else {
      RunJoins(s, a, b[..|b| - 1]);
      assert (a + b)[..|a + b| - 1] == a + b[..|b| - 1];
    }
  }

  lemma {:induction false} PrefixRuns(s: State, trace: seq<Action>, k: nat)
    requires RunFrom(s, trace).Some? && k <= |trace|
    ensures RunFrom(s, trace[..k]).Some?
    ensures k < |trace| ==> Enabled(RunFrom(s, trace[..k]).value, trace[k])
    ensures k < |trace| ==> RunFrom(s, trace[..k + 1]) == Some(Do(RunFrom(s, trace[..k]).value, trace[k]))
    decreases |trace|
  {
    if k == |trace| {
      assert trace[..k] == trace;
    } else {
      var front := trace[..|trace| - 1];
      if k < |front| {
        PrefixRuns(s, front, k);
        assert front[..k] == trace[..k] && front[..k + 1] == trace[..k + 1];
      } else {
        assert trace[..k] == front && trace[..k + 1] == trace;
      }
    }
  }

  // ---- what every run keeps, however the record files read ----

  predicate WellFormed(files: Files) {
    forall c | c in files :: files[c].Record? ==>
      files[c].draft.claim == c && files[c].draft.path.file == Home(files[c].draft.status, c.issue)
  }

  ghost predicate Announced(log: seq<Event>) {
    forall k | 0 <= k < |log| && log[k].CreateRequest? ::
      k > 0 && log[k - 1] == Saved(log[k].claim, Record(Pending(log[k].claim, log[k].document)))
  }

  /** The visible directory is kept, kept ones are well formed, and a save just reported is all there is. */
  ghost predicate Sound(s: State) {
    && s.live in s.kept
    && (forall f | f in s.kept :: WellFormed(f))
    && (s.log != [] && s.log[|s.log| - 1].Saved? ==>
          && s.kept == {s.live}
          && Lookup(s.live, s.log[|s.log| - 1].claim) == Some(s.log[|s.log| - 1].file))
  }

  lemma SurvivesAt(kept: set<Files>, after: Files, c: Claim)
    requires Survives(kept, after)
    ensures SomeVersion(kept, c, Lookup(after, c))
  {
    if c !in Names(kept) + after.Keys {
      var f :| f in kept;
      assert Lookup(f, c) == None;
    }
  }

  lemma VersionSurvives(kept: set<Files>, f: Files)
    requires f in kept
    ensures Survives(kept, f)
  {
    forall c | c in Names(kept) + f.Keys ensures SomeVersion(kept, c, Lookup(f, c)) {
    }
  }

  lemma SurvivorsWellFormed(s: State, after: Files)
    requires Survives(s.kept, after) && forall f | f in s.kept :: WellFormed(f)
    ensures WellFormed(after)
  {
    forall c | c in after && after[c].Record?
      ensures after[c].draft.claim == c && after[c].draft.path.file == Home(after[c].draft.status, c.issue)
    {
      SurvivesAt(s.kept, after, c);
      var f :| f in s.kept && Lookup(f, c) == Lookup(after, c);
      assert WellFormed(f);
    }
  }

  lemma StepKeepsSound(s: State, a: Action)
    requires Sound(s) && Enabled(s, a)
    ensures Sound(Do(s, a))
  {
    assert WellFormed(s.live);
    if a.PowerLoss? {
      SurvivorsWellFormed(s, a.after);
    }
  }

  lemma {:induction false} RunIsSound(s: State, trace: seq<Action>)
    requires Sound(s) && RunFrom(s, trace).Some?
    ensures Sound(RunFrom(s, trace).value)
    decreases |trace|
  {
    if trace != [] {
      RunIsSound(s, trace[..|trace| - 1]);
      StepKeepsSound(RunFrom(s, trace[..|trace| - 1]).value, trace[|trace| - 1]);
    }
  }

  lemma AnnouncedGrows(log: seq<Event>, e: Event)
    requires Announced(log)
    requires e.CreateRequest? ==> log != [] && log[|log| - 1] == Saved(e.claim, Record(Pending(e.claim, e.document)))
    ensures Announced(log + [e])
  {
  }

  /** In every run the event before a create request is the durable save of its pending record. */
  lemma {:induction false} RequestFollowsItsRecord(trace: seq<Action>)
    requires Performable(trace)
    ensures Announced(Perform(trace).log)
  {
    if trace != [] {
      var s := Perform(trace[..|trace| - 1]);
      RequestFollowsItsRecord(trace[..|trace| - 1]);
      AnnouncedGrows(s.log, Perform(trace).log[|s.log|]);
    }
  }

  // ---- when a recorded status may be lost ----

  function Rank(s: Status): nat {
    match s case CreatePending => 0 case Created => 1 case Promoted => 2
  }

  predicate RecordAtLeast(f: Files, c: Claim, document: nat, rank: nat) {
    IsRecord(f, c) && f[c].draft.document == document && rank <= Rank(f[c].draft.status)
  }

  /** Whatever a power loss leaves, the claim's record is of this document and at least this far. */
  ghost predicate DurablyAtLeast(s: State, c: Claim, document: nat, rank: nat) {
    forall f | f in s.kept :: RecordAtLeast(f, c, document, rank)
  }

  /** A save that lands on the claim's file and is no advance of its record. */
  predicate TakesBack(a: Action, c: Claim, document: nat, rank: nat) {
    || (a.Prepare? && a.claim == c && a.fault != Lost)
    || (a.Intend? && a.claim == c && a.fault != Lost && (a.document != document || rank > 0))
  }

  /**
   One step takes a durable status back exactly when a workspace or a new intent lands on its file,
   and such a step has misread the file or the record.
   */
  lemma StatusTakenBackExactly(s: State, a: Action, c: Claim, document: nat, rank: nat)
    requires Sound(s) && Enabled(s, a) && DurablyAtLeast(s, c, document, rank)
    ensures !DurablyAtLeast(Do(s, a), c, document, rank) <==> TakesBack(a, c, document, rank)
    ensures TakesBack(a, c, document, rank) ==> if a.Prepare? then a.misread else c in a.hidden
  {
    assert RecordAtLeast(s.live, c, document, rank);
    if a.PowerLoss? {
      SurvivesAt(s.kept, a.after, c);
      var f :| f in s.kept && Lookup(f, c) == Lookup(a.after, c);
      assert RecordAtLeast(f, c, document, rank);
    } else if TakesBack(a, c, document, rank) {
      assert !RecordAtLeast(Do(s, a).live, c, document, rank);
      assert Do(s, a).live in Do(s, a).kept;
    }
  }

  /** The status holds durably after the first m steps of a run. */
  ghost predicate HoldsAfter(trace: seq<Action>, m: nat, c: Claim, document: nat, rank: nat) {
    m <= |trace| && Performable(trace[..m]) && DurablyAtLeast(Perform(trace[..m]), c, document, rank)
  }

  lemma HoldsNext(trace: seq<Action>, m: nat, c: Claim, document: nat, rank: nat)
    requires Performable(trace) && m < |trace| && HoldsAfter(trace, m, c, document, rank)
    ensures HoldsAfter(trace, m + 1, c, document, rank) <==> !TakesBack(trace[m], c, document, rank)
  {
    PrefixRuns(START, trace, m);
    RunIsSound(START, trace[..m]);
    StatusTakenBackExactly(Perform(trace[..m]), trace[m], c, document, rank);
  }

  lemma {:induction false} HoldsUpTo(trace: seq<Action>, k: nat, m: nat, c: Claim, document: nat, rank: nat)
    requires Performable(trace) && k <= m <= |trace| && HoldsAfter(trace, k, c, document, rank)
    requires forall i | k <= i < m :: !TakesBack(trace[i], c, document, rank)
    ensures HoldsAfter(trace, m, c, document, rank)
    decreases m
  {
    if k < m {
      HoldsUpTo(trace, k, m - 1, c, document, rank);
      HoldsNext(trace, m - 1, c, document, rank);
    }
  }

  /**
   Over whole runs, power losses and failed syncs included: a durable status holds from one moment on
   exactly as long as no step takes it back.
   */
  lemma DurableStatusMovesForward(trace: seq<Action>, k: nat, c: Claim, document: nat, rank: nat)
    requires Performable(trace) && HoldsAfter(trace, k, c, document, rank)
    ensures (forall m | k <= m <= |trace| :: HoldsAfter(trace, m, c, document, rank))
       <==> forall m | k <= m < |trace| :: !TakesBack(trace[m], c, document, rank)
  {
    if forall m | k <= m < |trace| :: !TakesBack(trace[m], c, document, rank) {
      forall m | k <= m <= |trace| ensures HoldsAfter(trace, m, c, document, rank) {
        HoldsUpTo(trace, k, m, c, document, rank);
      }
    }
    if forall m | k <= m <= |trace| :: HoldsAfter(trace, m, c, document, rank) {
      forall m | k <= m < |trace| ensures !TakesBack(trace[m], c, document, rank) {
        HoldsNext(trace, m, c, document, rank);
        assert HoldsAfter(trace, m + 1, c, document, rank);
      }
    }
  }

  /** The later files keep every record of the earlier ones, at the same or a later status. */
  ghost predicate Forward(earlier: Files, later: Files) {
    forall c | IsRecord(earlier, c) ::
      RecordAtLeast(later, c, earlier[c].draft.document, Rank(earlier[c].draft.status))
  }

  /** The visible status goes back in the same two ways, or to the version a power loss leaves. */
  lemma VisibleTakenBackExactly(s: State, a: Action, c: Claim, document: nat, rank: nat)
    requires Sound(s) && Enabled(s, a) && RecordAtLeast(s.live, c, document, rank)
    ensures !RecordAtLeast(Do(s, a).live, c, document, rank) <==>
            TakesBack(a, c, document, rank) || (a.PowerLoss? && !RecordAtLeast(a.after, c, document, rank))
  {
    assert WellFormed(s.live);
  }

  /** The step misreads no record: no record about the issue, and no record in the claim's file. */
  ghost predicate Clear(s: State, a: Action) {
    match a
    case Prepare(c, _, _) => !IsRecord(s.live, c)
    case Intend(c, _, _, _) => !CoversIssue(s.live, {}, c.issue)
    case _ => true
  }

  /** A step that misreads no record takes none back durably, and visibly only by a power loss. */
  lemma StepMovesForward(s: State, a: Action)
    requires Sound(s) && Enabled(s, a) && Clear(s, a)
    ensures forall c, document, rank: nat | DurablyAtLeast(s, c, document, rank) ::
              DurablyAtLeast(Do(s, a), c, document, rank)
    ensures !a.PowerLoss? ==> Forward(s.live, Do(s, a).live)
  {
    forall c, document, rank: nat | DurablyAtLeast(s, c, document, rank)
      ensures DurablyAtLeast(Do(s, a), c, document, rank)
    {
      assert RecordAtLeast(s.live, c, document, rank);
      StatusTakenBackExactly(s, a, c, document, rank);
    }
    forall c | IsRecord(s.live, c) && !a.PowerLoss?
      ensures RecordAtLeast(Do(s, a).live, c, s.live[c].draft.document, Rank(s.live[c].draft.status))
    {
      VisibleTakenBackExactly(s, a, c, s.live[c].draft.document, Rank(s.live[c].draft.status));
    }
  }

  /** A power loss can take no visible status back exactly when every visible status is durable. */
  lemma PowerLossKeepsVisible(s: State)
    requires Sound(s)
    ensures (forall after: Files | Survives(s.kept, after) :: Forward(s.live, after))
       <==> forall f | f in s.kept :: Forward(s.live, f)
  {
    forall f: Files | f in s.kept ensures Survives(s.kept, f) {
      VersionSurvives(s.kept, f);
    }
    if forall f | f in s.kept :: Forward(s.live, f) {
      forall after: Files, c: Claim | Survives(s.kept, after) && IsRecord(s.live, c)
        ensures RecordAtLeast(after, c, s.live[c].draft.document, Rank(s.live[c].draft.status))
      {
        SurvivesAt(s.kept, after, c);
        var f :| f in s.kept && Lookup(f, c) == Lookup(after, c);
        assert Forward(s.live, f);
      }
    }
  }

  // ---- at most one request an issue, and exactly when not ----

  ghost predicate Requested(log: seq<Event>, issue: nat) {
    exists k | 0 <= k < |log| :: log[k].CreateRequest? && log[k].claim.issue == issue
  }

  ghost predicate Twice(log: seq<Event>, issue: nat) {
    exists i, j | 0 <= i < j < |log| ::
      log[i].CreateRequest? && log[j].CreateRequest? && log[i].claim.issue == issue == log[j].claim.issue
  }

  /** Every kept version holds a record in the claim's file. */
  ghost predicate Firm(s: State, c: Claim) { forall f | f in s.kept :: IsRecord(f, c) }

  ghost predicate Guarded(s: State, issue: nat) { exists c :: Firm(s, c) && c.issue == issue }

  /** A pending record of the issue was saved just now, so its request is next. */
  predicate Armed(s: State, issue: nat) {
    && s.log != []
    && var e := s.log[|s.log| - 1];
       && e.Saved? && e.claim.issue == issue
       && e.file.Record? && e.file == Record(Pending(e.claim, e.file.draft.document))
  }

  ghost predicate Secure(s: State, issue: nat) { Guarded(s, issue) && !Armed(s, issue) }

  /** The claims whose records are firm after a save of another file lands. */
  ghost predicate Stays(s: State, fault: Fault, c: Claim) {
    if fault == Fine then IsRecord(s.live, c) else Firm(s, c)
  }

  /**
   The two events that end the protection of a requested issue: a workspace that lands on its last
   remaining record, and a new intent that becomes durable.
   */
  ghost predicate Exposes(s: State, a: Action, issue: nat) {
    && Requested(s.log, issue) && Secure(s, issue)
    && match a
       case Prepare(c, _, fault) =>
         fault != Lost && c.issue == issue && forall k | Stays(s, fault, k) && k.issue == issue :: k == c
       case Intend(c, _, _, fault) => fault == Fine && c.issue == issue
       case _ => false
  }

  /** Both events are misreadings: of the record's file, or of every visible record of the issue. */
  lemma ExposureIsMisreading(s: State, a: Action, issue: nat)
    requires Sound(s) && Enabled(s, a) && Exposes(s, a, issue)
    ensures a.Prepare? ==> a.misread && Firm(s, a.claim) && IsRecord(s.live, a.claim)
    ensures a.Intend? ==> CoversIssue(s.live, {}, issue)
    ensures a.Intend? ==> forall k | IsRecord(s.live, k) && k.issue == issue :: k in a.hidden
  {
    var c :| Firm(s, c) && c.issue == issue;
    assert IsRecord(s.live, c);
    if a.Prepare? {
      assert Stays(s, a.fault, c);
    } else {
      forall k | IsRecord(s.live, k) && k.issue == issue ensures k in a.hidden {
        assert k in s.live;
      }
    }
  }

  lemma FirmSurvives(s: State, after: Files, c: Claim)
    requires Firm(s, c) && Survives(s.kept, after)
    ensures IsRecord(after, c)
  {
    SurvivesAt(s.kept, after, c);
    var f :| f in s.kept && Lookup(f, c) == Lookup(after, c);
    assert IsRecord(f, c);
  }

  /** A step that writes no workspace over a record leaves it firm. */
  lemma FirmStays(s: State, a: Action, c: Claim)
    requires Sound(s) && Enabled(s, a)
    requires if a.Prepare? && a.claim != c then a.fault != Lost && Stays(s, a.fault, c) else Firm(s, c)
    requires a.Prepare? && a.claim == c ==> a.fault == Lost
    ensures Firm(Do(s, a), c)
  {
    if a.PowerLoss? {
      FirmSurvives(s, a.after, c);
    }
  }

  lemma PrepareLeavesNone(s: State, a: Action, issue: nat)
    requires Sound(s) && Enabled(s, a) && a.Prepare? && Exposes(s, a, issue)
    ensures !Guarded(Do(s, a), issue)
  {
    var v := Do(s, a);
    forall c: Claim | c.issue == issue ensures !Firm(v, c) {
      assert v.live in v.kept && !IsRecord(v.live, a.claim);
      if c != a.claim {
        assert !Stays(s, a.fault, c);
        if a.fault == Fine {
          assert !IsRecord(v.live, c);
        } else {
          var f :| f in s.kept && !IsRecord(f, c);
          assert f in v.kept;
        }
      }
    }
  }

  /** For a requested issue under protection, a step ends the protection exactly when it is one of the two. */
  lemma ExposedExactly(s: State, a: Action, issue: nat)
    requires Sound(s) && Enabled(s, a) && Requested(s.log, issue) && Secure(s, issue)
    ensures !Secure(Do(s, a), issue) <==> Exposes(s, a, issue)
  {
    var c :| Firm(s, c) && c.issue == issue;
    assert IsRecord(s.live, c) && Stays(s, Fine, c) && Stays(s, Unsynced, c);
    if Exposes(s, a, issue) {
      if a.Prepare? {
        PrepareLeavesNone(s, a, issue);
      }
    } else {
      if a.Prepare? && a.fault != Lost {
        var k := c;
        if a.claim == c {
          k :| Stays(s, a.fault, k) && k.issue == issue && k != c;
        }
        FirmStays(s, a, k);
      } else if a.Prepare? {
        assert Firm(Do(s, a), c);
      } else {
        FirmStays(s, a, c);
      }
    }
  }

  /** Requested at most once so far, and protected once requested. */
  ghost predicate Calm(s: State, issue: nat) {
    !Twice(s.log, issue) && (Requested(s.log, issue) ==> Secure(s, issue))
  }

  lemma LogGrows(log: seq<Event>, e: Event, issue: nat)
    ensures Requested(log + [e], issue) <==> Requested(log, issue) || (e.CreateRequest? && e.claim.issue == issue)
    ensures Twice(log + [e], issue) <==>
            Twice(log, issue) || (Requested(log, issue) && e.CreateRequest? && e.claim.issue == issue)
  {
    var all := log + [e];
    if Requested(log, issue) {
      var k :| 0 <= k < |log| && log[k].CreateRequest? && log[k].claim.issue == issue;
      assert all[k] == log[k] && all[|log|] == e;
    }
    if Twice(log, issue) {
      var i, j :| 0 <= i < j < |log| && log[i].CreateRequest? && log[j].CreateRequest?
        && log[i].claim.issue == issue == log[j].claim.issue;
      assert all[i] == log[i] && all[j] == log[j];
    }
    if e.CreateRequest? && e.claim.issue == issue {
      assert all[|log|] == e;
    }
  }

  lemma RequestSecures(s: State, c: Claim, document: nat)
    requires Sound(s) && Enabled(s, Create(c, document))
    ensures Secure(Do(s, Create(c, document)), c.issue)
  {
    assert Firm(Do(s, Create(c, document)), c);
  }

  lemma StepKeepsCalm(s: State, a: Action, issue: nat)
    requires Sound(s) && Enabled(s, a) && Calm(s, issue) && !Exposes(s, a, issue)
    ensures Calm(Do(s, a), issue)
  {
    var v := Do(s, a);
    var e := v.log[|s.log|];
    assert v.log == s.log + [e];
    LogGrows(s.log, e, issue);
    if Requested(s.log, issue) {
      ExposedExactly(s, a, issue);
    } else if a.Create? && a.claim.issue == issue {
      RequestSecures(s, a.claim, a.document);
    }
  }

  ghost predicate AllClear(s: State, trace: seq<Action>)
    requires RunFrom(s, trace).Some?
  {
    trace == [] ||
    (AllClear(s, trace[..|trace| - 1]) && Clear(RunFrom(s, trace[..|trace| - 1]).value, trace[|trace| - 1]))
  }

  lemma ClearExposesNothing(s: State, a: Action, issue: nat)
    requires Sound(s) && Enabled(s, a) && Clear(s, a)
    ensures !Exposes(s, a, issue)
  {
    if Exposes(s, a, issue) {
      ExposureIsMisreading(s, a, issue);
    }
  }

  lemma {:induction false} ClearRunKeepsCalm(s: State, more: seq<Action>, issue: nat)
    requires Sound(s) && Calm(s, issue) && RunFrom(s, more).Some? && AllClear(s, more)
    ensures Calm(RunFrom(s, more).value, issue)
    decreases |more|
  {
    if more != [] {
      var front, a := more[..|more| - 1], more[|more| - 1];
      ClearRunKeepsCalm(s, front, issue);
      RunIsSound(s, front);
      ClearExposesNothing(RunFrom(s, front).value, a, issue);
      StepKeepsCalm(RunFrom(s, front).value, a, issue);
    }
  }

  /** Steps that read everything take a state to a second request of the issue. */
  ghost predicate ClearlyTwice(s: State, more: seq<Action>, issue: nat) {
    RunFrom(s, more).Some? && AllClear(s, more) && Twice(RunFrom(s, more).value.log, issue)
  }

  ghost predicate MayRequestTwice(s: State, issue: nat) { exists more :: ClearlyTwice(s, more, issue) }

  /** A version of the claim's file that is no record, where the issue has an unprotected one. */
  ghost function Loss(s: State, issue: nat, c: Claim): Files
    requires Sound(s) && !Guarded(s, issue)
    ensures Loss(s, issue, c) in s.kept && (c.issue == issue ==> !IsRecord(Loss(s, issue, c), c))
  {
    if c.issue == issue then
      assert !Firm(s, c);
      var f :| f in s.kept && !IsRecord(f, c);
      f
    else s.live
  }

  /** Without protection a power loss may leave no record of the issue. */
  lemma PowerLossUncovers(s: State, issue: nat) returns (after: Files)
    requires Sound(s) && !Guarded(s, issue)
    ensures Survives(s.kept, after) && !CoversIssue(after, {}, issue)
  {
    after := map c | c in Names(s.kept) && c in Loss(s, issue, c) :: Loss(s, issue, c)[c];
    forall c | c in Names(s.kept) + after.Keys ensures SomeVersion(s.kept, c, Lookup(after, c)) {
      assert Lookup(Loss(s, issue, c), c) == Lookup(after, c);
    }
  }

  lemma ExtendsClear(s: State, trace: seq<Action>, a: Action)
    requires RunFrom(s, trace).Some? && Enabled(RunFrom(s, trace).value, a)
    ensures RunFrom(s, trace + [a]) == Some(Do(RunFrom(s, trace).value, a))
    ensures AllClear(s, trace + [a]) <==> AllClear(s, trace) && Clear(RunFrom(s, trace).value, a)
  {
    Extends(s, trace, a);
    assert (trace + [a])[..|trace|] == trace;
  }

  lemma ArmedRequests(s: State, issue: nat)
    requires Requested(s.log, issue) && Armed(s, issue)
    ensures MayRequestTwice(s, issue)
  {
    var e := s.log[|s.log| - 1];
    var a := Create(e.claim, e.file.draft.document);
    ExtendsClear(s, [], a);
    assert [] + [a] == [a];
    LogGrows(s.log, CreateRequest(e.claim, e.file.draft.document), issue);
    assert ClearlyTwice(s, [a], issue);
  }

  lemma UncoveredRequests(s: State, issue: nat)
    requires Sound(s) && Requested(s.log, issue) && !Guarded(s, issue)
    ensures MayRequestTwice(s, issue)
  {
    var after := PowerLossUncovers(s, issue);
    var c := Claim(issue, 0);
    var a1, a2 := PowerLoss(after), Intend(c, 0, {}, Fine);
    ExtendsClear(s, [], a1);
    assert [] + [a1] == [a1];
    ExtendsClear(s, [a1], a2);
    assert [a1] + [a2] == [a1, a2];
    LogGrows(s.log, Restarted, issue);
    LogGrows(s.log + [Restarted], Saved(c, Record(Pending(c, 0))), issue);
    var v := RunFrom(s, [a1, a2]).value;
    ArmedRequests(v, issue);
    var more :| ClearlyTwice(v, more, issue);
    ClearRunJoins(s, [a1, a2], more);
    assert ClearlyTwice(s, [a1, a2] + more, issue);
  }

  lemma {:induction false} ClearRunJoins(s: State, a: seq<Action>, b: seq<Action>)
    requires RunFrom(s, a).Some? && AllClear(s, a)
    requires RunFrom(RunFrom(s, a).value, b).Some? && AllClear(RunFrom(s, a).value, b)
    ensures RunFrom(s, a + b) == RunFrom(RunFrom(s, a).value, b) && AllClear(s, a + b)
    decreases |b|
  {
    RunJoins(s, a, b);
    if b == [] {
      assert a + b == a;
    } else {
      ClearRunJoins(s, a, b[..|b| - 1]);
      assert (a + b)[..|a + b| - 1] == a + b[..|b| - 1];
    }
  }

  /**
   After one request, and however the files read until then: steps that read everything can lead to
   a second request exactly when the protection of the issue has ended.
   */
  lemma RequestedAgainExactly(s: State, issue: nat)
    requires Sound(s) && Requested(s.log, issue) && !Twice(s.log, issue)
    ensures MayRequestTwice(s, issue) <==> !Secure(s, issue)
  {
    if Secure(s, issue) {
      forall more ensures !ClearlyTwice(s, more, issue) {
        if ClearlyTwice(s, more, issue) {
          ClearRunKeepsCalm(s, more, issue);
        }
      }
    } else if Armed(s, issue) {
      ArmedRequests(s, issue);
    } else {
      UncoveredRequests(s, issue);
    }
  }

  ghost predicate ExposedAt(trace: seq<Action>, k: nat, issue: nat)
    requires Performable(trace)
  {
    k < |trace| && Performable(trace[..k]) && Exposes(Perform(trace[..k]), trace[k], issue)
  }

  /** A run in which neither event happens requests the issue at most once. */
  lemma {:induction false} UnexposedIsCalm(trace: seq<Action>, issue: nat, k: nat)
    requires Performable(trace) && k <= |trace| && forall m: nat :: m < k ==> !ExposedAt(trace, m, issue)
    ensures Performable(trace[..k]) && Sound(Perform(trace[..k])) && Calm(Perform(trace[..k]), issue)
    decreases k
  {
    PrefixRuns(START, trace, k);
    RunIsSound(START, trace[..k]);
    if k > 0 {
      UnexposedIsCalm(trace, issue, k - 1);
      PrefixRuns(START, trace, k - 1);
      assert !ExposedAt(trace, k - 1, issue);
      StepKeepsCalm(Perform(trace[..k - 1]), trace[k - 1], issue);
    } else {
      assert trace[..0] == [];
    }
  }

  /**
   For every run and every issue: some moment of the run can be continued, reading everything, to a
   second request exactly when one of the two events happened in it.
   */
  lemma RecreatedExactly(trace: seq<Action>, issue: nat)
    requires Performable(trace)
    ensures (exists k: nat :: k <= |trace| && Performable(trace[..k]) && MayRequestTwice(Perform(trace[..k]), issue))
       <==> exists k: nat :: ExposedAt(trace, k, issue)
  {
    if forall m: nat :: !ExposedAt(trace, m, issue) {
      forall k: nat | k <= |trace| && Performable(trace[..k]) ensures !MayRequestTwice(Perform(trace[..k]), issue) {
        UnexposedIsCalm(trace, issue, k);
        forall more ensures !ClearlyTwice(Perform(trace[..k]), more, issue) {
          if ClearlyTwice(Perform(trace[..k]), more, issue) {
            ClearRunKeepsCalm(Perform(trace[..k]), more, issue);
          }
        }
      }
    } else {
      var k := FirstExposure(trace, issue);
      UnexposedIsCalm(trace, issue, k);
      PrefixRuns(START, trace, k);
      ExposureLeadsTwice(Perform(trace[..k]), trace[k], issue);
      assert Performable(trace[..k + 1]) && MayRequestTwice(Perform(trace[..k + 1]), issue);
    }
  }

  lemma ExposureLeadsTwice(s: State, a: Action, issue: nat)
    requires Sound(s) && Calm(s, issue) && Enabled(s, a) && Exposes(s, a, issue)
    ensures MayRequestTwice(Do(s, a), issue)
  {
    var v := Do(s, a);
    ExposedExactly(s, a, issue);
    StepKeepsSound(s, a);
    LogGrows(s.log, v.log[|s.log|], issue);
    assert v.log == s.log + [v.log[|s.log|]];
    RequestedAgainExactly(v, issue);
  }

  lemma FirstExposure(trace: seq<Action>, issue: nat) returns (k: nat)
    requires Performable(trace) && exists m: nat :: ExposedAt(trace, m, issue)
    ensures ExposedAt(trace, k, issue) && forall m: nat :: m < k ==> !ExposedAt(trace, m, issue)
  {
    k := 0;
    while !ExposedAt(trace, k, issue)
      invariant forall m: nat :: m < k ==> !ExposedAt(trace, m, issue)
      invariant k <= |trace|
      decreases |trace| - k
    {
      var m: nat :| ExposedAt(trace, m, issue);
      assert m >= k;
      k := k + 1;
    }
  }

  /** A second request in a run comes after one of the two events. */
  lemma TwiceNeedsExposure(trace: seq<Action>, issue: nat)
    requires Performable(trace) && Twice(Perform(trace).log, issue)
    ensures exists k: nat :: ExposedAt(trace, k, issue)
  {
    assert trace[..|trace|] == trace;
    if forall m: nat :: !ExposedAt(trace, m, issue) {
      UnexposedIsCalm(trace, issue, |trace|);
    }
  }

  /**
   Over any ticks, crashes, power losses, failed writes and ambiguous replies in which no step
   misread a record of the issue in hand, an issue is asked for at most once.
   */
  lemma AtMostOnceCreation(trace: seq<Action>, issue: nat)
    requires Performable(trace) && AllClear(START, trace)
    ensures !Twice(Perform(trace).log, issue)
  {
    ClearRunKeepsCalm(START, trace, issue);
  }

  // ---- one run for each event ----

  lemma OneMore(s: State, trace: seq<Action>, t: State, a: Action, longer: seq<Action>)
    requires RunFrom(s, trace) == Some(t) && Enabled(t, a) && longer == trace + [a]
    ensures RunFrom(s, longer) == Some(Do(t, a))
  {
    Extends(s, trace, a);
  }

  /** The steps of a tick that creates a plan. */
  function TickSteps(c: Claim, document: nat, hidden: set<Claim>): seq<Action> {
    [Begin, Intend(c, document, hidden, Fine), Create(c, document)]
  }

  /** A tick that finds no readable record of the issue saves a durable intent and requests. */
  lemma TickRequests(s: State, c: Claim, document: nat, hidden: set<Claim>)
    requires !CoversIssue(s.live, hidden, c.issue)
    ensures var live := s.live[c := Record(Pending(c, document))];
            var log := s.log + [Ticked] + [Saved(c, live[c])] + [CreateRequest(c, document)];
            RunFrom(s, TickSteps(c, document, hidden)) == Some(State(live, {live}, log))
    ensures Requested(RunFrom(s, TickSteps(c, document, hidden)).value.log, c.issue)
    ensures Requested(s.log, c.issue) ==> Twice(RunFrom(s, TickSteps(c, document, hidden)).value.log, c.issue)
  {
    var pending := Saved(c, Record(Pending(c, document)));
    var all := TickSteps(c, document, hidden);
    var t := Do(s, Begin);
    var u := Do(t, all[1]);
    OneMore(s, [], s, Begin, all[..1]);
    OneMore(s, all[..1], t, all[1], all[..2]);
    OneMore(s, all[..2], u, all[2], all);
    LogGrows(s.log, Ticked, c.issue);
    LogGrows(s.log + [Ticked], pending, c.issue);
    LogGrows(s.log + [Ticked] + [pending], CreateRequest(c, document), c.issue);
  }

  /** First event: a record that one tick cannot read, on an issue whose text changed, is asked for twice. */
  lemma MisreadCreatesTwice()
    ensures var trace := TickSteps(Claim(1, 10), 7, {}) + TickSteps(Claim(1, 20), 8, {Claim(1, 10)});
            Performable(trace) && Twice(Perform(trace).log, 1)
  {
    var first, second := Claim(1, 10), Claim(1, 20);
    TickRequests(START, first, 7, {});
    TickRequests(Perform(TickSteps(first, 7, {})), second, 8, {first});
    RunJoins(START, TickSteps(first, 7, {}), TickSteps(second, 8, {first}));
  }

  /**
   Second event: a tick that cannot read the claim's file writes a workspace over the record and its
   planner fails; the next tick reads everything and asks again.
   */
  lemma OverwrittenCreatesTwice()
    ensures var c := Claim(1, 10);
            var trace := TickSteps(c, 7, {}) + [Begin, Prepare(c, true, Fine)] + TickSteps(c, 8, {});
            Performable(trace) && Twice(Perform(trace).log, 1)
  {
    var c := Claim(1, 10);
    var one, two := TickSteps(c, 7, {}), [Begin, Prepare(c, true, Fine)];
    TickRequests(START, c, 7, {});
    var s := Perform(one);
    Extends(s, [], Begin);
    assert [] + [Begin] == [Begin];
    Extends(s, [Begin], Prepare(c, true, Fine));
    assert [Begin] + [Prepare(c, true, Fine)] == two;
    RunJoins(START, one, two);
    LogGrows(s.log, Ticked, 1);
    LogGrows(s.log + [Ticked], Saved(c, Workspace), 1);
    var v := Perform(one + two);
    TickRequests(v, c, 8, {});
    RunJoins(START, one + two, TickSteps(c, 8, {}));
  }
}
