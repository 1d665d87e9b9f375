/**
 One concierge tick at a time (aflow/concierge.py:2470-2580, under the tick lock): load the
 private records, reconcile pending ones, select one action, and carry it out with at most one
 external mutation. Evidence, planner results, replies and faults are inputs.
 */
module ConciergeTicks {
  import opened Prelude
  import opened ConciergeDrafts

  datatype Content = Content(digest: nat, mentions: set<nat>)
  datatype PlanStatus = InTodo | Planned | NotPlanned

  /** One entry of the plan inventory, which holds a file once; revision 0 is a missing revision. */
  datatype Plan = Plan(path: Path, status: PlanStatus, revision: nat, content: Option<Content>)

  /** An issue of the repository; owned: open and written by the owner; source None: text has no hash. */
  datatype Issue = Issue(number: nat, source: Option<nat>, owned: bool, created: nat)

  /** What triage selects before it looks for issues without a plan. */
  datatype Earlier = Hold | Mutate | PromotePlan(path: Path, revision: nat)
  datatype Evidence = Evidence(plans: seq<Plan>, issues: seq<Issue>, earlier: Option<Earlier>)
  datatype Decision = Select(choice: Earlier) | CreatePlan(issue: nat) | Report

  type Drafts = map<Path, Draft>

  predicate Mentioned(p: Plan, issue: nat) {
    p.status != NotPlanned && p.content.Some? && issue in p.content.value.mentions
  }

  predicate Covered(drafts: Drafts, issue: nat) {
    exists p | p in drafts :: drafts[p].claim.issue == issue
  }

  predicate Unplanned(e: Evidence, drafts: Drafts, i: Issue) {
    i.owned && !Covered(drafts, i.number) && forall p | p in e.plans :: !Mentioned(p, i.number)
  }

  predicate Older(a: Issue, b: Issue) {
    a.created < b.created || (a.created == b.created && a.number < b.number)
  }

  predicate DocumentMissing(e: Evidence) {
    exists p | p in e.plans :: p.status != NotPlanned && p.content.None?
  }

  /** The issue is the oldest of the owner's that no plan mentions and no record covers. */
  predicate Chosen(e: Evidence, drafts: Drafts, n: nat) {
    && e.earlier.None? && !DocumentMissing(e)
    && exists i | i in e.issues ::
         && i.number == n && Unplanned(e, drafts, i)
         && forall j | j in e.issues && Unplanned(e, drafts, j) :: !Older(j, i)
  }

  /**
   Chosen in full: no plan of the lists lacks its content, and of the owner's issues that no record is
   about and no listed plan mentions, this one is the first by creation and then by number.
   */
  lemma ChosenExactly(e: Evidence, drafts: Drafts, n: nat)
    ensures Chosen(e, drafts, n) <==>
              && e.earlier == None && (forall p | p in e.plans && p.status in {InTodo, Planned} :: p.content != None)
              && exists i | i in e.issues ::
                   && i.number == n && Open(e, drafts, i)
                   && forall j | j in e.issues && Open(e, drafts, j) ::
                        i.created < j.created || (i.created == j.created && i.number <= j.number)
  {
    forall i ensures Open(e, drafts, i) <==> Unplanned(e, drafts, i) {
      assert forall p | p in e.plans && !Mentioned(p, i.number) ::
          p.status in {InTodo, Planned} && p.content.Some? ==> i.number !in p.content.value.mentions;
    }
    assert forall p | p in e.plans :: p.status == NotPlanned || p.status in {InTodo, Planned};
  }

  predicate Open(e: Evidence, drafts: Drafts, i: Issue) {
    && i.owned && (forall q | q in drafts :: drafts[q].claim.issue != i.number)
    && forall p | p in e.plans && p.status in {InTodo, Planned} && p.content.Some? ::
         i.number !in p.content.value.mentions
  }

  /** triage_tick, with everything before the search for unplanned issues as an input. */
  method Triage(e: Evidence, drafts: Drafts) returns (d: Decision)
    ensures d.Select? <==> e.earlier.Some?
    ensures d.Select? ==> d.choice == e.earlier.value
    ensures d.CreatePlan? ==> Chosen(e, drafts, d.issue)
    ensures d.Report? ==> DocumentMissing(e) || forall i | i in e.issues :: !Unplanned(e, drafts, i)
  {
    if e.earlier.Some? {
      return Select(e.earlier.value);
    }
    var oldest: Option<Issue> := None;
    for k := 0 to |e.issues|
      invariant oldest.None? ==> forall j | 0 <= j < k :: !Unplanned(e, drafts, e.issues[j])
      invariant oldest.Some? ==> oldest.value in e.issues && Unplanned(e, drafts, oldest.value)
      invariant oldest.Some? ==>
                  forall j | 0 <= j < k && Unplanned(e, drafts, e.issues[j]) :: !Older(e.issues[j], oldest.value)
    {
      var i := e.issues[k];
      if Unplanned(e, drafts, i) && (oldest.None? || Older(i, oldest.value)) {
        oldest := Some(i);
      }
    }
    if oldest.None? || DocumentMissing(e) {
      return Report;
    }
    d := CreatePlan(oldest.value.number);
  }

  /** Loaded drafts are visible readable records under their own paths. */
  predicate Loaded(live: Files, hidden: set<Claim>, drafts: Drafts) {
    forall p | p in drafts ::
      && IsRecord(live, drafts[p].claim) && live[drafts[p].claim].draft == drafts[p]
      && drafts[p].claim !in hidden && drafts[p].path == p
  }

  predicate LoadedAll(live: Files, hidden: set<Claim>, drafts: Drafts) {
    forall c | c in live && IsRecord(live, c) && c !in hidden :: live[c].draft.path in drafts
  }

  /** Two records of one path are about one issue, so keying by path loses no issue. */
  lemma LoadCoversIssues(live: Files, hidden: set<Claim>, drafts: Drafts)
    requires WellFormed(live) && Loaded(live, hidden, drafts) && LoadedAll(live, hidden, drafts)
    ensures forall n :: Covered(drafts, n) <==> CoversIssue(live, hidden, n)
  {
    forall n | CoversIssue(live, hidden, n) ensures Covered(drafts, n) {
      var c :| c in live && IsRecord(live, c) && c.issue == n && c !in hidden;
      var p := live[c].draft.path;
      assert live[drafts[p].claim].draft.path == p;
      assert drafts[p].claim.issue == n;
    }
  }

  /** Chosen, said of the record files instead of what was loaded from them. */
  predicate Selected(e: Evidence, live: Files, hidden: set<Claim>, n: nat) {
    && e.earlier.None? && !DocumentMissing(e)
    && exists i | i in e.issues ::
         && i.number == n && Eligible(e, live, hidden, i)
         && forall j | j in e.issues && Eligible(e, live, hidden, j) :: !Older(j, i)
  }

  predicate Eligible(e: Evidence, live: Files, hidden: set<Claim>, i: Issue) {
    i.owned && !CoversIssue(live, hidden, i.number) && forall p | p in e.plans :: !Mentioned(p, i.number)
  }

  lemma ChosenIsSelected(e: Evidence, live: Files, hidden: set<Claim>, drafts: Drafts, n: nat)
    requires forall m :: Covered(drafts, m) <==> CoversIssue(live, hidden, m)
    ensures Chosen(e, drafts, n) <==> Selected(e, live, hidden, n)
  {
    assert forall i :: Unplanned(e, drafts, i) == Eligible(e, live, hidden, i);
  }

  class MutationBudget {
    var consumed: bool

    constructor ()
      ensures !consumed
    {
      consumed := false;
    }

    /** False is the source's mutation_budget_exhausted. */
    method Consume() returns (granted: bool)
      modifies this
      ensures consumed && granted == !old(consumed)
    {
      granted := !consumed;
      consumed := true;
    }
  }

  /** What the create and promote calls and the read-backs after an ambiguous one show. */
  datatype Reply = Confirmed(revision: nat) | Ambiguous(proven: Option<nat>)

  /**
   The world a tick meets: evidence and unreadable files at its loads, what reading the claim's
   file gives, the plan the planner writes (None: it fails or asks), and the reply. Each None or
   refusing value stands for the reports the source returns there.
   */
  datatype Scene = Scene(
    first: Evidence, firstHidden: set<Claim>,
    defect: bool,
    second: Evidence, secondHidden: set<Claim>,
    misread: bool, document: Option<nat>, review: Evidence,
    third: Evidence, thirdHidden: set<Claim>,
    faults: seq<Fault>, reply: Reply)

  /** The reads that matter see everything: the claim's file and the load before the write. */
  predicate Readable(scene: Scene) { !scene.misread && scene.thirdHidden == {} }

  /** The first entry for a plan file. */
  function FirstPlan(plans: seq<Plan>, file: Identity): (r: Option<Plan>)
    ensures r.Some? ==> r.value in plans && r.value.path.file == file
    ensures r.None? ==> forall p | p in plans :: p.path.file != file
  {
    if plans == [] then None
    else if plans[0].path.file == file then Some(plans[0])
    else FirstPlan(plans[1..], file)
  }

  function FirstIssue(issues: seq<Issue>, n: nat): (r: Option<Issue>)
    ensures r.Some? ==> r.value in issues && r.value.number == n
    ensures r.None? ==> forall i | i in issues :: i.number != n
  {
    if issues == [] then None
    else if issues[0].number == n then Some(issues[0])
    else FirstIssue(issues[1..], n)
  }

  function OwnedIssues(issues: seq<Issue>): (r: seq<Issue>)
    ensures forall i :: i in r <==> i in issues && i.owned
  {
    if issues == [] then [] else (if issues[0].owned then [issues[0]] else []) + OwnedIssues(issues[1..])
  }

  /**
   The evidence proves a pending draft created: its todo file holds exactly the recorded document
   at a known revision, the issue is open with the recorded text, and no other plan mentions it.
   */
  predicate ProvesCreated(e: Evidence, d: Draft) {
    var plan := FirstPlan(e.plans, d.path.file);
    var issue := FirstIssue(OwnedIssues(e.issues), d.claim.issue);
    && plan.Some? && plan.value.status == InTodo && plan.value.revision != 0
    && plan.value.content.Some? && plan.value.content.value.digest == d.document
    && issue.Some? && issue.value.source == Some(d.claim.source)
    && forall p | p in e.plans && p.path != plan.value.path :: !Mentioned(p, d.claim.issue)
  }

  /** What the proof of a creation says, over evidence that lists each plan file and each issue once. */
  lemma ProvesCreatedExactly(e: Evidence, d: Draft)
    requires forall p, q | p in e.plans && q in e.plans && p.path.file == q.path.file :: p == q
    requires forall i, j | i in e.issues && j in e.issues && i.number == j.number :: i == j
    ensures ProvesCreated(e, d) <==>
              && (exists p | p in e.plans ::
                    && p.path.file == d.path.file && p.status == InTodo && p.revision != 0
                    && p.content.Some? && p.content.value.digest == d.document)
              && (exists i | i in e.issues :: i.number == d.claim.issue && i.owned && i.source == Some(d.claim.source))
              && (forall p | p in e.plans && p.path.file != d.path.file
                             && p.status in {InTodo, Planned} && p.content.Some? ::
                    d.claim.issue !in p.content.value.mentions)
  {
    var plan := FirstPlan(e.plans, d.path.file);
    assert forall p | p in e.plans :: Mentioned(p, d.claim.issue) <==>
                                        p.status in {InTodo, Planned} && p.content.Some?
                                        && d.claim.issue in p.content.value.mentions;
    if plan.Some? {
      assert forall p | p in e.plans :: p.path != plan.value.path <==> p.path.file != d.path.file;
    }
  }

  /** What the checks after planning ask, on evidence gathered anew. */
  predicate StillWanted(live: Files, scene: Scene, c: Claim) {
    var current := FirstIssue(scene.review.issues, c.issue);
    && current.Some? && current.value.owned && current.value.source == Some(c.source)
    && (forall p | p in scene.review.plans :: !Mentioned(p, c.issue))
    && Selected(scene.third, live, scene.thirdHidden, c.issue)
  }

  /** Two states of the record files hold records for the same claims. */
  ghost predicate SameRecords(a: Files, b: Files) {
    forall k :: IsRecord(a, k) <==> IsRecord(b, k)
  }

  /** A tick that reads everything it needs and wants this issue at every check. */
  predicate Wanted(live: Files, scene: Scene, n: nat) {
    var issue := FirstIssue(scene.second.issues, n);
    && Selected(scene.second, live, scene.secondHidden, n)
    && issue.Some? && issue.value.source.Some?
    && var c := Claim(n, issue.value.source.value);
       && !scene.misread && !IsRecord(live, c) && scene.document.Some?
       && StillWanted(live, scene, c)
  }

  /** And the reply, or the read-back after it, proves a revision. */
  predicate Favourable(live: Files, scene: Scene, n: nat) {
    Wanted(live, scene, n) && Proven(scene.reply)
  }

  predicate Proven(r: Reply) {
    match r case Confirmed(revision) => revision != 0 case Ambiguous(proven) => proven.Some? && proven != Some(0)
  }

  /** Every readable record under the path is a created draft under its own path, and there is one. */
  predicate Promotable(live: Files, hidden: set<Claim>, path: Path) {
    && (exists c | c in live :: Shown(live, hidden, c, path))
    && forall c | c in live && Shown(live, hidden, c, path) ::
         live[c].draft.status == Created && path == Path(Todo(c.issue), 0)
  }

  predicate Shown(live: Files, hidden: set<Claim>, c: Claim, path: Path) {
    IsRecord(live, c) && c !in hidden && live[c].draft.path == path
  }

  /** The second look selects the same promotion, of a known revision. */
  predicate Confirms(scene: Scene, path: Path, revision: nat) {
    revision != 0 && scene.second.earlier == Some(PromotePlan(path, revision))
  }

  /** The log gained the request to promote this claim's plan, and the reply decides the outcome. */
  ghost predicate Asked(
    before: seq<Event>, log: seq<Event>, live: Files, hidden: set<Claim>, path: Path, revision: nat,
    scene: Scene, outcome: Outcome)
  {
    exists c, k | c in live && |before| <= k < |log| ::
      && Shown(live, hidden, c, path) && log[k] == PromoteRequest(c, revision)
      && outcome == if scene.reply == Ambiguous(None) then Reported else PlanPromoted(c)
  }

  /** Asked, with the claim known by its path alone. */
  ghost predicate Promoting(
    scene: Scene, path: Path, revision: nat, before: seq<Event>, log: seq<Event>, outcome: Outcome)
  {
    exists c: Claim, k | |before| <= k < |log| ::
      && path == Path(Todo(c.issue), 0) && log[k] == PromoteRequest(c, revision)
      && outcome == if scene.reply == Ambiguous(None) then Reported else PlanPromoted(c)
  }

  /** The only records reconciliation changes are pending ones, which become created ones in their todo file. */
  ghost predicate OnlyCreates(a: Files, b: Files) {
    && SameRecords(a, b)
    && forall k | IsRecord(a, k) && b[k] != a[k] ::
         && a[k].draft.status == CreatePending && b[k].draft.status == Created
         && b[k].draft.path.file == Todo(k.issue)
  }

  lemma OnlyCreatesJoins(a: Files, b: Files, c: Files)
    requires OnlyCreates(a, b) && OnlyCreates(b, c)
    ensures OnlyCreates(a, c)
  {
  }

  lemma PromotableStays(a: Files, b: Files, hidden: set<Claim>, path: Path)
    requires OnlyCreates(a, b) && Promotable(a, hidden, path)
    ensures Promotable(b, hidden, path)
  {
    var c :| c in a && Shown(a, hidden, c, path);
    assert Shown(b, hidden, c, path);
    forall k | k in b && Shown(b, hidden, k, path)
      ensures b[k].draft.status == Created && path == Path(Todo(k.issue), 0)
    {
      assert IsRecord(a, k);
      assert b[k] == a[k] ==> Shown(a, hidden, k, path);
    }
  }

  lemma SameRecordsSelectSame(e: Evidence, a: Files, b: Files, hidden: set<Claim>, n: nat)
    requires SameRecords(a, b)
    ensures Selected(e, a, hidden, n) <==> Selected(e, b, hidden, n)
  {
    forall m ensures CoversIssue(a, hidden, m) <==> CoversIssue(b, hidden, m) {
      SameRecordsCoverSame(a, b, hidden, m);
      SameRecordsCoverSame(b, a, hidden, m);
    }
    assert forall i :: Eligible(e, a, hidden, i) <==> Eligible(e, b, hidden, i);
  }

  lemma SameRecordsCoverSame(a: Files, b: Files, hidden: set<Claim>, issue: nat)
    requires SameRecords(a, b)
    ensures CoversIssue(a, hidden, issue) ==> CoversIssue(b, hidden, issue)
  {
    if CoversIssue(a, hidden, issue) {
      var c :| c in a && IsRecord(a, c) && c.issue == issue && c !in hidden;
      assert IsRecord(b, c);
    }
  }

  lemma SameRecordsFavourSame(a: Files, b: Files, scene: Scene, n: nat)
    requires SameRecords(a, b) && Favourable(a, scene, n)
    ensures Favourable(b, scene, n)
  {
    SameRecordsSelectSame(scene.second, a, b, scene.secondHidden, n);
    SameRecordsSelectSame(scene.third, a, b, scene.thirdHidden, n);
  }

  /** The revision that the reply, or the read-back after it, proves. */
  function ProvenRevision(r: Reply): nat {
    match r case Confirmed(revision) => revision case Ambiguous(Some(revision)) => revision case Ambiguous(None) => 0
  }

  /** The drafts after reconciliation, rest untouched: the visible records, proven ones created. */
  predicate ReconciledFrom(loaded: Drafts, rest: set<Path>, drafts: Drafts, e: Evidence, live: Files) {
    && drafts.Keys == loaded.Keys
    && forall p | p in loaded :: Reconciled(loaded[p], p in rest, drafts[p], e, live)
  }

  predicate Reconciled(before: Draft, waiting: bool, after: Draft, e: Evidence, live: Files) {
    && after.claim == before.claim && Lookup(live, before.claim) == Some(Record(after))
    && if !waiting && before.status == CreatePending && ProvesCreated(e, before) then after.status == Created
       else after == before
  }

  /** Reconciliation changes no claim, so the selection stays the one the record files give. */
  lemma ReconciledChoosesSame(e: Evidence, live: Files, hidden: set<Claim>, loaded: Drafts, drafts: Drafts, n: nat)
    requires forall m :: Covered(loaded, m) <==> CoversIssue(live, hidden, m)
    requires drafts.Keys == loaded.Keys && forall p | p in loaded :: drafts[p].claim == loaded[p].claim
    ensures Selected(e, live, hidden, n) <==> Chosen(e, drafts, n)
  {
    forall m ensures Covered(drafts, m) <==> CoversIssue(live, hidden, m) {
      if Covered(loaded, m) {
        var p :| p in loaded && loaded[p].claim.issue == m;
        assert p in drafts && drafts[p].claim.issue == m;
      }
      if Covered(drafts, m) {
        var p :| p in drafts && drafts[p].claim.issue == m;
        assert p in loaded && loaded[p].claim.issue == m;
      }
    }
    ChosenIsSelected(e, live, hidden, drafts, n);
  }

  predicate ClaimsApart(drafts: Drafts) {
    forall p, q | p in drafts && q in drafts && drafts[p].claim == drafts[q].claim :: p == q
  }

  lemma ReconcileOne(loaded: Drafts, rest: set<Path>, p: Path, drafts: Drafts, e: Evidence, live: Files,
                     updated: Option<Draft>)
    requires ReconciledFrom(loaded, rest, drafts, e, live) && ClaimsApart(loaded) && p in rest && p in loaded
    requires updated.Some? ==> updated.value.claim == loaded[p].claim && updated.value.status == Created
    requires updated.Some? <==> loaded[p].status == CreatePending && ProvesCreated(e, loaded[p])
    ensures updated.None? ==> ReconciledFrom(loaded, rest - {p}, drafts, e, live)
    ensures updated.Some? ==>
              ReconciledFrom(loaded, rest - {p}, drafts[p := updated.value], e,
                             live[loaded[p].claim := Record(updated.value)])
  {
    if updated.Some? {
      var c, d := loaded[p].claim, updated.value;
      assert Reconciled(loaded[p], false, d, e, live[c := Record(d)]);
      forall q | q in loaded && q != p
        ensures Reconciled(loaded[q], q in rest - {p}, drafts[q], e, live[c := Record(d)])
      {
        assert loaded[q].claim != c;
      }
    }
  }

  datatype Outcome = Reported | Mutated | PlanCreated(claim: Claim) | PlanPromoted(claim: Claim)

  predicate Promotes(d: Decision) { d.Select? && d.choice.PromotePlan? }

  datatype Input = Tick(scene: Scene) | PowerCut(after: Files)

  predicate IsRequest(e: Event) { e.CreateRequest? || e.PromoteRequest? || e.OtherRequest? }

  ghost predicate NoRequest(log: seq<Event>, from: nat) {
    forall k | from <= k < |log| :: !IsRequest(log[k])
  }

  ghost predicate OneRequest(log: seq<Event>, from: nat) {
    forall i, j | from <= i < j < |log| :: !(IsRequest(log[i]) && IsRequest(log[j]))
  }

  class ConciergeTickExecutor {
    var live: Files
    var kept: set<Files>
    var log: seq<Event>
    var faults: seq<Fault>
    ghost var trace: seq<Action>

    constructor ()
      ensures Valid() && trace == []
    {
      live, kept, log, faults, trace := map[], {map[]}, [], [], [];
    }

    ghost function Now(): State
      reads this
    {
      State(live, kept, log)
    }

    /** The state is what the recorded steps lead to, each of them allowed where it was taken. */
    ghost predicate Valid()
      reads this
    {
      Performable(trace) && Perform(trace) == Now()
    }

    /** Now and whatever a power loss leaves, this draft is the record of the claim. */
    ghost predicate Durable(c: Claim, d: Draft)
      reads this
    {
      Lookup(live, c) == Some(Record(d)) && forall f | f in kept :: Lookup(f, c) == Some(Record(d))
    }

    ghost predicate Clean()
      reads this
      requires Valid()
    {
      AllClear(START, trace)
    }

    method NextFault() returns (fault: Fault)
      requires Valid()
      modifies this`faults
      ensures fault == if old(faults) == [] then Fine else old(faults)[0]
      ensures faults == if old(faults) == [] then [] else old(faults)[1..]
    {
      if faults == [] {
        return Fine;
      }
      fault := faults[0];
      faults := faults[1..];
    }

    /** _persist_concierge_draft and the planner's workspace save; false: it raised or the process died. */
    method Save(c: Claim, f: File, fault: Fault, ghost a: Action) returns (saved: bool)
      requires Valid() && Enabled(Now(), a) && Do(Now(), a) == AfterSave(Now(), c, f, fault)
      modifies this
      ensures Valid() && trace == old(trace) + [a] && Now() == AfterSave(old(Now()), c, f, fault)
      ensures saved == (fault == Fine) && faults == old(faults)
      ensures old(Clean()) && Clear(old(Now()), a) ==> Clean()
    {
      ExtendsClear(START, trace, a);
      saved := fault == Fine;
      match fault {
        case Fine =>
          live := live[c := f];
          kept, log := {live}, log + [Saved(c, f)];
        case Lost =>
          log := log + [Unsaved(c)];
        case Unsynced =>
          live := live[c := f];
          kept, log := kept + {live}, log + [Unsaved(c)];
      }
      trace := trace + [a];
    }

    method Note(e: Event, ghost a: Action)
      requires Valid() && Enabled(Now(), a) && Do(Now(), a) == Logged(Now(), e)
      modifies this
      ensures Valid() && trace == old(trace) + [a] && Now() == Logged(old(Now()), e) && faults == old(faults)
      ensures old(Clean()) && Clear(old(Now()), a) ==> Clean()
    {
      ExtendsClear(START, trace, a);
      log, trace := log + [e], trace + [a];
    }

    /** _load_concierge_drafts: every readable record, under its plan path. */
    method LoadDrafts(hidden: set<Claim>) returns (drafts: Drafts)
      requires Valid()
      ensures Loaded(live, hidden, drafts) && LoadedAll(live, hidden, drafts)
      ensures forall n :: Covered(drafts, n) <==> CoversIssue(live, hidden, n)
    {
      RunIsSound(START, trace);
      drafts := map[];
      var rest := live.Keys;
      while rest != {}
        invariant rest <= live.Keys
        invariant Loaded(live, hidden + rest, drafts) && LoadedAll(live, hidden + rest, drafts)
      {
        var c :| c in rest;
        rest := rest - {c};
        if c !in hidden && live[c].Record? {
          drafts := drafts[live[c].draft.path := live[c].draft];
        }
      }
      assert hidden + rest == hidden;
      LoadCoversIssues(live, hidden, drafts);
    }

    /** _reconcile_pending_create; ended: the save raised or the process died. */
    method ReconcilePendingCreate(record: Draft, e: Evidence) returns (updated: Option<Draft>, ended: bool)
      requires Valid() && IsRecord(live, record.claim) && live[record.claim].draft == record
      requires record.status == CreatePending
      modifies this
      ensures Valid() && old(trace) <= trace && old(log) <= log && NoRequest(log, |old(log)|)
      ensures old(Clean()) ==> Clean()
      ensures old(faults) == [] ==> !ended && faults == []
      ensures OnlyCreates(old(live), live)
      ensures !ended ==> updated.Some? == ProvesCreated(e, record)
      ensures !ended ==>
                live == match updated case Some(d) => old(live)[record.claim := Record(d)] case None => old(live)
      ensures updated.Some? ==>
                && kept == {live} && updated.value.claim == record.claim && updated.value.document == record.document
                && updated.value.status == Created && updated.value.path.file == Todo(record.claim.issue)
    {
      updated, ended := None, false;
      if ProvesCreated(e, record) {
        var plan := FirstPlan(e.plans, record.path.file).value;
        RunIsSound(START, trace);
        var fault := NextFault();
        var d := Advanced(record, plan.path, plan.revision, Created);
        var saved := Save(record.claim, Record(d), fault,
                          Advance(record.claim, plan.path, plan.revision, Created, fault));
        if !saved {
          return None, true;
        }
        updated := Some(d);
      }
    }

    /** One round of the loop below. */
    method ReconcileAt(p: Path, drafts: Drafts, e: Evidence, ghost loaded: Drafts, ghost rest: set<Path>)
      returns (next: Drafts, ended: bool)
      requires Valid() && ReconciledFrom(loaded, rest, drafts, e, live) && ClaimsApart(loaded)
      requires p in rest && p in loaded
      modifies this
      ensures Valid() && old(trace) <= trace && old(log) <= log && NoRequest(log, |old(log)|)
      ensures old(Clean()) ==> Clean()
      ensures old(faults) == [] ==> !ended && faults == []
      ensures OnlyCreates(old(live), live)
      ensures !ended ==> ReconciledFrom(loaded, rest - {p}, next, e, live)
    {
      next, ended := drafts, false;
      var updated: Option<Draft> := None;
      ghost var before := live;
      if drafts[p].status == CreatePending {
        updated, ended := ReconcilePendingCreate(drafts[p], e);
        if ended {
          return;
        }
      }
      ReconcileOne(loaded, rest, p, drafts, e, before, updated);
      if updated.Some? {
        next := drafts[p := updated.value];
      }
    }

    /** _reconcile_pending_creates: every pending draft the evidence proves is created; coverage stays. */
    method ReconcilePendingCreates(loaded: Drafts, e: Evidence, ghost hidden: set<Claim>)
      returns (drafts: Drafts, ended: bool)
      requires Valid() && Loaded(live, hidden, loaded)
      modifies this
      ensures Valid() && old(trace) <= trace && old(log) <= log && NoRequest(log, |old(log)|)
      ensures old(Clean()) ==> Clean()
      ensures old(faults) == [] ==> !ended && faults == []
      ensures OnlyCreates(old(live), live)
      ensures !ended ==> ReconciledFrom(loaded, {}, drafts, e, live)
    {
      drafts, ended := loaded, false;
      var rest := loaded.Keys;
      ghost var start := live;
      assert ClaimsApart(loaded);
      while rest != {}
        invariant Valid() && old(trace) <= trace && old(log) <= log && NoRequest(log, |old(log)|)
        invariant old(Clean()) ==> Clean()
        invariant old(faults) == [] ==> !ended && faults == []
        invariant OnlyCreates(start, live)
        invariant rest <= loaded.Keys && ReconciledFrom(loaded, rest, drafts, e, live)
        decreases rest
      {
        var p :| p in rest;
        ghost var before := live;
        drafts, ended := ReconcileAt(p, drafts, e, loaded, rest);
        OnlyCreatesJoins(start, before, live);
        if ended {
          return;
        }
        rest := rest - {p};
      }
    }

    /**
     The checks of _execute_create_plan after the planner answered, up to the write: the budget
     is not touched, and the claim is returned only if no readable record covers the issue.
     */
    method Recheck(c: Claim, scene: Scene) returns (go: bool)
      requires Valid()
      ensures go <==> StillWanted(live, scene, c)
    {
      var current := FirstIssue(scene.review.issues, c.issue);
      if current.None? || !current.value.owned || exists p | p in scene.review.plans :: Mentioned(p, c.issue) {
        return false;
      }
      var drafts := LoadDrafts(scene.thirdHidden);
      var again := Triage(scene.third, drafts);
      ChosenIsSelected(scene.third, live, scene.thirdHidden, drafts, c.issue);
      go := again == CreatePlan(c.issue) && current.value.source == Some(c.source);
    }

    /** The planner's step: a draft in the claim's file stops the tick, a missing one is prepared. */
    method RunPlanner(c: Claim, scene: Scene) returns (document: Option<nat>)
      requires Valid()
      modifies this
      ensures Valid() && old(trace) <= trace && old(log) <= log && NoRequest(log, |old(log)|)
      ensures old(Clean()) && !scene.misread ==> Clean()
      ensures !scene.misread && IsRecord(old(live), c) ==> document.None? && Now() == old(Now())
      ensures !scene.misread && !IsRecord(old(live), c) && old(faults) == [] ==>
                document == scene.document && faults == []
      ensures document.Some? ==> document == scene.document
      ensures !IsRecord(old(live), c) ==> SameRecords(old(live), live)
    {
      if c !in live || scene.misread {
        var fault := NextFault();
        var saved := Save(c, Workspace, fault, Prepare(c, scene.misread, fault));
        if !saved {
          return None;
        }
      } else if live[c].Record? {
        return None;
      }
      document := scene.document;
    }

    /** After the reply: a proven revision is recorded as created, anything else stays pending. */
    method RecordCreated(c: Claim, document: nat, revision: nat) returns (outcome: Outcome)
      requires Valid() && IsRecord(live, c) && live[c].draft == Pending(c, document)
      modifies this
      ensures Valid() && old(trace) <= trace && old(log) <= log && NoRequest(log, |old(log)|)
      ensures old(Clean()) ==> Clean()
      ensures outcome == Reported || outcome == PlanCreated(c)
      ensures outcome == PlanCreated(c) ==>
                revision != 0 && Durable(c, Advanced(Pending(c, document), Path(Todo(c.issue), 0), revision, Created))
      ensures old(faults) == [] && revision != 0 ==> outcome == PlanCreated(c)
    {
      if revision == 0 {
        return Reported;
      }
      var fault := NextFault();
      var path := Path(Todo(c.issue), 0);
      var saved := Save(c, Record(Advanced(Pending(c, document), path, revision, Created)), fault,
                        Advance(c, path, revision, Created, fault));
      outcome := if saved then PlanCreated(c) else Reported;
    }

    /** The create request, right after the save of its pending record, and the reply. */
    method RequestCreation(c: Claim, document: nat, scene: Scene) returns (outcome: Outcome)
      requires Valid() && log != [] && log[|log| - 1] == Saved(c, Record(Pending(c, document)))
      requires Lookup(live, c) == Some(Record(Pending(c, document)))
      modifies this
      ensures Valid() && old(trace) <= trace && old(log) + [CreateRequest(c, document)] <= log
      ensures NoRequest(log, |old(log)| + 1)
      ensures old(Clean()) ==> Clean()
      ensures outcome == Reported || outcome == PlanCreated(c)
      ensures outcome == PlanCreated(c) ==>
                && Proven(scene.reply)
                && Durable(c, Advanced(Pending(c, document), Path(Todo(c.issue), 0),
                                       ProvenRevision(scene.reply), Created))
      ensures old(faults) == [] && Proven(scene.reply) ==> outcome == PlanCreated(c)
    {
      Note(CreateRequest(c, document), Create(c, document));
      outcome := RecordCreated(c, document, ProvenRevision(scene.reply));
    }

    /** From the durable intent to the reply; the create request is the only external mutation. */
    method CreateWithIntent(c: Claim, document: nat, scene: Scene, budget: MutationBudget) returns (outcome: Outcome)
      requires Valid() && !CoversIssue(live, scene.thirdHidden, c.issue)
      modifies this, budget
      ensures Valid() && old(trace) <= trace && old(log) <= log && OneRequest(log, |old(log)|)
      ensures old(Clean()) && scene.thirdHidden == {} ==> Clean()
      ensures old(budget.consumed) ==> Now() == old(Now())
      ensures !NoRequest(log, |old(log)|) ==> budget.consumed
      ensures outcome == Reported || outcome == PlanCreated(c)
      ensures outcome == PlanCreated(c) ==>
                && Proven(scene.reply)
                && Durable(c, Advanced(Pending(c, document), Path(Todo(c.issue), 0),
                                       ProvenRevision(scene.reply), Created))
                && |old(log)| + 1 < |log| && log[|old(log)| + 1] == CreateRequest(c, document)
      ensures !old(budget.consumed) && old(faults) == [] && Proven(scene.reply) ==> outcome == PlanCreated(c)
    {
      if budget.consumed {
        return Reported;
      }
      var fault := NextFault();
      var saved := Save(c, Record(Pending(c, document)), fault, Intend(c, document, scene.thirdHidden, fault));
      if !saved {
        return Reported;
      }
      var granted := budget.Consume();
      fault := NextFault();
      if !granted || fault != Fine {
        return Reported;
      }
      outcome := RequestCreation(c, document, scene);
    }

    /** _execute_create_plan. */
    method ExecuteCreatePlan(n: nat, scene: Scene, budget: MutationBudget) returns (outcome: Outcome)
      requires Valid()
      modifies this, budget
      ensures Valid() && old(trace) <= trace && old(log) <= log && OneRequest(log, |old(log)|)
      ensures old(Clean()) && Readable(scene) ==> Clean()
      ensures old(budget.consumed) ==> NoRequest(log, |old(log)|)
      ensures outcome == Reported || (outcome.PlanCreated? && outcome.claim.issue == n)
      ensures !old(budget.consumed) && old(faults) == [] && Favourable(old(live), scene, n) ==> outcome.PlanCreated?
      ensures outcome.PlanCreated? && !scene.misread ==> Favourable(old(live), scene, n)
      ensures outcome.PlanCreated? ==>
                && IsRecord(live, outcome.claim) && live[outcome.claim].draft.status == Created
                && Durable(outcome.claim, live[outcome.claim].draft)
    {
      ghost var before := live;
      var drafts := LoadDrafts(scene.secondHidden);
      var decision := Triage(scene.second, drafts);
      ChosenIsSelected(scene.second, live, scene.secondHidden, drafts, n);
      if decision != CreatePlan(n) {
        return Reported;
      }
      var issue := FirstIssue(scene.second.issues, n);
      if issue.None? || issue.value.source.None? {
        return Reported;
      }
      var c := Claim(n, issue.value.source.value);
      var document := RunPlanner(c, scene);
      if document.None? {
        return Reported;
      }
      if !IsRecord(before, c) {
        SameRecordsSelectSame(scene.third, before, live, scene.thirdHidden, n);
      }
      var go := Recheck(c, scene);
      if !go {
        return Reported;
      }
      outcome := CreateWithIntent(c, document.value, scene, budget);
    }

    /** The promote request and the record of a promotion the reply or the read-back proves. */
    method PromoteWithBudget(draft: Draft, revision: nat, scene: Scene, budget: MutationBudget)
      returns (outcome: Outcome)
      requires Valid() && Lookup(live, draft.claim) == Some(Record(draft)) && draft.status == Created
      modifies this, budget
      ensures Valid() && old(trace) <= trace && old(log) <= log && OneRequest(log, |old(log)|)
      ensures old(Clean()) ==> Clean()
      ensures old(budget.consumed) ==> Now() == old(Now())
      ensures outcome == Reported || outcome == PlanPromoted(draft.claim)
      ensures !old(budget.consumed) && old(faults) == [] ==>
                && |old(log)| < |log| && log[|old(log)|] == PromoteRequest(draft.claim, revision)
                && outcome == if scene.reply == Ambiguous(None) then Reported else PlanPromoted(draft.claim)
      ensures outcome.PlanPromoted? ==>
                && Durable(draft.claim, Advanced(draft, Path(InProgress(draft.claim.issue), 0), revision, Promoted))
                && |old(log)| < |log| && log[|old(log)|] == PromoteRequest(draft.claim, revision)
    {
      if budget.consumed {
        return Reported;
      }
      var granted := budget.Consume();
      var fault := NextFault();
      if !granted || fault != Fine {
        return Reported;
      }
      Note(PromoteRequest(draft.claim, revision), Promote(draft.claim, revision));
      if scene.reply == Ambiguous(None) {
        return Reported;
      }
      fault := NextFault();
      var promoted := Path(InProgress(draft.claim.issue), 0);
      var saved := Save(draft.claim, Record(Advanced(draft, promoted, revision, Promoted)), fault,
                        Advance(draft.claim, promoted, revision, Promoted, fault));
      outcome := if saved then PlanPromoted(draft.claim) else Reported;
    }

    /** _execute_promote_plan: only a created draft, under the path the concierge gave it. */
    method ExecutePromotePlan(path: Path, revision: nat, scene: Scene, budget: MutationBudget)
      returns (outcome: Outcome)
      requires Valid()
      modifies this, budget
      ensures Valid() && old(trace) <= trace && old(log) <= log && OneRequest(log, |old(log)|)
      ensures old(Clean()) ==> Clean()
      ensures outcome == Reported || outcome.PlanPromoted?
      ensures outcome.PlanPromoted? ==>
                && IsRecord(old(live), outcome.claim) && old(live)[outcome.claim].draft.status == Created
                && old(live)[outcome.claim].draft.path == path == Path(Todo(outcome.claim.issue), 0)
                && Durable(outcome.claim, Advanced(old(live)[outcome.claim].draft,
                                                   Path(InProgress(outcome.claim.issue), 0), revision, Promoted))
      ensures !Confirms(scene, path, revision) || old(budget.consumed) ==> outcome == Reported && Now() == old(Now())
      ensures !(exists c | c in old(live) :: Shown(old(live), scene.secondHidden, c, path)
                                             && old(live)[c].draft.status == Created) ==>
                outcome == Reported && Now() == old(Now())
      ensures !old(budget.consumed) && old(faults) == [] && Confirms(scene, path, revision)
              && Promotable(old(live), scene.secondHidden, path) ==>
                Asked(old(log), log, old(live), scene.secondHidden, path, revision, scene, outcome)
    {
      var drafts := LoadDrafts(scene.secondHidden);
      if path !in drafts || drafts[path].status != Created {
        return Reported;
      }
      var draft := drafts[path];
      assert Shown(live, scene.secondHidden, draft.claim, path);
      var again := Triage(scene.second, drafts);
      if again != Select(PromotePlan(path, revision)) || path != Path(Todo(draft.claim.issue), 0) || revision == 0 {
        return Reported;
      }
      outcome := PromoteWithBudget(draft, revision, scene, budget);
    }

    /** What execute does with its decision: at most one external mutation. */
    method CarryOut(decision: Decision, scene: Scene) returns (outcome: Outcome)
      requires Valid()
      modifies this
      ensures Valid() && old(trace) <= trace && old(log) <= log && OneRequest(log, |old(log)|)
      ensures old(Clean()) && Readable(scene) ==> Clean()
      ensures decision == Select(Hold) ==> outcome == Reported && Now() == old(Now())
      ensures decision.CreatePlan? && !scene.defect && old(faults) == []
              && Favourable(old(live), scene, decision.issue) ==>
                outcome.PlanCreated? && outcome.claim.issue == decision.issue
      ensures outcome.PlanCreated? ==> decision == CreatePlan(outcome.claim.issue)
      ensures outcome.PlanCreated? && !scene.misread ==> Favourable(old(live), scene, outcome.claim.issue)
      ensures decision != Select(Hold) && (scene.defect || decision == Select(Mutate)) ==>
                outcome == Mutated && log == old(log) + [OtherRequest] && live == old(live)
      ensures decision == Report && !scene.defect ==> outcome == Reported && Now() == old(Now())
      ensures Promotes(decision) && !scene.defect ==>
                var path, revision := decision.choice.path, decision.choice.revision;
                && (!Confirms(scene, path, revision) ==> outcome == Reported && Now() == old(Now()))
                && (old(faults) == [] && Confirms(scene, path, revision)
                    && Promotable(old(live), scene.secondHidden, path) ==>
                      Asked(old(log), log, old(live), scene.secondHidden, path, revision, scene, outcome))
    {
      if decision == Select(Hold) {
        return Reported;
      }
      var budget := new MutationBudget();
      if scene.defect || decision == Select(Mutate) {
        var granted := budget.Consume();
        if granted {
          Note(OtherRequest, Other);
        }
        return Mutated;
      }
      match decision
      case Select(PromotePlan(path, revision)) => outcome := ExecutePromotePlan(path, revision, scene, budget);
      case CreatePlan(n) => outcome := ExecuteCreatePlan(n, scene, budget);
      case _ => outcome := Reported;
    }

    /** The first half of a tick: load and reconcile the records, then select; None: a save ended the tick. */
    method Survey(scene: Scene) returns (decision: Option<Decision>)
      requires Valid()
      modifies this
      ensures Valid() && old(trace) <= trace && old(log) <= log && NoRequest(log, |old(log)|)
      ensures old(Clean()) ==> Clean()
      ensures scene.faults == [] ==> decision.Some? && faults == []
      ensures OnlyCreates(old(live), live)
      ensures decision.Some? && scene.first.earlier.Some? ==> decision.value == Select(scene.first.earlier.value)
      ensures forall n | decision.Some? && Selected(scene.first, old(live), scene.firstHidden, n) ::
                decision.value == CreatePlan(n)
      ensures decision.Some? && decision.value.CreatePlan? ==>
                Selected(scene.first, old(live), scene.firstHidden, decision.value.issue)
    {
      ghost var before := live;
      faults := scene.faults;
      Note(Ticked, Begin);
      var loaded := LoadDrafts(scene.firstHidden);
      var drafts, ended := ReconcilePendingCreates(loaded, scene.first, scene.firstHidden);
      if ended {
        return None;
      }
      var d := Triage(scene.first, drafts);
      forall n | Selected(scene.first, before, scene.firstHidden, n) ensures d == CreatePlan(n) {
        ReconciledChoosesSame(scene.first, before, scene.firstHidden, loaded, drafts, n);
      }
      if d.CreatePlan? {
        ReconciledChoosesSame(scene.first, before, scene.firstHidden, loaded, drafts, d.issue);
      }
      decision := Some(d);
    }

    /**
     One tick under the lock: at most one external mutation; the favoured issue gets its plan and the
     promotion both looks select is asked for.
     */
    method Execute(scene: Scene) returns (outcome: Outcome)
      requires Valid()
      modifies this
      ensures Valid() && old(trace) <= trace && old(log) <= log && OneRequest(log, |old(log)|)
      ensures old(Clean()) && Readable(scene) ==> Clean()
      ensures forall n | scene.faults == [] && !scene.defect && Selected(scene.first, old(live), scene.firstHidden, n)
                         && Favourable(old(live), scene, n) :: outcome.PlanCreated? && outcome.claim.issue == n
      ensures outcome.PlanCreated? && !scene.misread ==>
                && Selected(scene.first, old(live), scene.firstHidden, outcome.claim.issue)
                && Favourable(old(live), scene, outcome.claim.issue)
      ensures scene.first.earlier == Some(Hold) ==> outcome == Reported && NoRequest(log, |old(log)|)
      ensures scene.faults == [] && scene.first.earlier == Some(Mutate) ==>
                outcome == Mutated && log != [] && log[|log| - 1] == OtherRequest
      ensures !scene.defect && scene.first.earlier.Some? && scene.first.earlier.value.PromotePlan? ==>
                var path, revision := scene.first.earlier.value.path, scene.first.earlier.value.revision;
                && (!Confirms(scene, path, revision) ==> outcome == Reported && NoRequest(log, |old(log)|))
                && (scene.faults == [] && Confirms(scene, path, revision)
                    && Promotable(old(live), scene.secondHidden, path) ==>
                      Promoting(scene, path, revision, old(log), log, outcome))
    {
      ghost var before := live;
      var decision := Survey(scene);
      if decision.None? {
        return Reported;
      }
      forall n | Favourable(before, scene, n) ensures Favourable(live, scene, n) {
        SameRecordsFavourSame(before, live, scene, n);
      }
      forall n | Favourable(live, scene, n) ensures Favourable(before, scene, n) {
        SameRecordsFavourSame(live, before, scene, n);
      }
      if Promotes(decision.value) && Promotable(before, scene.secondHidden, decision.value.choice.path) {
        PromotableStays(before, live, scene.secondHidden, decision.value.choice.path);
      }
      outcome := CarryOut(decision.value, scene);
    }

    /** Power returns with each file as it was in some version since its last successful sync. */
    method LosePower(after: Files)
      requires Valid() && Survives(kept, after)
      modifies this
      ensures Valid() && old(trace) <= trace && old(log) <= log && live == after && kept == {after}
      ensures old(Clean()) ==> Clean()
    {
      ghost var a := PowerLoss(after);
      ExtendsClear(START, trace, a);
      live, kept, log, trace := after, {after}, log + [Restarted], trace + [a];
    }

    /**
     Any ticks and power losses: every create request follows the durable save of its pending record,
     a second request for an issue comes only after a workspace landed on its last record or a tick
     hid all of them, and when the deciding reads see every record there is none.
     */
    method Serve(inputs: seq<Input>)
      requires Valid() && trace == []
      modifies this
      ensures Valid() && Announced(log)
      ensures forall n | Twice(log, n) :: exists k: nat :: ExposedAt(trace, k, n)
      ensures (forall i | i in inputs && i.Tick? :: Readable(i.scene)) ==> forall n :: !Twice(log, n)
    {
      for k := 0 to |inputs|
        invariant Valid()
        invariant (forall i | i in inputs && i.Tick? :: Readable(i.scene)) ==> Clean()
      {
        RunIsSound(START, trace);
        VersionSurvives(kept, live);
        match inputs[k]
        case Tick(scene) => var _ := Execute(scene);
        case PowerCut(after) => LosePower(if Survives(kept, after) then after else live);
      }
      RequestFollowsItsRecord(trace);
      forall n | Twice(log, n) ensures exists k: nat :: ExposedAt(trace, k, n) {
        TwiceNeedsExposure(trace, n);
      }
      if (forall i | i in inputs && i.Tick? :: Readable(i.scene)) {
        forall n ensures !Twice(log, n) {
          AtMostOnceCreation(trace, n);
        }
      }
    }
  }
}
