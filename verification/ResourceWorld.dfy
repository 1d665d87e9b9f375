/**
 The broker in its environment: any number of controllers, provider processes with children,
 PID reuse, deaths, reboots, and reconcilers that sample without the lock and commit later.

 Assumptions, each a guard below: a provider is first spawned by a live controller whose lease
 marked the launch durably and did not complete it; a provider's processes share one group, the
 one the claim records if it records any; complete is called only when no provider process of
 that claim is left; each look of a reconciliation is sound at its own moment; a process identity
 (pid, birth, boot) is never reused.
 */
module ResourceWorld {
  import opened Prelude
  import opened ResourceJournal
  import opened ResourceOrder

  datatype Licence = Licence(controller: Identity, invocation: string)
  datatype Provider = Provider(licence: Licence, group: int)

  /**
   A reconciliation in progress: the journal it read, the claims whose controller and then whose child
   it found gone, and the claims it will remove.
   */
  datatype Sample = Sample(base: Journal, controllers: set<string>, children: set<string>, removed: set<string>)

  datatype World = World(
    journal: Journal,
    published: set<Journal>,
    boot: string,
    boots: set<string>,
    alive: set<Identity>,
    seen: set<Identity>,
    licences: set<Licence>,
    providers: map<Identity, Provider>,
    samples: map<int, Sample>)

  datatype Step =
    | Request(op: Op, written: bool)
    | Launch(licence: Licence, written: bool, reported: bool)
    | Finish(licence: Licence, written: bool)
    | StartProcess(p: Identity)
    | SpawnProvider(licence: Licence, p: Identity, group: int)
    | ForkProvider(parent: Identity, p: Identity)
    | Die(p: Identity)
    | BeginSample(id: int)
    | ProbeController(id: int, claim: Claim, running: Option<string>, evidence: ProcessEvidence)
    | ProbeChild(id: int, claim: Claim, evidence: ProcessEvidence)
    | ProbeGroup(id: int, claim: Claim, presence: GroupEvidence)
    | CommitSample(id: int, reason: Reason, written: bool)
    | Reboot(boot: string, journal: Journal)

  predicate Fresh(w: World, p: Identity) {
    p !in w.seen && p.boot == w.boot && p.pid >= 1 && p.birth != "" && p.boot != ""
    && forall q | q in w.alive :: q.pid != p.pid
  }

  /** The claim of this licence owns the resource and may have a provider. */
  predicate Occupies(j: Journal, l: Licence) {
    && j.owner.Some? && j.owner.value.Invocation() == l.invocation && j.owner.value.controller == l.controller
    && j.owner.value.status in {Launching, Running, Unconfirmed}
  }

  predicate HasProvider(w: World, l: Licence) {
    exists p | p in w.providers :: w.providers[p].licence == l
  }

  predicate InGroup(w: World, l: Licence, group: Option<int>) {
    group.Some? ==> forall p | p in w.providers && w.providers[p].licence == l :: w.providers[p].group == group.value
  }

  predicate SoundProcess(w: World, pid: int, e: ProcessEvidence) {
    && (e.liveness == Absent ==> forall q | q in w.alive :: q.pid != pid)
    && (e.liveness == Present && e.birth.Some? ==> exists q | q in w.alive :: q.pid == pid && q.birth == e.birth.value)
  }

  predicate SoundGroup(w: World, c: Claim, g: GroupEvidence) {
    g == GroupAbsent ==>
      c.processGroup.Some? && forall q | q in w.providers :: w.providers[q].group != c.processGroup.value
  }

  // ---- the three looks at one claim, in the order the source takes them ----

  function SawController(s: Sample, c: Claim, running: Option<string>, e: ProcessEvidence): Sample {
    if running.Some? && c.controller.boot != running.value then s.(removed := s.removed + {c.Invocation()})
    else if !ShowsGone(e, Some(c.controller.birth)) then s
    else if c.status in {Queued, Reserved} then s.(removed := s.removed + {c.Invocation()})
    else s.(controllers := s.controllers + {c.Invocation()})
  }

  function SawChild(s: Sample, c: Claim, e: ProcessEvidence): Sample {
    if c.Invocation() in s.controllers && c.childPid.Some? && ShowsGone(e, c.childBirth) then
      s.(children := s.children + {c.Invocation()})
    else s
  }

  function SawGroup(s: Sample, c: Claim, g: GroupEvidence): Sample {
    if c.Invocation() in s.children && g == GroupAbsent then s.(removed := s.removed + {c.Invocation()}) else s
  }

  /** The three looks together remove a claim exactly when the decision on their evidence does. */
  lemma LooksDecide(s: Sample, c: Claim, p: Probes)
    requires c.Invocation() !in s.controllers + s.children + s.removed
    ensures var looked := SawGroup(SawChild(SawController(s, c, p.boot, p.controller), c, p.child), c, p.group);
            c.Invocation() in looked.removed <==> ReconcileClaim(c, p)
  {
  }

  predicate Can(w: World, s: Step) {
    match s
    case Request(op, _) =>
      && (op.Enqueue? || op.TryAcquire? || op.Cancel? || op.RegisterChild? || op.MarkUnconfirmed?)
      && op.who in w.alive
      && (op.RegisterChild? ==> InGroup(w, Licence(op.who, op.invocation), op.group))
    case Launch(l, written, reported) =>
      && l.controller in w.alive && (reported ==> written)
      && (reported ==> Decide(w.journal, MarkLaunching(l.invocation, l.controller)).outcome.state == WasLaunching)
    case Finish(l, _) => l.controller in w.alive && !HasProvider(w, l)
    case StartProcess(p) => Fresh(w, p)
    case SpawnProvider(l, p, group) =>
      && l in w.licences && l.controller in w.alive && Fresh(w, p)
      && (Occupies(w.journal, l) && w.journal.owner.value.processGroup.Some?
          ==> group == w.journal.owner.value.processGroup.value)
    case ForkProvider(parent, p) => parent in w.providers && Fresh(w, p)
    case Die(p) => p in w.alive
    case BeginSample(_) => true
    case ProbeController(id, claim, running, evidence) =>
      && id in w.samples && claim in Claims(w.samples[id].base)
      && (running.Some? ==> running.value == w.boot) && SoundProcess(w, claim.controller.pid, evidence)
    case ProbeChild(id, claim, evidence) =>
      && id in w.samples && claim in Claims(w.samples[id].base)
      && (claim.childPid.Some? ==> SoundProcess(w, claim.childPid.value, evidence))
    case ProbeGroup(id, claim, group) =>
      id in w.samples && claim in Claims(w.samples[id].base) && SoundGroup(w, claim, group)
    case CommitSample(id, _, _) => id in w.samples
    case Reboot(boot, journal) => boot !in w.boots && boot != "" && journal in w.published
  }

  function WithJournal(w: World, op: Op, written: bool): World {
    var j := if written then Apply(w.journal, op) else w.journal;
    w.(journal := j, published := w.published + {j})
  }

  function Born(w: World, p: Identity): World {
    w.(alive := w.alive + {p}, seen := w.seen + {p})
  }

  function Do(w: World, s: Step): World
    requires Can(w, s)
  {
    match s
    case Request(op, written) => WithJournal(w, op, written)
    case Launch(l, written, reported) =>
      var v := WithJournal(w, MarkLaunching(l.invocation, l.controller), written);
      if reported then v.(licences := v.licences + {l}) else v
    case Finish(l, written) =>
      WithJournal(w, Complete(l.invocation, l.controller), written).(licences := w.licences - {l})
    case StartProcess(p) => Born(w, p)
    case SpawnProvider(l, p, group) => Born(w, p).(providers := w.providers[p := Provider(l, group)])
    case ForkProvider(parent, p) => Born(w, p).(providers := w.providers[p := w.providers[parent]])
    case Die(p) => w.(alive := w.alive - {p}, providers := w.providers - {p})
    case BeginSample(id) => w.(samples := w.samples[id := Sample(w.journal, {}, {}, {})])
    case ProbeController(id, claim, running, evidence) =>
      w.(samples := w.samples[id := SawController(w.samples[id], claim, running, evidence)])
    case ProbeChild(id, claim, evidence) => w.(samples := w.samples[id := SawChild(w.samples[id], claim, evidence)])
    case ProbeGroup(id, claim, group) => w.(samples := w.samples[id := SawGroup(w.samples[id], claim, group)])
    case CommitSample(id, reason, written) =>
      var sample := w.samples[id];
      WithJournal(w, Reclaim(sample.base.revision, sample.removed, reason), written).(samples := w.samples - {id})
    case Reboot(boot, journal) =>
      // Every process stops; without a directory sync the journal may come back as any published one.
      World(journal, w.published, boot, w.boots + {boot}, {}, w.seen, {}, map[], map[])
  }

  predicate Initial(w: World) {
    && w.journal == EMPTY_JOURNAL && w.published == {EMPTY_JOURNAL}
    && w.boots == {w.boot} && w.boot != ""
    && w.alive == {} && w.seen == {} && w.licences == {} && w.providers == map[] && w.samples == map[]
  }

  predicate WorldRun(ws: seq<World>, ss: seq<Step>) {
    && |ws| == |ss| + 1 && Initial(ws[0])
    && forall i | 0 <= i < |ss| :: Can(ws[i], ss[i]) && ws[i + 1] == Do(ws[i], ss[i])
  }

  // ---- the invariant ----

  predicate ProcessesOk(w: World) {
    && (forall a, b | a in w.alive && b in w.alive && a.pid == b.pid :: a == b)
    && (forall a | a in w.alive :: a.boot == w.boot && a.pid >= 1 && a.birth != "" && a.boot != "")
    && w.alive <= w.seen && w.boot in w.boots
    && (forall a | a in w.seen :: a.boot in w.boots)
    && w.providers.Keys <= w.alive
  }

  predicate KnownControllers(j: Journal, seen: set<Identity>) {
    forall c | c in Claims(j) :: c.controller in seen
  }

  predicate JournalsOk(w: World) {
    && w.journal in w.published
    && forall j | j in w.published :: Ordered(j) && KnownControllers(j, w.seen)
  }

  predicate LicencesOk(w: World) {
    && (forall l | l in w.licences :: l.controller in w.seen)
    && (forall l | l in w.licences && l.controller in w.alive :: Occupies(w.journal, l))
    && (forall p | p in w.providers ::
          && Occupies(w.journal, w.providers[p].licence)
          && w.providers[p].licence.controller.boot == w.boot
          && (w.journal.owner.value.processGroup.Some? ==>
                w.providers[p].group == w.journal.owner.value.processGroup.value))
  }

  /** The controller of the claim is dead for good, and so is every process of its provider. */
  predicate GoneClaim(w: World, c: Claim) {
    && c.controller !in w.alive
    && (c.status !in {Queued, Reserved} ==> !HasProvider(w, Licence(c.controller, c.Invocation())))
  }

  predicate SampleOk(w: World, sample: Sample) {
    && sample.base in w.published
    && sample.base.revision <= w.journal.revision
    && (sample.base.revision == w.journal.revision ==> sample.base == w.journal)
    && sample.children <= sample.controllers
    && (sample.base == w.journal ==> forall c | c in Claims(sample.base) :: FindingsOk(w, sample, c))
  }

  /** What a reconciliation found of a claim is still so, however long ago it looked. */
  predicate FindingsOk(w: World, sample: Sample, c: Claim) {
    && (c.Invocation() in sample.removed ==> GoneClaim(w, c))
    && (c.Invocation() in sample.controllers ==> c.controller !in w.alive)
  }

  predicate SamplesOk(w: World) {
    forall id | id in w.samples :: SampleOk(w, w.samples[id])
  }

  predicate Safe(w: World) {
    ProcessesOk(w) && JournalsOk(w) && LicencesOk(w) && SamplesOk(w)
  }

  /** At most one invocation has a live provider process. */
  predicate Exclusive(w: World) {
    forall p, q | p in w.providers && q in w.providers :: w.providers[p].licence == w.providers[q].licence
  }

  // ---- journal steps ----

  lemma ControllersAfter(j: Journal, op: Op, seen: set<Identity>)
    requires Ordered(j) && ControllerOk(op) && KnownControllers(j, seen)
    requires Issuer(op).Some? ==> Issuer(op).value in seen
    ensures KnownControllers(Apply(j, op), seen)
  {
    QueueAfter(j, op);
    forall c | c in Claims(Apply(j, op)) ensures c.controller in seen {
      if c in Apply(j, op).queue {
        assert c in j.queue ==> c in Claims(j);
      } else if op.TryAcquire? && Decide(j, op).next.Some? {
        AcquireTakesFirst(j, op.invocation, op.who);
      } else {
        assert j.owner.Some? ==> j.owner.value in Claims(j);
      }
    }
  }

  /** Publishing a step of the journal keeps what is known of journals, processes and samples. */
  lemma PublishKeeps(w: World, op: Op, written: bool)
    requires Safe(w) && ControllerOk(op)
    requires Issuer(op).Some? ==> Issuer(op).value in w.alive
    ensures var v := WithJournal(w, op, written); ProcessesOk(v) && JournalsOk(v) && SamplesOk(v)
  {
    var v := WithJournal(w, op, written);
    ApplyKeepsOrdered(w.journal, op);
    ControllersAfter(w.journal, op, w.seen);
    EveryWriteRaisesRevision(w.journal, op);
    forall id | id in v.samples ensures SampleOk(v, v.samples[id]) {
      assert SampleOk(w, w.samples[id]);
      if v.journal == w.journal {
        forall c | c in Claims(v.samples[id].base) && v.samples[id].base == v.journal
          ensures FindingsOk(v, v.samples[id], c)
        {
          assert FindingsOk(w, w.samples[id], c);
        }
      }
    }
  }

  /** No request of a controller disturbs an occupied resource. */
  lemma RequestKeepsOccupied(j: Journal, op: Op, l: Licence)
    requires Occupies(j, l) && !op.Complete? && !op.Reclaim?
    ensures Occupies(Apply(j, op), l)
    ensures Apply(j, op).owner.value.processGroup == j.owner.value.processGroup
            || (op.RegisterChild? && op.who == l.controller && op.invocation == l.invocation
                && Apply(j, op).owner.value.processGroup == op.group)
  {
  }

  lemma RequestKeepsProviders(w: World, op: Op, written: bool)
    requires Safe(w) && ControllerOk(op) && !op.Complete? && !op.Reclaim?
    requires Issuer(op).Some? ==> Issuer(op).value in w.alive
    requires op.RegisterChild? ==> InGroup(w, Licence(op.who, op.invocation), op.group)
    ensures Safe(WithJournal(w, op, written))
  {
    var v := WithJournal(w, op, written);
    PublishKeeps(w, op, written);
    forall l | Occupies(w.journal, l)
      ensures Occupies(v.journal, l)
    {
      RequestKeepsOccupied(w.journal, op, l);
    }
    forall p | p in v.providers
      ensures v.journal.owner.Some? && (v.journal.owner.value.processGroup.Some? ==>
                v.providers[p].group == v.journal.owner.value.processGroup.value)
    {
      RequestKeepsOccupied(w.journal, op, w.providers[p].licence);
    }
  }

  lemma LaunchIsSafe(w: World, l: Licence, written: bool, reported: bool)
    requires Safe(w) && Can(w, Launch(l, written, reported))
    ensures Safe(Do(w, Launch(l, written, reported)))
  {
    var op := MarkLaunching(l.invocation, l.controller);
    RequestKeepsProviders(w, op, written);
    SamplesIgnoreLicences(WithJournal(w, op, written), Do(w, Launch(l, written, reported)));
    assert reported ==> Occupies(Apply(w.journal, op), l);
  }

  lemma SamplesIgnoreLicences(v: World, u: World)
    requires SamplesOk(v)
    requires u == v.(licences := u.licences)
    ensures SamplesOk(u)
  {
    forall id | id in u.samples ensures SampleOk(u, u.samples[id]) {
      assert SampleOk(v, v.samples[id]);
      forall c | GoneClaim(v, c) ensures GoneClaim(u, c) {
      }
    }
  }

  lemma ProvidersAreKnown(w: World)
    ensures forall p | p in w.providers :: HasProvider(w, w.providers[p].licence)
  {
  }

  /** Completion frees the resource only for its own licence, and that one has no provider left. */
  lemma FinishIsSafe(w: World, l: Licence, written: bool)
    requires Safe(w) && Can(w, Finish(l, written))
    ensures Safe(Do(w, Finish(l, written)))
  {
    var op := Complete(l.invocation, l.controller);
    PublishKeeps(w, op, written);
    var v := Do(w, Finish(l, written));
    SamplesIgnoreLicences(WithJournal(w, op, written), v);
    if v.journal != w.journal {
      assert w.journal.owner.value.Invocation() == l.invocation && w.journal.owner.value.controller == l.controller;
      ProvidersAreKnown(w);
    }
  }

  // ---- process steps ----

  lemma BirthKeepsJournals(w: World, v: World, p: Identity)
    requires JournalsOk(w) && v.journal == w.journal && v.published == w.published && v.seen == w.seen + {p}
    ensures JournalsOk(v)
  {
  }

  /** A process that starts brings no gone claim back. */
  lemma BirthKeepsGone(w: World, v: World, p: Identity, c: Claim)
    requires Safe(w) && Fresh(w, p) && v.alive == w.alive + {p} && c.controller in w.seen && GoneClaim(w, c)
    requires forall q | q in v.providers && q != p :: q in w.providers && v.providers[q] == w.providers[q]
    requires p in v.providers ==> HasProvider(w, v.providers[p].licence) || v.providers[p].licence.controller in w.alive
    ensures GoneClaim(v, c)
  {
    var l := Licence(c.controller, c.Invocation());
    if c.status !in {Queued, Reserved} && HasProvider(v, l) {
      var q :| q in v.providers && v.providers[q].licence == l;
      assert q != p ==> HasProvider(w, l);
    }
  }

  lemma BirthKeepsSamples(w: World, v: World, p: Identity)
    requires Safe(w) && Fresh(w, p)
    requires v == Born(w, p).(providers := v.providers)
    requires v.providers.Keys == w.providers.Keys || v.providers.Keys == w.providers.Keys + {p}
    requires forall q | q in w.providers :: q in v.providers && v.providers[q] == w.providers[q]
    requires p in v.providers ==> HasProvider(w, v.providers[p].licence) || v.providers[p].licence.controller in w.alive
    ensures SamplesOk(v) && JournalsOk(v)
  {
    BirthKeepsJournals(w, v, p);
    forall id | id in v.samples ensures SampleOk(v, v.samples[id]) {
      var sample := v.samples[id];
      assert SampleOk(w, sample);
      forall c | c in Claims(sample.base) && sample.base == v.journal ensures FindingsOk(v, sample, c) {
        assert FindingsOk(w, sample, c);
        if c.Invocation() in sample.removed {
          BirthKeepsGone(w, v, p, c);
        }
      }
    }
  }

  lemma BirthKeepsProcesses(w: World, v: World, p: Identity)
    requires ProcessesOk(w) && Fresh(w, p)
    requires v == Born(w, p).(providers := v.providers) && v.providers.Keys <= w.providers.Keys + {p}
    ensures ProcessesOk(v)
  {
  }

  /** A process in the group of a licensed, occupying provider keeps the licences. */
  lemma BirthKeepsLicences(w: World, v: World, p: Identity)
    requires LicencesOk(w) && Fresh(w, p)
    requires v == Born(w, p).(providers := v.providers)
    requires forall q | q in v.providers && q != p :: q in w.providers && v.providers[q] == w.providers[q]
    requires p in v.providers ==>
               && Occupies(w.journal, v.providers[p].licence) && v.providers[p].licence.controller.boot == w.boot
               && (w.journal.owner.value.processGroup.Some? ==>
                     v.providers[p].group == w.journal.owner.value.processGroup.value)
    ensures LicencesOk(v)
  {
  }

  lemma StartIsSafe(w: World, p: Identity)
    requires Safe(w) && Can(w, StartProcess(p))
    ensures Safe(Do(w, StartProcess(p)))
  {
    var v := Do(w, StartProcess(p));
    assert p !in w.providers by { assert w.providers.Keys <= w.seen; }
    BirthKeepsSamples(w, v, p);
  }

  lemma SpawnIsSafe(w: World, l: Licence, p: Identity, group: int)
    requires Safe(w) && Can(w, SpawnProvider(l, p, group))
    ensures Safe(Do(w, SpawnProvider(l, p, group)))
  {
    var v := Do(w, SpawnProvider(l, p, group));
    BirthKeepsSamples(w, v, p);
    BirthKeepsProcesses(w, v, p);
    BirthKeepsLicences(w, v, p);
  }

  lemma ForkIsSafe(w: World, parent: Identity, p: Identity)
    requires Safe(w) && Can(w, ForkProvider(parent, p))
    ensures Safe(Do(w, ForkProvider(parent, p)))
  {
    var v := Do(w, ForkProvider(parent, p));
    assert HasProvider(w, w.providers[parent].licence);
    BirthKeepsSamples(w, v, p);
    BirthKeepsProcesses(w, v, p);
    BirthKeepsLicences(w, v, p);
  }

  lemma DeathIsSafe(w: World, p: Identity)
    requires Safe(w) && Can(w, Die(p))
    ensures Safe(Do(w, Die(p)))
  {
    var v := Do(w, Die(p));
    forall id | id in v.samples ensures SampleOk(v, v.samples[id]) {
      var sample := v.samples[id];
      assert SampleOk(w, sample);
      forall c | GoneClaim(w, c) ensures GoneClaim(v, c) {
      }
    }
  }

  // ---- reconciliation ----

  /** Sound evidence of another boot or of a gone controller proves the controller dead, a waiting claim gone. */
  lemma ControllerEvidenceProves(w: World, c: Claim, running: Option<string>, e: ProcessEvidence)
    requires Safe(w) && c in Claims(w.journal)
    requires (running.Some? ==> running.value == w.boot) && SoundProcess(w, c.controller.pid, e)
    ensures ShowsGone(e, Some(c.controller.birth)) ==> c.controller !in w.alive
    ensures ShowsGone(e, Some(c.controller.birth)) && c.status in {Queued, Reserved} ==> GoneClaim(w, c)
    ensures running.Some? && c.controller.boot != running.value ==> GoneClaim(w, c)
  {
  }

  /** A process group found absent later, with the controller dead by then, leaves no provider. */
  lemma GroupEvidenceProves(w: World, c: Claim, g: GroupEvidence)
    requires Safe(w) && c in Claims(w.journal) && c.controller !in w.alive
    requires SoundGroup(w, c, g) && g == GroupAbsent
    ensures GoneClaim(w, c)
  {
    assert c in w.journal.queue ==> c.status == Queued by { assert Ordered(w.journal); }
  }

  predicate IsProbe(s: Step) { s.ProbeController? || s.ProbeChild? || s.ProbeGroup? }

  /** One look adds only findings that are so at that moment. */
  lemma LookFindsTruth(w: World, s: Step)
    requires Safe(w) && IsProbe(s) && Can(w, s) && w.samples[s.id].base == w.journal
    ensures FindingsOk(w, Do(w, s).samples[s.id], s.claim)
  {
    assert SampleOk(w, w.samples[s.id]) && FindingsOk(w, w.samples[s.id], s.claim);
    if s.ProbeController? {
      ControllerEvidenceProves(w, s.claim, s.running, s.evidence);
    } else if s.ProbeGroup? && s.presence == GroupAbsent && s.claim.Invocation() in w.samples[s.id].children {
      GroupEvidenceProves(w, s.claim, s.presence);
    }
  }

  /** A look changes what is known of its own claim only. */
  lemma LookKeepsOthers(w: World, s: Step, c: Claim)
    requires Safe(w) && IsProbe(s) && Can(w, s) && w.samples[s.id].base == w.journal && c in Claims(w.journal)
    ensures FindingsOk(w, Do(w, s).samples[s.id], c)
  {
    if c.Invocation() == s.claim.Invocation() {
      ClaimIsFound(w.journal, c);
      ClaimIsFound(w.journal, s.claim);
      LookFindsTruth(w, s);
    } else {
      assert SampleOk(w, w.samples[s.id]) && FindingsOk(w, w.samples[s.id], c);
    }
  }

  /** A sample means the same in worlds that differ in their samples only. */
  lemma SampleIgnoresSamples(w: World, v: World, sample: Sample)
    requires SampleOk(w, sample) && v == w.(samples := v.samples)
    ensures SampleOk(v, sample)
  {
    forall c | c in Claims(sample.base) && sample.base == v.journal ensures FindingsOk(v, sample, c) {
      assert FindingsOk(w, sample, c);
      assert GoneClaim(w, c) ==> GoneClaim(v, c);
    }
  }

  lemma LookedSampleIsOk(w: World, s: Step)
    requires Safe(w) && IsProbe(s) && Can(w, s)
    ensures SampleOk(w, Do(w, s).samples[s.id])
  {
    assert SampleOk(w, w.samples[s.id]);
    if w.samples[s.id].base == w.journal {
      forall c | c in Claims(w.journal) ensures FindingsOk(w, Do(w, s).samples[s.id], c) {
        LookKeepsOthers(w, s, c);
      }
    }
  }

  lemma LookIsSafe(w: World, s: Step)
    requires Safe(w) && IsProbe(s) && Can(w, s)
    ensures Safe(Do(w, s))
  {
    var v := Do(w, s);
    LookedSampleIsOk(w, s);
    forall i | i in v.samples ensures SampleOk(v, v.samples[i]) {
      SampleIgnoresSamples(w, v, v.samples[i]);
    }
  }

  /**
   However far apart the three looks of a reconciliation are: a claim it marks for removal is gone, as
   long as the journal is the one it read.
   */
  lemma RemovalProvesGone(w: World, id: int, c: Claim)
    requires Safe(w) && id in w.samples && w.samples[id].base == w.journal && c in Claims(w.journal)
    requires c.Invocation() in w.samples[id].removed
    ensures GoneClaim(w, c)
  {
    assert SampleOk(w, w.samples[id]) && FindingsOk(w, w.samples[id], c);
  }

  /** Evidence that tells all there is about a PID: whether a process has it, and that process's birth. */
  predicate FullProcess(w: World, pid: int, e: ProcessEvidence) {
    if exists q | q in w.alive :: q.pid == pid
    then e.liveness == Present && e.birth.Some? && exists q | q in w.alive :: q.pid == pid && q.birth == e.birth.value
    else e.liveness == Absent
  }

  /** With full evidence, a waiting or reserved claim is removed exactly when its controller is dead. */
  lemma WaiterReclaimedExactly(w: World, c: Claim, p: Probes)
    requires Safe(w) && c in Claims(w.journal) && c.status in {Queued, Reserved}
    requires p.boot == Some(w.boot) && FullProcess(w, c.controller.pid, p.controller)
    ensures ReconcileClaim(c, p) <==> c.controller !in w.alive
  {
    if c.controller !in w.alive && p.controller.liveness == Present {
      var q :| q in w.alive && q.pid == c.controller.pid && q.birth == p.controller.birth.value;
      assert q != c.controller;
    }
  }

  /**
   With full evidence, an owner that may have a provider is removed exactly after a reboot, or when its
   controller is dead, its bound child's PID is free or reused, and its process group is absent.
   */
  lemma OwnerReclaimedExactly(w: World, c: Claim, p: Probes)
    requires Safe(w) && c in Claims(w.journal) && c.status !in {Queued, Reserved}
    requires p.boot == Some(w.boot) && FullProcess(w, c.controller.pid, p.controller)
    requires c.childPid.Some? ==> FullProcess(w, c.childPid.value, p.child)
    ensures ReconcileClaim(c, p) <==>
              || c.controller.boot != w.boot
              || (c.controller !in w.alive && c.childPid.Some? && p.group == GroupAbsent
                  && forall q | q in w.alive && q.pid == c.childPid.value ::
                       c.childBirth.Some? && q.birth != c.childBirth.value)
  {
    if c.controller.boot == w.boot && p.controller.liveness == Present {
      var q :| q in w.alive && q.pid == c.controller.pid && q.birth == p.controller.birth.value;
      assert q == c.controller <==> q.birth == c.controller.birth;
    }
  }

  lemma BeginIsSafe(w: World, id: int)
    requires Safe(w)
    ensures Safe(Do(w, BeginSample(id)))
  {
    var v := Do(w, BeginSample(id));
    forall i | i in v.samples ensures SampleOk(v, v.samples[i]) {
      if i != id {
        assert SampleOk(w, w.samples[i]);
        forall c | GoneClaim(w, c) ensures GoneClaim(v, c) {
        }
      }
    }
  }

  /** Committing removes only claims that are gone at that moment, however old the sample is. */
  lemma CommitRemovesOnlyGone(w: World, id: int, reason: Reason, c: Claim)
    requires Safe(w) && id in w.samples && c in Claims(w.journal)
    requires c !in Claims(Do(w, CommitSample(id, reason, true)).journal)
    ensures w.samples[id].base == w.journal && c.Invocation() in w.samples[id].removed && GoneClaim(w, c)
  {
    RemovalProvesGone(w, id, c);
  }

  lemma ReclaimedOwner(j: Journal, revision: int, removed: set<string>, reason: Reason)
    requires Apply(j, Reclaim(revision, removed, reason)).owner != j.owner
    ensures j.owner.Some? && j.owner.value.Invocation() in removed && j.revision == revision
    ensures j.owner.value in Claims(j)
  {
  }

  /** An owner whose claim is gone has no provider, so freeing the resource keeps the licences. */
  lemma GoneOwnerFreesSafely(w: World, v: World)
    requires LicencesOk(w) && w.journal.owner.Some? && GoneClaim(w, w.journal.owner.value)
    requires v.licences == w.licences && v.alive == w.alive && v.seen == w.seen && v.providers == w.providers
    requires w.journal.owner.value.status != Queued
    ensures LicencesOk(v)
  {
    ProvidersAreKnown(w);
  }

  /** A commit that frees the resource finds no provider left; any other leaves the owner alone. */
  lemma CommitKeepsLicences(w: World, id: int, reason: Reason, written: bool)
    requires Safe(w) && id in w.samples
    ensures var op := Reclaim(w.samples[id].base.revision, w.samples[id].removed, reason);
            LicencesOk(WithJournal(w, op, written))
  {
    var sample := w.samples[id];
    var v := WithJournal(w, Reclaim(sample.base.revision, sample.removed, reason), written);
    if v.journal.owner != w.journal.owner {
      ReclaimedOwner(w.journal, sample.base.revision, sample.removed, reason);
      assert SampleOk(w, sample);
      RemovalProvesGone(w, id, w.journal.owner.value);
      GoneOwnerFreesSafely(w, v);
    }
  }

  lemma DroppingSampleKeepsSafe(w: World, id: int)
    requires Safe(w)
    ensures Safe(w.(samples := w.samples - {id}))
  {
    var v := w.(samples := w.samples - {id});
    forall i | i in v.samples ensures SampleOk(v, v.samples[i]) {
      assert SampleOk(w, w.samples[i]);
      forall c | GoneClaim(w, c) ensures GoneClaim(v, c) {
      }
    }
  }

  lemma CommitIsSafe(w: World, id: int, reason: Reason, written: bool)
    requires Safe(w) && Can(w, CommitSample(id, reason, written))
    ensures Safe(Do(w, CommitSample(id, reason, written)))
  {
    var op := Reclaim(w.samples[id].base.revision, w.samples[id].removed, reason);
    PublishKeeps(w, op, written);
    CommitKeepsLicences(w, id, reason, written);
    DroppingSampleKeepsSafe(WithJournal(w, op, written), id);
  }

  lemma RebootIsSafe(w: World, boot: string, journal: Journal)
    requires Safe(w) && Can(w, Reboot(boot, journal))
    ensures Safe(Do(w, Reboot(boot, journal)))
  {
  }

  lemma StepIsSafe(w: World, s: Step)
    requires Safe(w) && Can(w, s)
    ensures Safe(Do(w, s))
  {
    match s
    case Request(op, written) => RequestKeepsProviders(w, op, written);
    case Launch(l, written, reported) => LaunchIsSafe(w, l, written, reported);
    case Finish(l, written) => FinishIsSafe(w, l, written);
    case StartProcess(p) => StartIsSafe(w, p);
    case SpawnProvider(l, p, group) => SpawnIsSafe(w, l, p, group);
    case ForkProvider(parent, p) => ForkIsSafe(w, parent, p);
    case Die(p) => DeathIsSafe(w, p);
    case BeginSample(id) => BeginIsSafe(w, id);
    case ProbeController(_, _, _, _) => LookIsSafe(w, s);
    case ProbeChild(_, _, _) => LookIsSafe(w, s);
    case ProbeGroup(_, _, _) => LookIsSafe(w, s);
    case CommitSample(id, reason, written) => CommitIsSafe(w, id, reason, written);
    case Reboot(boot, journal) => RebootIsSafe(w, boot, journal);
  }

  lemma {:induction false} RunIsSafe(ws: seq<World>, ss: seq<Step>, i: nat)
    requires WorldRun(ws, ss) && i < |ws|
    ensures Safe(ws[i])
  {
    if i > 0 {
      RunIsSafe(ws, ss, i - 1);
      assert Can(ws[i - 1], ss[i - 1]) && ws[i] == Do(ws[i - 1], ss[i - 1]);
      StepIsSafe(ws[i - 1], ss[i - 1]);
    }
  }

  /**
   End-to-end exclusion: in every interleaving, at every moment, all live provider processes
   belong to one invocation, and that invocation is the recorded owner.
   */
  lemma Exclusion(ws: seq<World>, ss: seq<Step>, i: nat)
    requires WorldRun(ws, ss) && i < |ws|
    ensures Exclusive(ws[i])
    ensures forall p | p in ws[i].providers :: Occupies(ws[i].journal, ws[i].providers[p].licence)
  {
    RunIsSafe(ws, ss, i);
  }

  /** Over whole runs: a reclaim never removes a claim whose controller or provider is alive. */
  lemma ReclaimIsSound(ws: seq<World>, ss: seq<Step>, i: nat, c: Claim)
    requires WorldRun(ws, ss) && i < |ss| && ss[i].CommitSample?
    requires c in Claims(ws[i].journal) && c !in Claims(ws[i + 1].journal)
    ensures GoneClaim(ws[i], c) && ws[i].samples[ss[i].id].base == ws[i].journal
  {
    RunIsSafe(ws, ss, i);
    assert Can(ws[i], ss[i]) && ws[i + 1] == Do(ws[i], ss[i]);
    CommitRemovesOnlyGone(ws[i], ss[i].id, ss[i].reason, c);
  }
}
