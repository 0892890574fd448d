/** cosigner/retention.py's promise: every enforcement answer is the same before and after a
    prune. Proved as a simulation between a run with prunes at arbitrary points, mid-decision
    included, and the same run with none. */
module Retention {
  import opened Common
  import opened Audit
  import opened Limiter
  import opened LimiterBounds

  function WithoutPrunes(es: seq<Event>): seq<Event> {
    if es == [] then []
    else if es[0].Prune? then WithoutPrunes(es[1..])
    else [es[0]] + WithoutPrunes(es[1..])
  }

  // What the retention leaves over once the longest window is covered.
  const SLACK: real := ALLOW_RETENTION_SECONDS - LongestWindow()

  // No prune lands in a decision that has been open longer than `d`.
  ghost predicate Prompt(d: real, lim: Limits, w: World, es: seq<Event>)
    decreases |es|
  {
    es != [] ==>
      && (es[0].Prune? && w.job.Busy? ==> w.now - w.job.began <= d)
      && Prompt(d, lim, Step(lim, w, es[0]), es[1..])
  }

  lemma {:induction false} PromptIsMonotone(d: real, d': real, lim: Limits, w: World, es: seq<Event>)
    requires d <= d' && Prompt(d, lim, w, es)
    ensures Prompt(d', lim, w, es)
    decreases |es|
  {
    if es != [] {
      PromptIsMonotone(d, d', lim, Step(lim, w, es[0]), es[1..]);
    }
  }

  // The pruned world and its twin agree on everything but rows no open window reaches.
  ghost predicate Twin(w: World, full: World) {
    && w == full.(log := w.log)
    && full.log == full.hist
    && Tables(w)
    && (w.job.Busy? ==>
          && w.job.began <= w.now
          && (forall id :: id in w.hist && w.job.began - LongestWindow() <= w.hist[id].ts ==> id in w.log)
          && SampledSince(w.job.phase, w.job.began))
  }

  predicate SampledSince(phase: Phase, began: real) {
    match phase
    case Windowed(since) => began - WINDOW_SECONDS <= since
    case UserCounted(since) => began - WINDOW_SECONDS <= since
    case SweepSampled(since, s) => began - WINDOW_SECONDS <= since && began - DISTINCT_WINDOW_SECONDS <= s
    case NewAccount(since, s) => began - WINDOW_SECONDS <= since && began - DISTINCT_WINDOW_SECONDS <= s
    case SweepPassed(since) => began - WINDOW_SECONDS <= since
    case _ => true
  }

  lemma SameAnswers(w: World, full: World, actions: set<Action>, uid: Option<string>, since: real)
    requires Twin(w, full) && w.job.Busy? && w.job.began - LongestWindow() <= since
    ensures GrantIds(w.log, actions, uid, since) == GrantIds(full.log, actions, uid, since)
    ensures GrantedUids(w.log, actions, since) == GrantedUids(full.log, actions, since)
  {
    assert GrantIds(w.log, actions, None, since) == GrantIds(full.log, actions, None, since);
    assert forall id :: id in GrantIds(w.log, actions, None, since) ==> w.log[id] == full.log[id];
  }

  lemma SamePhase(lim: Limits, w: World, full: World)
    requires Twin(w, full) && w.job.Busy? && !w.job.phase.Stamped?
    ensures NextPhase(lim, w, w.job.req, w.job.phase) == NextPhase(lim, full, w.job.req, w.job.phase)
  {
    var req := w.job.req;
    match w.job.phase
    case Entered =>
    case Windowed(since) =>
      SameAnswers(w, full, {req.action}, None, since);
      SameAnswers(w, full, {req.action}, Some(req.uid), since);
    case UserCounted(since) =>
    case SweepSampled(since, s) => SameAnswers(w, full, KeyReleasing(), Some(req.uid), s);
    case NewAccount(since, s) => SameAnswers(w, full, KeyReleasing(), None, s);
    case SweepPassed(since) => SameAnswers(w, full, {req.action}, None, since);
    case Decided(refusal) =>
  }

  lemma StepTogether(lim: Limits, w: World, full: World, e: Event)
    requires Twin(w, full) && !e.Prune?
    requires w.job.Busy? && w.job.phase.Stamped? ==>
               w.job.phase.at <= w.now && forall id :: id in w.hist ==> w.hist[id].ts <= w.job.phase.at
    ensures Twin(Step(lim, w, e), Step(lim, full, e))
  {
    if Enabled(w, e) {
      match e
      case Begin(req) =>
      case Advance =>
        if w.job.phase.Stamped? {
          InsertKeepsTables(w, RowFor(w.job.req, w.job.phase.refusal, w.job.phase.at));
        } else {
          SamePhase(lim, w, full);
        }
      case Tick(to) =>
      case Connect =>
        BackfillIsIdle(w.log, w.hist, w.grants);
        BackfillIsIdle(full.log, w.hist, w.grants);
      case Restart =>
        BackfillIsIdle(w.log, w.hist, w.grants);
        BackfillIsIdle(full.log, w.hist, w.grants);
    }
  }

  lemma StepAlone(lim: Limits, w: World, full: World, e: Event)
    requires Twin(w, full) && e.Prune?
    requires w.job.Busy? ==> w.now - w.job.began <= SLACK
    ensures Twin(Step(lim, w, e), full)
  {
  }

  lemma {:induction false} RunTogether(lim: Limits, w: World, full: World, es: seq<Event>)
    requires Twin(w, full) && Inv(lim, w) && Prompt(SLACK, lim, w, es)
    ensures Twin(Run(lim, w, es), Run(lim, full, WithoutPrunes(es)))
    decreases |es|
  {
    if es != [] {
      StepKeepsInv(lim, w, es[0]);
      if es[0].Prune? {
        StepAlone(lim, w, full, es[0]);
        RunTogether(lim, Step(lim, w, es[0]), full, es[1..]);
      } else {
        StepTogether(lim, w, full, es[0]);
        RunTogether(lim, Step(lim, w, es[0]), Step(lim, full, es[0]), es[1..]);
        assert WithoutPrunes(es)[1..] == WithoutPrunes(es[1..]);
      }
    }
  }

  // The run answers as the same run with no prune: the same rows, refusals and their counts
  // included, the same `grants`, and the same decision still open.
  ghost predicate PrunesUnseen(lim: Limits, now: real, es: seq<Event>) {
    var pruned := Run(lim, Fresh(now), es);
    var kept := Run(lim, Fresh(now), WithoutPrunes(es));
    && pruned.hist == kept.hist == kept.log
    && pruned.grants == kept.grants
    && pruned.job == kept.job
    && pruned.now == kept.now
  }

  lemma PrunesChangeNoDecision(lim: Limits, now: real, es: seq<Event>)
    requires Prompt(SLACK, lim, Fresh(now), es)
    ensures PrunesUnseen(lim, now, es)
  {
    FreshIsSound(lim, now);
    RunTogether(lim, Fresh(now), Fresh(now), es);
  }

  // --- and no further --------------------------------------------------------

  const ASKED: Request := Request("a", Unwrap, false, true, None)

  const ONE_EACH: Limits := Limits(1, 1, 1, 1, 1)

  // One unwrap is granted at 0. A second begins an hour later, samples its window, and then
  // stalls for `d` seconds, at the end of which a prune lands.
  function Stall(d: real): seq<Event> {
    Granting() + Sampling() + [Tick(3600.0 + d), Prune(3600.0 + d), Advance]
  }

  function Granting(): seq<Event> {
    [Begin(ASKED), Advance, Advance, Advance, Advance, Advance, Advance, Advance, Advance]
  }

  function Sampling(): seq<Event> { [Tick(3600.0), Begin(ASKED), Advance] }

  function Granted0(): Table { map[0 := Row(0.0, "a", Unwrap, Allow, None)] }

  function AfterGrant(): World { World(0.0, Granted0(), 1, map[("a", Unwrap) := 0.0], Idle, Granted0()) }

  // The second decision, begun an hour later.
  function Second(phase: Phase): Job { Busy(ASKED, 3600.0, phase) }

  function AfterSample(): World {
    World(3600.0, Granted0(), 1, map[("a", Unwrap) := 0.0], Second(Windowed(0.0)), Granted0())
  }

  // The phase of the first decision after so many of its reads, the log being empty.
  function FirstPhase(n: nat): Phase {
    match n
    case 0 => Entered
    case 1 => Windowed(-WINDOW_SECONDS)
    case 2 => UserCounted(-WINDOW_SECONDS)
    case 3 => SweepSampled(-WINDOW_SECONDS, -DISTINCT_WINDOW_SECONDS)
    case 4 => NewAccount(-WINDOW_SECONDS, -DISTINCT_WINDOW_SECONDS)
    case 5 => SweepPassed(-WINDOW_SECONDS)
    case 6 => Decided(None)
    case _ => Stamped(None, 0.0)
  }

  function Deciding(n: nat): World { World(0.0, map[], 0, map[], Busy(ASKED, 0.0, FirstPhase(n)), map[]) }

  lemma NothingCounted()
    ensures forall actions, uid, since: real :: GrantIds(map[], actions, uid, since) == {}
    ensures forall actions, since: real :: GrantedUids(map[], actions, since) == {}
  {
    var none: Table := map[];
    assert forall actions, uid, since: real :: GrantIds(none, actions, uid, since) == {};
    assert forall actions, since: real :: GrantedUids(none, actions, since) == {};
  }

  lemma FirstReadGrants(n: nat)
    requires n < 7
    ensures Step(ONE_EACH, Deciding(n), Advance) == Deciding(n + 1)
  {
    NothingCounted();
  }

  // Where the rest of a run of reads leads.
  lemma {:induction false} FirstReadsGrant(n: nat, es: seq<Event>)
    requires n + |es| == 7 && forall i :: 0 <= i < |es| ==> es[i] == Advance
    ensures Run(ONE_EACH, Deciding(n), es) == Deciding(7)
    decreases |es|
  {
    if es != [] {
      FirstReadGrants(n);
      FirstReadsGrant(n + 1, es[1..]);
    }
  }

  lemma GrantingGrants()
    ensures Run(ONE_EACH, Fresh(0.0), Granting()) == AfterGrant()
  {
    var counts := [Advance, Advance, Advance, Advance, Advance, Advance, Advance];
    FirstReadsGrant(0, counts);
    assert Granting() == [Begin(ASKED)] + (counts + [Advance]);
    RunConcat(ONE_EACH, Fresh(0.0), [Begin(ASKED)], counts + [Advance]);
    RunConcat(ONE_EACH, Deciding(0), counts, [Advance]);
    RunOne(ONE_EACH, Fresh(0.0), Begin(ASKED));
    RunOne(ONE_EACH, Deciding(7), Advance);
  }

  lemma {:induction false} RunOne(lim: Limits, w: World, e: Event)
    ensures Run(lim, w, [e]) == Step(lim, w, e)
  {
    assert [e][1..] == [];
  }

  lemma SamplingSamples()
    ensures Run(ONE_EACH, AfterGrant(), Sampling()) == AfterSample()
  {
    var w1 := Step(ONE_EACH, AfterGrant(), Tick(3600.0));
    var w2 := Step(ONE_EACH, w1, Begin(ASKED));
    assert Step(ONE_EACH, w2, Advance) == AfterSample();
    RunConcat(ONE_EACH, AfterGrant(), [Tick(3600.0)], [Begin(ASKED), Advance]);
    RunConcat(ONE_EACH, w1, [Begin(ASKED)], [Advance]);
    assert Sampling() == [Tick(3600.0)] + [Begin(ASKED), Advance];
    assert [Begin(ASKED), Advance] == [Begin(ASKED)] + [Advance];
    RunOne(ONE_EACH, AfterGrant(), Tick(3600.0));
    RunOne(ONE_EACH, w1, Begin(ASKED));
    RunOne(ONE_EACH, w2, Advance);
  }

  // Where a stalled decision stands when its next read comes.
  function Stalled(d: real, log: Table): World {
    AfterSample().(now := 3600.0 + d, log := log)
  }

  lemma StalledReads(d: real)
    requires d > SLACK
    ensures Step(ONE_EACH, Stalled(d, Granted0()), Prune(3600.0 + d)) == Stalled(d, map[])
    ensures Step(ONE_EACH, Stalled(d, map[]), Advance).job == Second(UserCounted(0.0))
    ensures Step(ONE_EACH, Stalled(d, Granted0()), Advance).job
         == Second(Decided(Some(PerUserCeiling(1))))
  {
    NothingCounted();
    assert Pruned(Granted0(), 3600.0 + d) == map[];
    assert GrantIds(Granted0(), {Unwrap}, Some("a"), 0.0) == {0};
  }

  lemma {:induction false} PromptConcat(d: real, lim: Limits, w: World, a: seq<Event>, b: seq<Event>)
    requires (forall i :: 0 <= i < |a| ==> !a[i].Prune?) && Prompt(d, lim, Run(lim, w, a), b)
    ensures Prompt(d, lim, w, a + b)
    decreases |a|
  {
    if a == [] {
      assert a + b == b;
    } else {
      assert (a + b)[1..] == a[1..] + b;
      PromptConcat(d, lim, Step(lim, w, a[0]), a[1..], b);
    }
  }

  lemma {:induction false} WithoutPrunesConcat(a: seq<Event>, b: seq<Event>)
    ensures WithoutPrunes(a + b) == WithoutPrunes(a) + WithoutPrunes(b)
  {
    if a == [] {
      assert a + b == b;
    } else {
      assert (a + b)[1..] == a[1..] + b;
      WithoutPrunesConcat(a[1..], b);
    }
  }

  lemma {:induction false} NoneToDrop(es: seq<Event>)
    requires forall i :: 0 <= i < |es| ==> !es[i].Prune?
    ensures WithoutPrunes(es) == es
  {
    if es != [] {
      NoneToDrop(es[1..]);
      assert es == [es[0]] + es[1..];
    }
  }

  lemma StallBegins()
    ensures Run(ONE_EACH, Fresh(0.0), Granting() + Sampling()) == AfterSample()
  {
    GrantingGrants();
    SamplingSamples();
    RunConcat(ONE_EACH, Fresh(0.0), Granting(), Sampling());
  }

  // The last three steps of the stall, or two of them without the prune.
  lemma StallEnds(d: real)
    requires d > SLACK
    ensures Run(ONE_EACH, AfterSample(), [Tick(3600.0 + d), Prune(3600.0 + d), Advance]).job
         == Second(UserCounted(0.0))
    ensures Run(ONE_EACH, AfterSample(), [Tick(3600.0 + d), Advance]).job
         == Second(Decided(Some(PerUserCeiling(1))))
    ensures Prompt(d, ONE_EACH, AfterSample(), [Tick(3600.0 + d), Prune(3600.0 + d), Advance])
  {
    var tick, prune := Tick(3600.0 + d), Prune(3600.0 + d);
    var w := Stalled(d, Granted0());
    StalledReads(d);
    assert Step(ONE_EACH, AfterSample(), tick) == w;
    assert [tick, prune, Advance][1..] == [prune, Advance] && [prune, Advance][1..] == [Advance];
    assert [tick, Advance][1..] == [Advance];
    RunOne(ONE_EACH, w, Advance);
    RunOne(ONE_EACH, Stalled(d, map[]), Advance);
    PromptAtLast(d, Stalled(d, map[]));
    assert Prompt(d, ONE_EACH, w, [prune, Advance]);
  }

  lemma {:induction false} PromptAtLast(d: real, w: World)
    ensures Prompt(d, ONE_EACH, w, [Advance])
  {
    assert [Advance][1..] == [];
  }

  // Beyond the slack the promise fails in a run from an empty box: the pruned log no longer shows
  // the grant, and the decision goes on where the full log refuses it.
  lemma StalledDecisionIsChanged(d: real)
    requires d > SLACK
    ensures Prompt(d, ONE_EACH, Fresh(0.0), Stall(d))
    ensures Run(ONE_EACH, Fresh(0.0), Stall(d)).job == Second(UserCounted(0.0))
    ensures Run(ONE_EACH, Fresh(0.0), WithoutPrunes(Stall(d))).job
         == Second(Decided(Some(PerUserCeiling(1))))
  {
    var begun, tick, prune := Granting() + Sampling(), Tick(3600.0 + d), Prune(3600.0 + d);
    StallBegins();
    StallEnds(d);
    RunConcat(ONE_EACH, Fresh(0.0), begun, [tick, prune, Advance]);
    RunConcat(ONE_EACH, Fresh(0.0), begun, [tick, Advance]);
    PromptConcat(d, ONE_EACH, Fresh(0.0), begun, [tick, prune, Advance]);
    NoneToDrop(begun);
    WithoutPrunesConcat(begun, [tick, prune, Advance]);
    WithoutPrunesConcat([tick], [prune, Advance]);
    NoneToDrop([tick]);
    assert [tick, prune, Advance] == [tick] + [prune, Advance];
    assert WithoutPrunes([prune, Advance]) == WithoutPrunes([Advance]) by {
      assert [prune, Advance][1..] == [Advance];
    }
    NoneToDrop([Advance]);
    assert [tick] + [Advance] == [tick, Advance];
  }

  // Exactly: every run whose prunes land in decisions no older than `d` answers as if nothing
  // were ever pruned, if and only if `d` is within the slack.
  lemma PrunesUnseenIffWithinSlack(d: real)
    ensures (forall lim: Limits, now: real, es: seq<Event> :: Prompt(d, lim, Fresh(now), es) ==> PrunesUnseen(lim, now, es))
            <==> d <= SLACK
  {
    if d <= SLACK {
      forall lim: Limits, now: real, es: seq<Event> | Prompt(d, lim, Fresh(now), es)
        ensures PrunesUnseen(lim, now, es)
      {
        PromptIsMonotone(d, SLACK, lim, Fresh(now), es);
        PrunesChangeNoDecision(lim, now, es);
      }
    } else {
      StalledDecisionIsChanged(d);
      assert !PrunesUnseen(ONE_EACH, 0.0, Stall(d));
    }
  }
}
