/** What every run of the limiter keeps: the sliding-window ceilings, the sweep ceiling, and
    wrap-once, whatever the clock, the prunes, the restarts and the other connections do. */
module LimiterBounds {
  import opened Common
  import opened Audit
  import opened Limiter

  // --- the claims, over the never-pruned history -----------------------------

  function Within(t: Table, actions: set<Action>, uid: Option<string>, from: real, to: real): set<nat> {
    set id | id in GrantIds(t, actions, uid, from) && t[id].ts <= to
  }

  function UidsWithin(t: Table, actions: set<Action>, from: real, to: real): set<string> {
    set id | id in Within(t, actions, None, from, to) :: t[id].uid
  }

  // No closed interval of the given length holds more than `limit` of these grants.
  ghost predicate Ceiling(t: Table, actions: set<Action>, uid: Option<string>, window: real, limit: nat) {
    forall a: real, b: real :: b <= a + window ==> |Within(t, actions, uid, a, b)| <= limit
  }

  ghost predicate SweepCeilingHolds(t: Table, limit: nat) {
    forall a: real, b: real :: b <= a + DISTINCT_WINDOW_SECONDS ==> |UidsWithin(t, KeyReleasing(), a, b)| <= limit
  }

  ghost predicate HourlyCeilings(lim: Limits, t: Table) {
    && Ceiling(t, {SignDpop}, None, WINDOW_SECONDS, lim.sign)
    && Ceiling(t, {Rewrap}, None, WINDOW_SECONDS, lim.rewrap)
    && forall action | action in KeyReleasing() ::
         && Ceiling(t, {action}, None, WINDOW_SECONDS, lim.total)
         && forall uid :: Ceiling(t, {action}, Some(uid), WINDOW_SECONDS, lim.perUser)
  }

  ghost predicate WrappedOnce(t: Table) {
    forall i, j, k: Key :: k.1 == Wrap && AllowedRow(t, i, k) && AllowedRow(t, j, k) ==> i == j
  }

  // --- the invariant ---------------------------------------------------------

  ghost predicate PartOf(log: Table, hist: Table) {
    forall id :: id in log ==> id in hist && hist[id] == log[id]
  }

  ghost predicate Tables(w: World) {
    && PartOf(w.log, w.hist)
    && (forall id :: id in w.hist ==> id < w.nextId && w.hist[id].ts <= w.now)
    // A row is missing from the log only once it is older than the retention of an ALLOW row.
    && (forall id :: id in w.hist && w.now - ALLOW_RETENTION_SECONDS <= w.hist[id].ts ==> id in w.log)
    && Exact(w.grants, w.hist)
  }

  ghost predicate Claims(lim: Limits, t: Table) {
    HourlyCeilings(lim, t) && SweepCeilingHolds(t, lim.distinct) && WrappedOnce(t)
  }

  // The hourly allowance a decision has established, as of the clock it will be stamped with.
  ghost predicate RoomForTotal(lim: Limits, t: Table, req: Request, now: real) {
    var n := |GrantIds(t, {req.action}, None, now - WINDOW_SECONDS)|;
    && (req.action.SignDpop? ==> n < lim.sign)
    && (req.action.Rewrap? ==> n < lim.rewrap)
    && (req.action in KeyReleasing() ==> n < lim.total)
  }

  ghost predicate RoomForUser(lim: Limits, t: Table, req: Request, now: real) {
    req.action in KeyReleasing() ==>
      |GrantIds(t, {req.action}, Some(req.uid), now - WINDOW_SECONDS)| < lim.perUser
  }

  // Counting this account in as well stays within the sweep ceiling.
  ghost predicate RoomForSweep(lim: Limits, t: Table, req: Request, now: real) {
    req.action in KeyReleasing() ==>
      |GrantedUids(t, KeyReleasing(), now - DISTINCT_WINDOW_SECONDS) + {req.uid}| <= lim.distinct
  }

  ghost predicate RoomToGrant(lim: Limits, t: Table, grants: Grants, req: Request, now: real) {
    && RoomForTotal(lim, t, req, now)
    && RoomForUser(lim, t, req, now)
    && RoomForSweep(lim, t, req, now)
    && (req.action.Wrap? ==> (req.uid, Wrap) !in grants)
  }

  ghost predicate PhaseFacts(lim: Limits, w: World, req: Request, phase: Phase) {
    match phase
    case Entered => true
    case Windowed(since) => since <= w.now - WINDOW_SECONDS && !req.action.Wrap?
    case UserCounted(since) =>
      && since <= w.now - WINDOW_SECONDS && req.action in KeyReleasing()
      && RoomForUser(lim, w.hist, req, w.now)
    case SweepSampled(since, sweepSince) =>
      && since <= w.now - WINDOW_SECONDS && req.action in KeyReleasing()
      && RoomForUser(lim, w.hist, req, w.now)
      && sweepSince <= w.now - DISTINCT_WINDOW_SECONDS
      && (forall id :: id in w.hist ==> w.hist[id].ts <= sweepSince + DISTINCT_WINDOW_SECONDS)
    case NewAccount(since, sweepSince) =>
      && since <= w.now - WINDOW_SECONDS && req.action in KeyReleasing()
      && RoomForUser(lim, w.hist, req, w.now)
      && sweepSince <= w.now - DISTINCT_WINDOW_SECONDS
    case SweepPassed(since) =>
      && since <= w.now - WINDOW_SECONDS && req.action in KeyReleasing()
      && RoomForUser(lim, w.hist, req, w.now)
      && RoomForSweep(lim, w.hist, req, w.now)
    case Decided(refusal) => refusal.None? ==> RoomToGrant(lim, w.hist, w.grants, req, w.now)
    case Stamped(refusal, at) =>
      && at <= w.now
      && (forall id :: id in w.hist ==> w.hist[id].ts <= at)
      && (refusal.None? ==> RoomToGrant(lim, w.hist, w.grants, req, at))
  }

  ghost predicate Inv(lim: Limits, w: World) {
    && Tables(w)
    && Claims(lim, w.hist)
    && (w.job.Busy? ==> PhaseFacts(lim, w, w.job.req, w.job.phase))
  }

  // --- set facts the proof turns on ------------------------------------------

  // What is recent in the history is still in the log, so a count over the log bounds it.
  lemma RecentIsCounted(w: World, actions: set<Action>, uid: Option<string>, since: real, window: real)
    requires Tables(w)
    requires since <= w.now - window && 0.0 <= window <= ALLOW_RETENTION_SECONDS
    ensures GrantIds(w.hist, actions, uid, w.now - window) <= GrantIds(w.log, actions, uid, since)
    ensures |GrantIds(w.hist, actions, uid, w.now - window)| <= |GrantIds(w.log, actions, uid, since)|
    ensures GrantedUids(w.hist, actions, w.now - window) <= GrantedUids(w.log, actions, since)
  {
    SubsetSize(GrantIds(w.hist, actions, uid, w.now - window), GrantIds(w.log, actions, uid, since));
    forall id | id in GrantIds(w.hist, actions, None, w.now - window)
      ensures w.hist[id].uid in GrantedUids(w.log, actions, since)
    {
      assert id in GrantIds(w.log, actions, None, since);
    }
  }

  // A later start leaves fewer rows.
  lemma LaterIsFewer(t: Table, actions: set<Action>, uid: Option<string>, since: real, since': real)
    requires since <= since'
    ensures |GrantIds(t, actions, uid, since')| <= |GrantIds(t, actions, uid, since)|
    ensures GrantedUids(t, actions, since') <= GrantedUids(t, actions, since)
  {
    SubsetSize(GrantIds(t, actions, uid, since'), GrantIds(t, actions, uid, since));
    forall id | id in GrantIds(t, actions, None, since')
      ensures t[id].uid in GrantedUids(t, actions, since)
    {
      assert id in GrantIds(t, actions, None, since);
    }
  }

  // Room only grows as the clock moves.
  lemma RoomOverTime(lim: Limits, t: Table, req: Request, now: real, now': real)
    requires now <= now'
    ensures RoomForTotal(lim, t, req, now) ==> RoomForTotal(lim, t, req, now')
    ensures RoomForUser(lim, t, req, now) ==> RoomForUser(lim, t, req, now')
    ensures RoomForSweep(lim, t, req, now) ==> RoomForSweep(lim, t, req, now')
  {
    LaterIsFewer(t, {req.action}, None, now - WINDOW_SECONDS, now' - WINDOW_SECONDS);
    LaterIsFewer(t, {req.action}, Some(req.uid), now - WINDOW_SECONDS, now' - WINDOW_SECONDS);
    LaterIsFewer(t, KeyReleasing(), None, now - DISTINCT_WINDOW_SECONDS, now' - DISTINCT_WINDOW_SECONDS);
    SubsetSize(GrantedUids(t, KeyReleasing(), now' - DISTINCT_WINDOW_SECONDS) + {req.uid},
               GrantedUids(t, KeyReleasing(), now - DISTINCT_WINDOW_SECONDS) + {req.uid});
  }

  // The early return of _sweep_refusal: an account already inside the sampled window adds
  // nobody, because that window was itself within the ceiling.
  lemma CountedAccountHasRoom(lim: Limits, w: World, req: Request, sweepSince: real)
    requires Tables(w) && SweepCeilingHolds(w.hist, lim.distinct)
    requires sweepSince <= w.now - DISTINCT_WINDOW_SECONDS
    requires forall id :: id in w.hist ==> w.hist[id].ts <= sweepSince + DISTINCT_WINDOW_SECONDS
    requires |GrantIds(w.log, KeyReleasing(), Some(req.uid), sweepSince)| > 0
    ensures RoomForSweep(lim, w.hist, req, w.now)
  {
    var all := UidsWithin(w.hist, KeyReleasing(), sweepSince, sweepSince + DISTINCT_WINDOW_SECONDS);
    var id :| id in GrantIds(w.log, KeyReleasing(), Some(req.uid), sweepSince);
    assert id in Within(w.hist, KeyReleasing(), None, sweepSince, sweepSince + DISTINCT_WINDOW_SECONDS);
    assert req.uid in all;
    var recent := GrantedUids(w.hist, KeyReleasing(), w.now - DISTINCT_WINDOW_SECONDS);
    forall i | i in GrantIds(w.hist, KeyReleasing(), None, w.now - DISTINCT_WINDOW_SECONDS)
      ensures w.hist[i].uid in all
    {
      assert i in Within(w.hist, KeyReleasing(), None, sweepSince, sweepSince + DISTINCT_WINDOW_SECONDS);
    }
    SubsetSize(recent + {req.uid}, all);
  }

  // --- inserting one row -----------------------------------------------------

  // Only an interval that reaches the new row can have grown, and all it holds is recent.
  lemma CeilingWithRow(t: Table, id: nat, r: Row, actions: set<Action>, uid: Option<string>, window: real, limit: nat)
    requires id !in t && (forall i :: i in t ==> t[i].ts <= r.ts)
    requires Ceiling(t, actions, uid, window, limit)
    requires Granted(r, actions, uid) ==> |GrantIds(t, actions, uid, r.ts - window)| < limit
    ensures Ceiling(t[id := r], actions, uid, window, limit)
  {
    var t' := t[id := r];
    forall a: real, b: real | b <= a + window
      ensures |Within(t', actions, uid, a, b)| <= limit
    {
      var now := Within(t', actions, uid, a, b);
      if id in now {
        SubsetSize(now - {id}, GrantIds(t, actions, uid, r.ts - window));
        assert |now| == |now - {id}| + 1;
      } else {
        SubsetSize(now, Within(t, actions, uid, a, b));
      }
    }
  }

  lemma SweepWithRow(t: Table, id: nat, r: Row, limit: nat)
    requires id !in t && (forall i :: i in t ==> t[i].ts <= r.ts)
    requires SweepCeilingHolds(t, limit)
    requires Granted(r, KeyReleasing(), None) ==>
               |GrantedUids(t, KeyReleasing(), r.ts - DISTINCT_WINDOW_SECONDS) + {r.uid}| <= limit
    ensures SweepCeilingHolds(t[id := r], limit)
  {
    var t' := t[id := r];
    forall a: real, b: real | b <= a + DISTINCT_WINDOW_SECONDS
      ensures |UidsWithin(t', KeyReleasing(), a, b)| <= limit
    {
      var ids := Within(t', KeyReleasing(), None, a, b);
      var now := UidsWithin(t', KeyReleasing(), a, b);
      if id in ids {
        var cap := GrantedUids(t, KeyReleasing(), r.ts - DISTINCT_WINDOW_SECONDS) + {r.uid};
        forall i | i in ids
          ensures t'[i].uid in cap
        {
          if i != id {
            assert i in GrantIds(t, KeyReleasing(), None, r.ts - DISTINCT_WINDOW_SECONDS);
          }
        }
        SubsetSize(now, cap);
      } else {
        var before := UidsWithin(t, KeyReleasing(), a, b);
        forall i | i in ids
          ensures t'[i].uid in before
        {
          assert i in Within(t, KeyReleasing(), None, a, b);
        }
        SubsetSize(now, before);
      }
    }
  }

  lemma KeyReleasingWithRow(lim: Limits, t: Table, id: nat, req: Request, refusal: Option<Refusal>, at: real, action: Action)
    requires id !in t && (forall i :: i in t ==> t[i].ts <= at)
    requires action in KeyReleasing() && HourlyCeilings(lim, t)
    requires refusal.None? ==> RoomForTotal(lim, t, req, at) && RoomForUser(lim, t, req, at)
    ensures Ceiling(t[id := RowFor(req, refusal, at)], {action}, None, WINDOW_SECONDS, lim.total)
    ensures forall uid :: Ceiling(t[id := RowFor(req, refusal, at)], {action}, Some(uid), WINDOW_SECONDS, lim.perUser)
  {
    var r := RowFor(req, refusal, at);
    CeilingWithRow(t, id, r, {action}, None, WINDOW_SECONDS, lim.total);
    forall uid
      ensures Ceiling(t[id := r], {action}, Some(uid), WINDOW_SECONDS, lim.perUser)
    {
      CeilingWithRow(t, id, r, {action}, Some(uid), WINDOW_SECONDS, lim.perUser);
    }
  }

  lemma HourlyWithRow(lim: Limits, t: Table, id: nat, req: Request, refusal: Option<Refusal>, at: real)
    requires id !in t && (forall i :: i in t ==> t[i].ts <= at)
    requires HourlyCeilings(lim, t)
    requires refusal.None? ==> RoomForTotal(lim, t, req, at) && RoomForUser(lim, t, req, at)
    ensures HourlyCeilings(lim, t[id := RowFor(req, refusal, at)])
  {
    var r := RowFor(req, refusal, at);
    CeilingWithRow(t, id, r, {SignDpop}, None, WINDOW_SECONDS, lim.sign);
    CeilingWithRow(t, id, r, {Rewrap}, None, WINDOW_SECONDS, lim.rewrap);
    KeyReleasingWithRow(lim, t, id, req, refusal, at, UnwrapAndSign);
    KeyReleasingWithRow(lim, t, id, req, refusal, at, Unwrap);
  }

  lemma ClaimsWithRow(lim: Limits, t: Table, grants: Grants, id: nat, req: Request, refusal: Option<Refusal>, at: real)
    requires id !in t && (forall i :: i in t ==> t[i].ts <= at)
    requires Claims(lim, t) && Exact(grants, t)
    requires refusal.None? ==> RoomToGrant(lim, t, grants, req, at)
    ensures Claims(lim, t[id := RowFor(req, refusal, at)])
  {
    var r := RowFor(req, refusal, at);
    HourlyWithRow(lim, t, id, req, refusal, at);
    SweepWithRow(t, id, r, lim.distinct);
    WrapOnceWithRow(t, grants, id, r);
  }

  lemma WrapOnceWithRow(t: Table, grants: Grants, id: nat, r: Row)
    requires id !in t && WrappedOnce(t) && Exact(grants, t)
    requires r.decision.Allow? && r.action.Wrap? ==> (r.uid, Wrap) !in grants
    ensures WrappedOnce(t[id := r])
  {
    if r.decision.Allow? && r.action.Wrap? {
      assert (r.uid, Wrap) !in AllowedKeys(t);
      assert forall i :: !AllowedRow(t, i, (r.uid, Wrap));
    }
    var t' := t[id := r];
    forall i, j, k: Key | k.1 == Wrap && AllowedRow(t', i, k) && AllowedRow(t', j, k)
      ensures i == j
    {
      assert i != id ==> AllowedRow(t, i, k);
      assert j != id ==> AllowedRow(t, j, k);
    }
  }

  // --- preservation ----------------------------------------------------------

  lemma CountsGiveRoom(lim: Limits, w: World, req: Request, since: real)
    requires Tables(w) && since <= w.now - WINDOW_SECONDS
    ensures |GrantIds(w.hist, {req.action}, None, w.now - WINDOW_SECONDS)| <= |GrantIds(w.log, {req.action}, None, since)|
    ensures |GrantIds(w.hist, {req.action}, Some(req.uid), w.now - WINDOW_SECONDS)|
              <= |GrantIds(w.log, {req.action}, Some(req.uid), since)|
  {
    RecentIsCounted(w, {req.action}, None, since, WINDOW_SECONDS);
    RecentIsCounted(w, {req.action}, Some(req.uid), since, WINDOW_SECONDS);
  }

  lemma NewAccountHasRoom(lim: Limits, w: World, req: Request, sweepSince: real)
    requires Tables(w) && sweepSince <= w.now - DISTINCT_WINDOW_SECONDS
    requires |GrantedUids(w.log, KeyReleasing(), sweepSince)| < lim.distinct
    ensures RoomForSweep(lim, w.hist, req, w.now)
  {
    RecentIsCounted(w, KeyReleasing(), None, sweepSince, DISTINCT_WINDOW_SECONDS);
    SubsetSize(GrantedUids(w.hist, KeyReleasing(), w.now - DISTINCT_WINDOW_SECONDS),
               GrantedUids(w.log, KeyReleasing(), sweepSince));
  }

  lemma SweepKeepsFacts(lim: Limits, w: World, req: Request, phase: Phase)
    requires Tables(w) && SweepCeilingHolds(w.hist, lim.distinct)
    requires (phase.SweepSampled? || phase.NewAccount?) && PhaseFacts(lim, w, req, phase)
    ensures PhaseFacts(lim, w, req, NextPhase(lim, w, req, phase))
  {
    if phase.SweepSampled? {
      if |GrantIds(w.log, KeyReleasing(), Some(req.uid), phase.sweepSince)| > 0 {
        CountedAccountHasRoom(lim, w, req, phase.sweepSince);
      }
    } else {
      if |GrantedUids(w.log, KeyReleasing(), phase.sweepSince)| < lim.distinct {
        NewAccountHasRoom(lim, w, req, phase.sweepSince);
      }
    }
  }

  lemma AdvanceKeepsFacts(lim: Limits, w: World)
    requires Inv(lim, w) && w.job.Busy? && !w.job.phase.Stamped?
    ensures PhaseFacts(lim, w, w.job.req, NextPhase(lim, w, w.job.req, w.job.phase))
  {
    var req := w.job.req;
    match w.job.phase
    case Entered =>
    case Windowed(since) => CountsGiveRoom(lim, w, req, since);
    case UserCounted(since) =>
    case SweepSampled(_, _) => SweepKeepsFacts(lim, w, req, w.job.phase);
    case NewAccount(_, _) => SweepKeepsFacts(lim, w, req, w.job.phase);
    case SweepPassed(since) => CountsGiveRoom(lim, w, req, since);
    case Decided(refusal) =>
  }

  lemma InsertKeepsTables(w: World, r: Row)
    requires Tables(w) && r.ts <= w.now && (forall id :: id in w.hist ==> w.hist[id].ts <= r.ts)
    ensures Tables(Inserted(w, r))
  {
    assert w.nextId !in w.hist;
    ExactWithRow(w.grants, w.hist, w.nextId, r);
    var k := (r.uid, r.action);
    if k in w.grants {
      var i :| AllowedRow(w.hist, i, k) && w.hist[i].ts == w.grants[k];
    }
  }

  lemma RecordKeepsInv(lim: Limits, w: World)
    requires Inv(lim, w) && w.job.Busy? && w.job.phase.Stamped?
    ensures Inv(lim, Inserted(w, RowFor(w.job.req, w.job.phase.refusal, w.job.phase.at)))
  {
    InsertKeepsTables(w, RowFor(w.job.req, w.job.phase.refusal, w.job.phase.at));
    ClaimsWithRow(lim, w.hist, w.grants, w.nextId, w.job.req, w.job.phase.refusal, w.job.phase.at);
  }

  lemma StepKeepsInv(lim: Limits, w: World, e: Event)
    requires Inv(lim, w)
    ensures Inv(lim, Step(lim, w, e))
  {
    if Enabled(w, e) {
      match e
      case Begin(req) =>
      case Advance =>
        if w.job.phase.Stamped? {
          RecordKeepsInv(lim, w);
        } else {
          AdvanceKeepsFacts(lim, w);
        }
      case Tick(to) =>
        if w.job.Busy? {
          RoomOverTime(lim, w.hist, w.job.req, w.now, to);
        }
      case Prune(asOf) =>
      case Connect =>
        BackfillIsIdle(w.log, w.hist, w.grants);
      case Restart =>
        BackfillIsIdle(w.log, w.hist, w.grants);
    }
  }

  // The invariant over whole runs: any number of requests, prunes, restarts and connections,
  // in any order, with the clock moving anywhere between two reads.
  lemma {:induction false} RunKeepsInv(lim: Limits, w: World, es: seq<Event>)
    requires Inv(lim, w)
    ensures Inv(lim, Run(lim, w, es))
    decreases |es|
  {
    if es != [] {
      StepKeepsInv(lim, w, es[0]);
      RunKeepsInv(lim, Step(lim, w, es[0]), es[1..]);
    }
  }

  // --- where a run may start -------------------------------------------------

  function Fresh(now: real): World { World(now, map[], 0, map[], Idle, map[]) }

  lemma FreshIsSound(lim: Limits, now: real)
    ensures Inv(lim, Fresh(now))
  {
    var t: Table := map[];
    assert forall actions, uid, a: real, b: real :: Within(t, actions, uid, a, b) == {};
    assert forall a: real, b: real :: UidsWithin(t, KeyReleasing(), a, b) == {};
  }

  // A database that predates `grants`: its first Connect makes the invariant true, provided
  // the log it holds was itself within the ceilings.
  lemma OldDatabaseIsSound(lim: Limits, now: real, t: Table, next: nat)
    requires forall id :: id in t ==> id < next && t[id].ts <= now
    requires Claims(lim, t)
    ensures Inv(lim, Step(lim, World(now, t, next, map[], Idle, t), Connect))
  {
    BackfillRecoversOldLog(t);
  }

  // --- the theorems ----------------------------------------------------------

  // Every closed hour of the history, not only those ending at a decision.
  lemma HourlyCeilingsOverRuns(lim: Limits, now: real, es: seq<Event>, a: real, action: Action, uid: string)
    ensures var h := Run(lim, Fresh(now), es).hist;
            && |Within(h, {SignDpop}, None, a, a + 3600.0)| <= lim.sign
            && |Within(h, {Rewrap}, None, a, a + 3600.0)| <= lim.rewrap
            && (action == UnwrapAndSign || action == Unwrap ==>
                  && |Within(h, {action}, None, a, a + 3600.0)| <= lim.total
                  && |Within(h, {action}, Some(uid), a, a + 3600.0)| <= lim.perUser)
  {
    FreshIsSound(lim, now);
    RunKeepsInv(lim, Fresh(now), es);
  }

  // Every closed quarter hour releases the keys of at most `distinct` accounts, counting
  // both key-releasing actions together.
  lemma SweepCeilingOverRuns(lim: Limits, now: real, es: seq<Event>, a: real)
    ensures |UidsWithin(Run(lim, Fresh(now), es).hist, {UnwrapAndSign, Unwrap}, a, a + 900.0)| <= lim.distinct
  {
    FreshIsSound(lim, now);
    RunKeepsInv(lim, Fresh(now), es);
    assert KeyReleasing() == {UnwrapAndSign, Unwrap} && DISTINCT_WINDOW_SECONDS == 900.0;
  }

  // So a span of D seconds releases the keys of at most distinct * (floor(D / 900) + 1) accounts.
  lemma SweepOverSpan(lim: Limits, now: real, es: seq<Event>, a: real, span: real)
    requires span >= 0.0
    ensures |UidsWithin(Run(lim, Fresh(now), es).hist, {UnwrapAndSign, Unwrap}, a, a + span)|
              <= lim.distinct * ((span / 900.0).Floor + 1)
  {
    FreshIsSound(lim, now);
    RunKeepsInv(lim, Fresh(now), es);
    SweepBound(Run(lim, Fresh(now), es).hist, lim.distinct, a, span);
  }

  lemma SweepBound(h: Table, limit: nat, a: real, span: real)
    requires span >= 0.0 && SweepCeilingHolds(h, limit)
    ensures |UidsWithin(h, KeyReleasing(), a, a + span)| <= limit * ((span / 900.0).Floor + 1)
  {
    var n := (span / 900.0).Floor + 1;
    SweepOverQuarters(h, limit, a, n);
    forall id | id in Within(h, KeyReleasing(), None, a, a + span)
      ensures h[id].uid in UidsWithin(h, KeyReleasing(), a, a + 900.0 * n as real)
    {
      assert id in Within(h, KeyReleasing(), None, a, a + 900.0 * n as real);
    }
    SubsetSize(UidsWithin(h, KeyReleasing(), a, a + span), UidsWithin(h, KeyReleasing(), a, a + 900.0 * n as real));
  }

  lemma UidsSplit(t: Table, a: real, m: real, b: real)
    ensures |UidsWithin(t, KeyReleasing(), a, b)|
         <= |UidsWithin(t, KeyReleasing(), a, m)| + |UidsWithin(t, KeyReleasing(), m, b)|
  {
    var head := UidsWithin(t, KeyReleasing(), a, m);
    var tail := UidsWithin(t, KeyReleasing(), m, b);
    forall id | id in Within(t, KeyReleasing(), None, a, b)
      ensures t[id].uid in head + tail
    {
      assert id in Within(t, KeyReleasing(), None, a, m) || id in Within(t, KeyReleasing(), None, m, b);
    }
    SubsetSize(UidsWithin(t, KeyReleasing(), a, b), head + tail);
  }

  lemma {:induction false} SweepOverQuarters(t: Table, limit: nat, a: real, n: nat)
    requires n > 0 && SweepCeilingHolds(t, limit)
    ensures |UidsWithin(t, KeyReleasing(), a, a + 900.0 * n as real)| <= limit * n
  {
    if n > 1 {
      var m := a + 900.0 * (n - 1) as real;
      SweepOverQuarters(t, limit, a, n - 1);
      UidsSplit(t, a, m, m + DISTINCT_WINDOW_SECONDS);
      assert m + DISTINCT_WINDOW_SECONDS == a + 900.0 * n as real;
      assert limit * n == limit * (n - 1) + limit;
    }
  }

  // At most one `wrap` is ever allowed for a uid, and `grants` is at every moment exactly the
  // pairs ever allowed with their earliest times, although the log itself is pruned.
  lemma WrapOnceOverRuns(lim: Limits, now: real, es: seq<Event>)
    ensures var w := Run(lim, Fresh(now), es);
            && (forall i, j | i in w.hist && j in w.hist && w.hist[i].uid == w.hist[j].uid
                                && w.hist[i].action.Wrap? && w.hist[j].action.Wrap?
                                && w.hist[i].decision.Allow? && w.hist[j].decision.Allow? :: i == j)
            && w.grants.Keys == AllowedKeys(w.hist)
            && (forall k :: k in w.grants ==> IsFirstGrant(w.hist, k, w.grants[k]))
  {
    FreshIsSound(lim, now);
    RunKeepsInv(lim, Fresh(now), es);
    var w := Run(lim, Fresh(now), es);
    forall i, j | i in w.hist && j in w.hist && w.hist[i].uid == w.hist[j].uid
                  && w.hist[i].action.Wrap? && w.hist[j].action.Wrap?
                  && w.hist[i].decision.Allow? && w.hist[j].decision.Allow?
      ensures i == j
    {
      var k := (w.hist[i].uid, Wrap);
      assert AllowedRow(w.hist, i, k) && AllowedRow(w.hist, j, k);
    }
  }
}
