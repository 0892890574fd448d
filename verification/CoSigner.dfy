/** policy.authorize() as it is written: reads of the audit log one call at a time, with
    whatever the rest of the box does in between. Every call is shown to be a run of the
    limiter machine, so what LimiterBounds proves of runs holds of this object. */
module CoSigner {
  import opened Common
  import opened Audit
  import opened Limiter
  import opened LimiterBounds

  const KEY_RELEASING: seq<Action> := [UnwrapAndSign, Unwrap]

  // The refusals each action can meet past the gates, each at or over its own ceiling.
  predicate Named(lim: Limits, action: Action, refusal: Option<Refusal>) {
    match refusal
    case None => true
    case Some(AlreadyWrapped) => action.Wrap?
    case Some(SignCeiling(n)) => action.SignDpop? && n >= lim.sign
    case Some(RewrapCeiling(n)) => action.Rewrap? && n >= lim.rewrap
    case Some(PerUserCeiling(n)) => (action.Unwrap? || action.UnwrapAndSign?) && n >= lim.perUser
    case Some(SweepCeiling(n)) => (action.Unwrap? || action.UnwrapAndSign?) && n >= lim.distinct
    case Some(AggregateCeiling(n)) => (action.Unwrap? || action.UnwrapAndSign?) && n >= lim.total
    case Some(_) => false
  }

  // The answer _rate_refusal ends on, by the log at its last read and the times it sampled.
  ghost predicate RateAnswer(lim: Limits, log: Table, uid: string, action: Action, refusal: Option<Refusal>,
                             at: real, quarter: real) {
    var hourly := |GrantIds(log, {action}, None, at - 3600.0)|;
    match action
    case Wrap => refusal.None?
    case SignDpop => refusal == if hourly >= lim.sign then Some(SignCeiling(hourly)) else None
    case Rewrap => refusal == if hourly >= lim.rewrap then Some(RewrapCeiling(hourly)) else None
    case _ =>
      var used := |GrantIds(log, {action}, Some(uid), at - 3600.0)|;
      var seen := |GrantedUids(log, {UnwrapAndSign, Unwrap}, quarter - 900.0)|;
      match refusal
      case None => hourly < lim.total
      case Some(PerUserCeiling(n)) => n == used >= lim.perUser
      case Some(SweepCeiling(n)) => n == seen >= lim.distinct
      case Some(AggregateCeiling(n)) => n == hourly >= lim.total
      case Some(_) => false
  }

  class Policy {
    const lim: Limits
    const audit: AuditLog
    var now: real
    ghost var job: Job           // the decision holding policy._LOCK
    ghost var hist: Table
    ghost var origin: World      // where this object's run started
    ghost var path: seq<Event>   // and the events since

    ghost function Abs(): World
      reads `now, `job, `hist, audit
    {
      World(now, audit.requests, audit.nextId, audit.grants, job, hist)
    }

    ghost predicate OnPath()
      reads this, audit
    {
      audit.Valid() && Abs() == Run(lim, origin, path)
    }

    constructor (lim: Limits, start: real)
      ensures OnPath() && this.lim == lim && fresh(audit)
      ensures Abs() == origin == Fresh(start) && path == []
    {
      this.lim := lim;
      now, job, hist := start, Idle, map[];
      audit := new AuditLog(map[], 0, map[]);
      origin, path := Fresh(start), [];
      new;
      assert audit.grants.Keys == {};
    }

    // The event that took `before` to the present state joins the run.
    ghost method Note(before: World, e: Event)
      requires audit.Valid() && before == Run(lim, origin, path) && Abs() == Step(lim, before, e)
      modifies `path
      ensures OnPath() && path == old(path) + [e]
    {
      RunConcat(lim, origin, path, [e]);
      path := path + [e];
    }

    // Another process opens the database: BACKFILL finds nothing new in a sound one.
    method AnotherConnects()
      requires OnPath()
      modifies `path, audit
      ensures OnPath() && old(path) <= path && audit.nextId == old(audit.nextId)
      ensures old(audit.grants).Keys <= audit.grants.Keys
      ensures Inv(lim, origin) ==> audit.grants == old(audit.grants)
    {
      ghost var before := Abs();
      if Inv(lim, origin) {
        RunKeepsInv(lim, origin, path);
        BackfillIsIdle(before.log, before.hist, before.grants);
      }
      audit.Connect();
      Note(before, Event.Connect);
    }

    // Time passes, or the retention thread prunes.
    method TimeOrPrune()
      requires OnPath()
      modifies `now, `path, audit
      ensures OnPath() && old(path) <= path
      ensures old(now) <= now && audit.nextId == old(audit.nextId) && audit.grants == old(audit.grants)
    {
      ghost var before := Abs();
      var prune: bool, moment: real := *, *;
      if prune {
        var asOf := if moment < now then moment else now;
        var _, _ := audit.Prune(asOf);
        Note(before, Event.Prune(asOf));
      } else {
        now := if moment < now then now else moment;
        Note(before, Tick(now));
      }
    }

    // Any number of each, in any order.
    method Elsewhere()
      requires OnPath()
      modifies `now, `path, audit
      ensures OnPath() && old(path) <= path
      ensures old(now) <= now && audit.nextId == old(audit.nextId)
      ensures old(audit.grants).Keys <= audit.grants.Keys
      ensures Inv(lim, origin) ==> audit.grants == old(audit.grants)
    {
      var n: nat := *;
      var i := 0;
      while i < n
        invariant OnPath() && old(path) <= path
        invariant old(now) <= now && audit.nextId == old(audit.nextId)
        invariant old(audit.grants).Keys <= audit.grants.Keys
        invariant Inv(lim, origin) ==> audit.grants == old(audit.grants)
      {
        var connect: bool := *;
        if connect {
          AnotherConnects();
        } else {
          TimeOrPrune();
        }
        i := i + 1;
      }
    }

    // _sweep_refusal's first read: an account already counted passes
    method AlreadyCounted(uid: string, ghost since: real, sweepSince: real) returns (already: nat)
      requires OnPath()
      requires job.Busy? && job.req.uid == uid && job.phase == SweepSampled(since, sweepSince)
      modifies `job, `path
      ensures OnPath() && old(path) <= path
      ensures already == |GrantIds(audit.requests, {UnwrapAndSign, Unwrap}, Some(uid), sweepSince)|
      ensures job == old(job).(phase := if already > 0 then SweepPassed(since) else NewAccount(since, sweepSince))
    {
      assert Covered(Some(KEY_RELEASING)) == KeyReleasing();
      ghost var before := Abs();
      already := audit.GrantedSince(sweepSince, Some(KEY_RELEASING), Some(uid));
      job := job.(phase := if already > 0 then SweepPassed(since) else NewAccount(since, sweepSince));
      Note(before, Advance);
    }

    // and its second, for one that is not
    method CountAccounts(ghost since: real, sweepSince: real) returns (refusal: Option<Refusal>)
      requires OnPath()
      requires job.Busy? && job.phase == NewAccount(since, sweepSince)
      modifies `job, `path
      ensures OnPath() && old(path) <= path
      ensures var seen := |GrantedUids(audit.requests, {UnwrapAndSign, Unwrap}, sweepSince)|;
              refusal == if seen >= lim.distinct then Some(SweepCeiling(seen)) else None
      ensures job == old(job).(phase := if refusal.Some? then Decided(refusal) else SweepPassed(since))
    {
      assert Covered(Some(KEY_RELEASING)) == KeyReleasing();
      ghost var before := Abs();
      var seen := audit.DistinctUidsSince(sweepSince, KEY_RELEASING);
      refusal := if seen >= lim.distinct then Some(SweepCeiling(seen)) else None;
      job := job.(phase := if refusal.Some? then Decided(refusal) else SweepPassed(since));
      Note(before, Advance);
    }

    // _sweep_refusal
    method SweepRefusal(uid: string, action: Action, ghost since: real) returns (refusal: Option<Refusal>)
      requires OnPath() && action in KeyReleasing()
      requires job.Busy? && job.req.uid == uid && job.req.action == action && job.phase == UserCounted(since)
      modifies this, audit
      // A refusal is the sweep's, with the accounts of the last read, a ceiling's worth of them; a
      // pass is an account counted already, or too few of them.
      ensures var seen := |GrantedUids(audit.requests, {UnwrapAndSign, Unwrap}, old(now) - 900.0)|;
              if refusal.Some? then refusal == Some(SweepCeiling(seen)) && seen >= lim.distinct
              else seen < lim.distinct || |GrantIds(audit.requests, {UnwrapAndSign, Unwrap}, Some(uid), old(now) - 900.0)| > 0
      ensures OnPath() && old(path) <= path && origin == old(origin)
      ensures job == old(job).(phase := if refusal.Some? then Decided(refusal) else SweepPassed(since))
      ensures hist == old(hist) && old(now) <= now && audit.nextId == old(audit.nextId)
    {
      var sweepSince := now - DISTINCT_WINDOW_SECONDS;
      ghost var before := Abs();
      job := job.(phase := SweepSampled(since, sweepSince));
      Note(before, Advance);

      Elsewhere();
      var already := AlreadyCounted(uid, since, sweepSince);
      if already > 0 {
        return None;
      }
      Elsewhere();
      refusal := CountAccounts(since, sweepSince);
    }

    // The first count of _rate_refusal; `done` when it settles the answer either way.
    method FirstCount(uid: string, action: Action, since: real) returns (refusal: Option<Refusal>, done: bool)
      requires OnPath() && !action.Wrap?
      requires job.Busy? && job.req.uid == uid && job.req.action == action && job.phase == Windowed(since)
      modifies `job, `path
      ensures OnPath() && old(path) <= path
      ensures job == old(job).(phase := if done then Decided(refusal) else UserCounted(since))
      ensures audit.requests == old(audit.requests)
      ensures !done ==> refusal.None? && action in KeyReleasing()
      ensures var hourly := |GrantIds(audit.requests, {action}, None, since)|;
              && (action.SignDpop? ==> done && refusal == if hourly >= lim.sign then Some(SignCeiling(hourly)) else None)
              && (action.Rewrap? ==> done && refusal == if hourly >= lim.rewrap then Some(RewrapCeiling(hourly)) else None)
      ensures var used := |GrantIds(audit.requests, {action}, Some(uid), since)|;
              action.Unwrap? || action.UnwrapAndSign? ==>
                && refusal == (if used >= lim.perUser then Some(PerUserCeiling(used)) else None)
                && (done <==> used >= lim.perUser)
    {
      assert Covered(Some([action])) == {action};
      ghost var before := Abs();
      done := true;
      if action.SignDpop? {
        var signed := audit.GrantedSince(since, Some([action]), None);
        refusal := if signed >= lim.sign then Some(SignCeiling(signed)) else None;
      } else if action.Rewrap? {
        var rewrapped := audit.GrantedSince(since, Some([action]), None);
        refusal := if rewrapped >= lim.rewrap then Some(RewrapCeiling(rewrapped)) else None;
      } else {
        var used := audit.GrantedSince(since, Some([action]), Some(uid));
        refusal := if used >= lim.perUser then Some(PerUserCeiling(used)) else None;
        done := refusal.Some?;
      }
      job := job.(phase := if done then Decided(refusal) else UserCounted(since));
      Note(before, Advance);
    }

    // The last count of _rate_refusal, over all accounts.
    method LastCount(action: Action, since: real) returns (refusal: Option<Refusal>)
      requires OnPath()
      requires job.Busy? && job.req.action == action && job.phase == SweepPassed(since)
      modifies `job, `path
      ensures OnPath() && old(path) <= path
      ensures var total := |GrantIds(audit.requests, {action}, None, since)|;
              refusal == if total >= lim.total then Some(AggregateCeiling(total)) else None
      ensures job == old(job).(phase := Decided(refusal))
    {
      assert Covered(Some([action])) == {action};
      ghost var before := Abs();
      var total := audit.GrantedSince(since, Some([action]), None);
      refusal := if total >= lim.total then Some(AggregateCeiling(total)) else None;
      job := job.(phase := Decided(refusal));
      Note(before, Advance);
    }

    // _wrap_once_refusal
    method WrapOnceRefusal(uid: string) returns (refusal: Option<Refusal>)
      requires OnPath() && job.Busy? && job.req.uid == uid && job.req.action.Wrap?
      requires job.phase == Entered && job.req.Gate().None?
      modifies this, audit
      ensures OnPath() && old(path) <= path && origin == old(origin)
      ensures job == old(job).(phase := Decided(refusal))
      ensures hist == old(hist) && old(now) <= now && audit.nextId == old(audit.nextId)
      ensures refusal.None? || refusal == Some(AlreadyWrapped)
      ensures refusal.None? <==> (uid, Wrap) !in audit.grants
      ensures old(audit.grants).Keys <= audit.grants.Keys
      ensures Inv(lim, origin) ==> audit.grants == old(audit.grants)
    {
      Elsewhere();
      ghost var before := Abs();
      var already := audit.EverGranted(uid, Wrap);
      refusal := if already then Some(AlreadyWrapped) else None;
      job := job.(phase := Decided(refusal));
      Note(before, Advance);
    }

    // _rate_refusal: a wrap it passes without reading the clock
    method RateRefusal(uid: string, action: Action) returns (refusal: Option<Refusal>, ghost at: real, ghost quarter: real)
      requires OnPath() && job.Busy? && job.req.uid == uid && job.req.action == action
      requires job.phase == (if action.Wrap? then Decided(None) else Entered) && job.req.Gate().None?
      modifies this, audit
      ensures OnPath() && old(path) <= path && origin == old(origin)
      ensures job == old(job).(phase := Decided(refusal))
      ensures hist == old(hist) && old(now) <= now && audit.nextId == old(audit.nextId)
      ensures action.Wrap? ==> refusal.None? && now == old(now) && audit.grants == old(audit.grants)
      ensures old(now) <= at <= quarter <= now && RateAnswer(lim, audit.requests, uid, action, refusal, at, quarter)
    {
      at, quarter := now, now;
      if action.Wrap? {
        refusal := None;
        return;
      }
      Elsewhere();
      refusal, at, quarter := MeteredRefusal(uid, action);
    }

    // The rest of _rate_refusal, from its clock sample on.
    method MeteredRefusal(uid: string, action: Action) returns (refusal: Option<Refusal>, ghost at: real, ghost quarter: real)
      requires OnPath() && !action.Wrap?
      requires job.Busy? && job.req.uid == uid && job.req.action == action
      requires job.phase == Entered && job.req.Gate().None?
      modifies this, audit
      ensures OnPath() && old(path) <= path && origin == old(origin)
      ensures job == old(job).(phase := Decided(refusal))
      ensures hist == old(hist) && old(now) <= now && audit.nextId == old(audit.nextId)
      ensures old(now) <= at <= quarter <= now && RateAnswer(lim, audit.requests, uid, action, refusal, at, quarter)
    {
      at, quarter := now, now;
      var since := now - WINDOW_SECONDS;
      ghost var before := Abs();
      job := job.(phase := Windowed(since));
      Note(before, Advance);

      Elsewhere();
      var done;
      refusal, done := FirstCount(uid, action, since);
      if done {
        quarter := now;
        return;
      }
      refusal, quarter := SweepThenTotal(uid, action, at, since);
    }

    // What is left for an unwrap under its per-user ceiling.
    method SweepThenTotal(uid: string, action: Action, ghost at: real, since: real)
      returns (refusal: Option<Refusal>, ghost quarter: real)
      requires OnPath() && action in KeyReleasing() && since == at - 3600.0
      requires job.Busy? && job.req.uid == uid && job.req.action == action && job.phase == UserCounted(since)
      modifies this, audit
      ensures OnPath() && old(path) <= path && origin == old(origin)
      ensures job == old(job).(phase := Decided(refusal))
      ensures hist == old(hist) && audit.nextId == old(audit.nextId)
      ensures old(now) <= quarter <= now && RateAnswer(lim, audit.requests, uid, action, refusal, at, quarter)
    {
      Elsewhere();
      quarter := now;
      refusal := SweepRefusal(uid, action, since);
      if refusal.Some? {
        return;
      }
      Elsewhere();
      refusal := LastCount(action, since);
    }

    // The gates, _wrap_once_refusal and _rate_refusal, in authorize()'s order.
    method Decide(uid: string, action: Action, disabled: bool, attested: bool, precheck: Option<string>)
      returns (refusal: Option<Refusal>, ghost at: real, ghost quarter: real)
      requires OnPath() && job.Busy? && job.req == Request(uid, action, disabled, attested, precheck)
      requires job.phase == Entered
      modifies this, audit
      ensures OnPath() && old(path) <= path && origin == old(origin)
      ensures job == old(job).(phase := Decided(refusal))
      ensures hist == old(hist) && old(now) <= now && audit.nextId == old(audit.nextId)
      ensures job.req.Gate().Some? ==> refusal == job.req.Gate()
      ensures job.req.Gate().None? && action.Wrap? ==> (refusal.None? <==> (uid, Wrap) !in audit.grants)
      ensures job.req.Gate().None? && action.Wrap? && Inv(lim, origin) ==>
                (refusal.None? <==> (uid, Wrap) !in old(audit.grants))
      ensures job.req.Gate().None? && !action.Wrap? ==>
                old(now) <= at <= quarter <= now && RateAnswer(lim, audit.requests, uid, action, refusal, at, quarter)
      ensures job.req.Gate().None? ==> Named(lim, action, refusal)
    {
      at, quarter := now, now;
      refusal := Gated(disabled, attested, precheck);
      if refusal.Some? {
        return;
      }
      if action.Wrap? {
        refusal := WrapOnceRefusal(uid);
        if refusal.Some? {
          return;
        }
      }
      refusal, at, quarter := RateRefusal(uid, action);
    }

    // Kill switch, attestation, the request's own shape; none of them reads the log.
    method Gated(disabled: bool, attested: bool, precheck: Option<string>) returns (refusal: Option<Refusal>)
      requires OnPath() && job.Busy? && job.phase == Entered
      requires job.req.disabled == disabled && job.req.attested == attested && job.req.precheck == precheck
      modifies `job, `path
      ensures OnPath() && old(path) <= path && refusal == old(job).req.Gate()
      ensures job == if refusal.Some? then old(job).(phase := Decided(refusal)) else old(job)
    {
      refusal := None;
      if disabled {
        refusal := Some(Disabled);
      }
      if refusal.None? && !attested {
        refusal := Some(Unattested);
      }
      if refusal.None? && precheck.Some? {
        refusal := Some(BadRequest(precheck.value));
      }
      if refusal.Some? {
        ghost var before := Abs();
        job := job.(phase := Decided(refusal));
        Note(before, Advance);
      }
    }

    // audit.record, under its own lock
    method RecordDecision(uid: string, action: Action, refusal: Option<Refusal>, stamp: real)
      requires OnPath() && job.Busy? && job.req.uid == uid && job.req.action == action
      requires job.phase == Stamped(refusal, stamp)
      modifies this, audit
      ensures OnPath() && old(path) <= path && origin == old(origin) && job.Idle? && now == old(now)
      ensures hist == old(hist)[old(audit.nextId) := Row(stamp, uid, action, if refusal.Some? then Deny else Allow, refusal)]
    {
      ghost var before := Abs();
      hist := hist[audit.nextId := RowFor(job.req, refusal, stamp)];
      audit.Record(uid, action, if refusal.Some? then Deny else Allow, refusal, stamp);
      job := Idle;
      Note(before, Advance);
    }

    // One decision and its one row, stamped between the call and its return.
    method Authorize(uid: string, action: Action, disabled: bool, attested: bool, precheck: Option<string>)
      returns (refusal: Option<Refusal>, ghost at: real)
      requires OnPath() && job.Idle?
      modifies this, audit
      ensures OnPath() && old(path) <= path && origin == old(origin) && job.Idle?
      ensures old(now) <= at <= now
      ensures hist == old(hist)[old(audit.nextId) := Row(at, uid, action, if refusal.Some? then Deny else Allow, refusal)]
      ensures disabled ==> refusal == Some(Disabled)
      ensures !disabled && !attested ==> refusal == Some(Unattested)
      ensures !disabled && attested && precheck.Some? ==> refusal == Some(BadRequest(precheck.value))
      ensures !disabled && attested && precheck.None? ==> Named(lim, action, refusal)
    {
      ghost var before := Abs();
      job := Busy(Request(uid, action, disabled, attested, precheck), now, Entered);
      Note(before, Begin(job.req));
      ghost var sampled, quarter;
      refusal, sampled, quarter := Decide(uid, action, disabled, attested, precheck);

      Elsewhere();
      before := Abs();
      var stamp := now;
      at := stamp;
      job := job.(phase := Stamped(refusal, stamp));
      Note(before, Advance);

      Elsewhere();
      RecordDecision(uid, action, refusal, stamp);
    }

    // What a caller gets out of it: however many decisions this object has made, the ceilings
    // hold of everything it ever allowed.
    lemma CeilingsHold(a: real, action: Action, uid: string)
      requires OnPath() && Inv(lim, origin)
      ensures |UidsWithin(hist, {UnwrapAndSign, Unwrap}, a, a + 900.0)| <= lim.distinct
      ensures action in {UnwrapAndSign, Unwrap} ==>
                && |Within(hist, {action}, Some(uid), a, a + 3600.0)| <= lim.perUser
                && |Within(hist, {action}, None, a, a + 3600.0)| <= lim.total
      ensures |Within(hist, {SignDpop}, None, a, a + 3600.0)| <= lim.sign
      ensures |Within(hist, {Rewrap}, None, a, a + 3600.0)| <= lim.rewrap
      ensures forall i, j, k: Key :: k.1 == Wrap && AllowedRow(hist, i, k) && AllowedRow(hist, j, k) ==> i == j
    {
      RunKeepsInv(lim, origin, path);
      assert KeyReleasing() == {UnwrapAndSign, Unwrap};
    }
  }
}
