/** The limiter refuses only what it must: with nothing happening between its reads, a decision
    that passes the gates is granted exactly when one more grant keeps every ceiling. */
module LimiterExact {
  import opened Common
  import opened Audit
  import opened Limiter
  import opened LimiterBounds

  function ReadsLeft(phase: Phase): nat {
    match phase
    case Entered => 6
    case Windowed(_) => 5
    case UserCounted(_) => 4
    case SweepSampled(_, _) => 3
    case NewAccount(_, _) => 2
    case SweepPassed(_) => 1
    case Decided(_) => 0
    case Stamped(_, _) => 0
  }

  // What the remaining reads answer if the world stands still meanwhile.
  ghost function Answer(lim: Limits, w: World, req: Request, phase: Phase): Option<Refusal>
    requires !phase.Stamped?
    decreases ReadsLeft(phase)
  {
    if phase.Decided? then phase.refusal else Answer(lim, w, req, NextPhase(lim, w, req, phase))
  }

  // It is the machine's own answer, its reads taken one straight after another.
  lemma {:induction false} AnswerIsARun(lim: Limits, w: World) returns (es: seq<Event>)
    requires w.job.Busy? && !w.job.phase.Stamped?
    ensures forall i :: 0 <= i < |es| ==> es[i] == Advance
    ensures Run(lim, w, es) == w.(job := w.job.(phase := Decided(Answer(lim, w, w.job.req, w.job.phase))))
    decreases ReadsLeft(w.job.phase)
  {
    if w.job.phase.Decided? {
      es := [];
    } else {
      var w' := Step(lim, w, Advance);
      SameAnswer(lim, w, w', w.job.req, w'.job.phase);
      var rest := AnswerIsARun(lim, w');
      es := [Advance] + rest;
      assert es[1..] == rest;
    }
  }

  // The answer reads the clock and the tables, not the job.
  lemma {:induction false} SameAnswer(lim: Limits, w: World, w': World, req: Request, phase: Phase)
    requires !phase.Stamped? && w'.log == w.log && w'.grants == w.grants && w'.now == w.now
    ensures Answer(lim, w', req, phase) == Answer(lim, w, req, phase)
    decreases ReadsLeft(phase)
  {
    if !phase.Decided? {
      SameAnswer(lim, w, w', req, NextPhase(lim, w, req, phase));
    }
  }

  // --- which refusal it is ---------------------------------------------------

  // An unwrap of either kind: the per-user ceiling first, then the sweep for an account not yet
  // counted, then the hourly total, each named with the number it read.
  lemma UnwrapAnswerNamed(lim: Limits, w: World, req: Request)
    requires req.Gate().None? && (req.action.Unwrap? || req.action.UnwrapAndSign?)
    ensures var answer := Answer(lim, w, req, Entered);
            var used := |GrantIds(w.log, {req.action}, Some(req.uid), w.now - 3600.0)|;
            var seen := |GrantedUids(w.log, {Unwrap, UnwrapAndSign}, w.now - 900.0)|;
            var total := |GrantIds(w.log, {req.action}, None, w.now - 3600.0)|;
            var counted := req.uid in GrantedUids(w.log, {Unwrap, UnwrapAndSign}, w.now - 900.0);
            && (forall n :: answer == Some(PerUserCeiling(n)) <==> n == used && used >= lim.perUser)
            && (forall n :: answer == Some(SweepCeiling(n)) <==>
                  used < lim.perUser && !counted && n == seen && seen >= lim.distinct)
            && (forall n :: answer == Some(AggregateCeiling(n)) <==>
                  used < lim.perUser && (counted || seen < lim.distinct) && n == total && total >= lim.total)
            && (answer.None? <==> used < lim.perUser && (counted || seen < lim.distinct) && total < lim.total)
  {
    assert KeyReleasing() == {Unwrap, UnwrapAndSign};
    CountedOnce(w.log, req.uid, w.now - DISTINCT_WINDOW_SECONDS);
    ThreeReads(lim, w, req);
  }

  lemma ThreeReads(lim: Limits, w: World, req: Request)
    requires req.Gate().None? && req.action in KeyReleasing()
    ensures var hour, quarter := w.now - WINDOW_SECONDS, w.now - DISTINCT_WINDOW_SECONDS;
            var used := |GrantIds(w.log, {req.action}, Some(req.uid), hour)|;
            var seen := |GrantedUids(w.log, KeyReleasing(), quarter)|;
            var total := |GrantIds(w.log, {req.action}, None, hour)|;
            var counted := |GrantIds(w.log, KeyReleasing(), Some(req.uid), quarter)| > 0;
            Answer(lim, w, req, Entered)
            == (if used >= lim.perUser then Some(PerUserCeiling(used))
                else if !counted && seen >= lim.distinct then Some(SweepCeiling(seen))
                else if total >= lim.total then Some(AggregateCeiling(total))
                else None)
  {
    var hour, quarter := w.now - WINDOW_SECONDS, w.now - DISTINCT_WINDOW_SECONDS;
    OneRead(lim, w, req, Entered);
    OneRead(lim, w, req, Windowed(hour));
    OneRead(lim, w, req, UserCounted(hour));
    OneRead(lim, w, req, SweepSampled(hour, quarter));
    OneRead(lim, w, req, NewAccount(hour, quarter));
    OneRead(lim, w, req, SweepPassed(hour));
  }

  lemma OneRead(lim: Limits, w: World, req: Request, phase: Phase)
    requires !phase.Stamped? && !phase.Decided?
    ensures Answer(lim, w, req, phase) == Answer(lim, w, req, NextPhase(lim, w, req, phase))
  {
  }

  lemma CountedOnce(log: Table, uid: string, since: real)
    ensures uid in GrantedUids(log, KeyReleasing(), since) <==> |GrantIds(log, KeyReleasing(), Some(uid), since)| > 0
  {
    if uid in GrantedUids(log, KeyReleasing(), since) {
      var id :| id in GrantIds(log, KeyReleasing(), None, since) && log[id].uid == uid;
      assert id in GrantIds(log, KeyReleasing(), Some(uid), since);
    } else {
      assert forall id :: id in GrantIds(log, KeyReleasing(), Some(uid), since) ==> id in GrantIds(log, KeyReleasing(), None, since);
      assert GrantIds(log, KeyReleasing(), Some(uid), since) == {};
    }
  }

  // A proof on its own and a rewrap: one ceiling each, over all accounts together.
  lemma OtherAnswersNamed(lim: Limits, w: World, req: Request)
    requires req.Gate().None?
    ensures var answer := Answer(lim, w, req, Entered);
            var hourly := |GrantIds(w.log, {req.action}, None, w.now - 3600.0)|;
            && (req.action.SignDpop? ==> answer == if hourly >= lim.sign then Some(SignCeiling(hourly)) else None)
            && (req.action.Rewrap? ==> answer == if hourly >= lim.rewrap then Some(RewrapCeiling(hourly)) else None)
            && (req.action.Wrap? ==> answer == if (req.uid, Wrap) in w.grants then Some(AlreadyWrapped) else None)
  {
    OneRead(lim, w, req, Entered);
    if !req.action.Wrap? {
      OneRead(lim, w, req, Windowed(w.now - WINDOW_SECONDS));
    }
  }

  // --- granted means room ----------------------------------------------------

  lemma {:induction false} GrantedHasRoom(lim: Limits, w: World)
    requires Inv(lim, w) && w.job.Busy? && !w.job.phase.Stamped?
    requires Answer(lim, w, w.job.req, w.job.phase).None?
    ensures RoomToGrant(lim, w.hist, w.grants, w.job.req, w.now)
    decreases ReadsLeft(w.job.phase)
  {
    if !w.job.phase.Decided? {
      var w' := Step(lim, w, Advance);
      StepKeepsInv(lim, w, Advance);
      SameAnswer(lim, w, w', w.job.req, w'.job.phase);
      GrantedHasRoom(lim, w');
    }
  }

  // --- refused means none ----------------------------------------------------

  function Granting(req: Request, now: real): Row { RowFor(req, None, now) }

  // A count at its limit, with the row the grant would add, is over it.
  lemma CountAtLimit(w: World, req: Request, actions: set<Action>, uid: Option<string>, window: real, limit: nat)
    requires Tables(w) && window >= 0.0 && Granted(Granting(req, w.now), actions, uid)
    requires |GrantIds(w.log, actions, uid, w.now - window)| >= limit
    ensures !Ceiling(w.hist[w.nextId := Granting(req, w.now)], actions, uid, window, limit)
  {
    var t := w.hist[w.nextId := Granting(req, w.now)];
    var counted := GrantIds(w.log, actions, uid, w.now - window);
    var all := Within(t, actions, uid, w.now - window, w.now);
    assert w.nextId !in w.hist;
    UnionSize(counted, {w.nextId});
    SubsetSize(counted + {w.nextId}, all);
  }

  lemma AccountsAtLimit(w: World, req: Request, limit: nat)
    requires Tables(w) && req.action in KeyReleasing()
    requires GrantIds(w.log, KeyReleasing(), Some(req.uid), w.now - DISTINCT_WINDOW_SECONDS) == {}
    requires |GrantedUids(w.log, KeyReleasing(), w.now - DISTINCT_WINDOW_SECONDS)| >= limit
    ensures !SweepCeilingHolds(w.hist[w.nextId := Granting(req, w.now)], limit)
  {
    var since := w.now - DISTINCT_WINDOW_SECONDS;
    var seen := GrantedUids(w.log, KeyReleasing(), since);
    AccountsInSpan(w, req, since);
    AccountIsNew(w.log, req.uid, since);
    UnionSize(seen, {req.uid});
    SubsetSize(seen + {req.uid}, UidsWithin(w.hist[w.nextId := Granting(req, w.now)], KeyReleasing(), since, w.now));
  }

  lemma AccountIsNew(log: Table, uid: string, since: real)
    requires GrantIds(log, KeyReleasing(), Some(uid), since) == {}
    ensures uid !in GrantedUids(log, KeyReleasing(), since)
  {
    forall id | id in GrantIds(log, KeyReleasing(), None, since)
      ensures log[id].uid != uid
    {
      assert log[id].uid == uid ==> id in GrantIds(log, KeyReleasing(), Some(uid), since);
    }
  }

  lemma AccountsInSpan(w: World, req: Request, since: real)
    requires Tables(w) && req.action in KeyReleasing() && since <= w.now
    ensures var all := UidsWithin(w.hist[w.nextId := Granting(req, w.now)], KeyReleasing(), since, w.now);
            GrantedUids(w.log, KeyReleasing(), since) + {req.uid} <= all
  {
    var t := w.hist[w.nextId := Granting(req, w.now)];
    assert w.nextId !in w.hist;
    assert w.nextId in Within(t, KeyReleasing(), None, since, w.now);
    forall id | id in GrantIds(w.log, KeyReleasing(), None, since)
      ensures w.log[id].uid in UidsWithin(t, KeyReleasing(), since, w.now)
    {
      assert id in Within(t, KeyReleasing(), None, since, w.now);
    }
  }

  lemma WrappedBefore(w: World, req: Request)
    requires Tables(w) && req.action.Wrap? && (req.uid, Wrap) in w.grants
    ensures !WrappedOnce(w.hist[w.nextId := Granting(req, w.now)])
  {
    var k := (req.uid, Wrap);
    var t := w.hist[w.nextId := Granting(req, w.now)];
    var i :| AllowedRow(w.hist, i, k);
    assert AllowedRow(t, i, k) && AllowedRow(t, w.nextId, k) && i != w.nextId;
  }

  // Every sample in the phase was taken at the present moment.
  ghost predicate JustSampled(w: World, req: Request, phase: Phase) {
    match phase
    case Entered => true
    case Windowed(since) => since == w.now - WINDOW_SECONDS && !req.action.Wrap?
    case UserCounted(since) => since == w.now - WINDOW_SECONDS && req.action in KeyReleasing()
    case SweepSampled(since, s) =>
      since == w.now - WINDOW_SECONDS && s == w.now - DISTINCT_WINDOW_SECONDS && req.action in KeyReleasing()
    case NewAccount(since, s) =>
      && since == w.now - WINDOW_SECONDS && s == w.now - DISTINCT_WINDOW_SECONDS && req.action in KeyReleasing()
      && GrantIds(w.log, KeyReleasing(), Some(req.uid), s) == {}
    case SweepPassed(since) => since == w.now - WINDOW_SECONDS && req.action in KeyReleasing()
    case Decided(refusal) => refusal.None?
    case Stamped(_, _) => false
  }

  // A read either settles on a refusal that one more grant would have broken a ceiling for, or
  // goes on.
  lemma ReadRefusesOnlyAtALimit(lim: Limits, w: World, req: Request, phase: Phase)
    requires Tables(w) && req.Gate().None? && JustSampled(w, req, phase) && !phase.Decided?
    ensures var next := NextPhase(lim, w, req, phase);
            if next.Decided? && next.refusal.Some?
            then !Claims(lim, w.hist[w.nextId := Granting(req, w.now)])
            else JustSampled(w, req, next)
  {
    match phase
    case Entered => if req.action.Wrap? && (req.uid, Wrap) in w.grants { WrappedBefore(w, req); }
    case Windowed(_) => FirstCountAtLimit(lim, w, req);
    case UserCounted(_) =>
    case SweepSampled(_, _) =>
    case NewAccount(_, s) =>
      if |GrantedUids(w.log, KeyReleasing(), s)| >= lim.distinct { AccountsAtLimit(w, req, lim.distinct); }
    case SweepPassed(since) =>
      if |GrantIds(w.log, {req.action}, None, since)| >= lim.total {
        CountAtLimit(w, req, {req.action}, None, WINDOW_SECONDS, lim.total);
      }
  }

  lemma FirstCountAtLimit(lim: Limits, w: World, req: Request)
    requires Tables(w) && !req.action.Wrap?
    ensures var next := NextPhase(lim, w, req, Windowed(w.now - WINDOW_SECONDS));
            next.Decided? && next.refusal.Some? ==> !HourlyCeilings(lim, w.hist[w.nextId := Granting(req, w.now)])
  {
    var since := w.now - WINDOW_SECONDS;
    if req.action.SignDpop? {
      if |GrantIds(w.log, {req.action}, None, since)| >= lim.sign {
        CountAtLimit(w, req, {req.action}, None, WINDOW_SECONDS, lim.sign);
      }
    } else if req.action.Rewrap? {
      if |GrantIds(w.log, {req.action}, None, since)| >= lim.rewrap {
        CountAtLimit(w, req, {req.action}, None, WINDOW_SECONDS, lim.rewrap);
      }
    } else if |GrantIds(w.log, {req.action}, Some(req.uid), since)| >= lim.perUser {
      CountAtLimit(w, req, {req.action}, Some(req.uid), WINDOW_SECONDS, lim.perUser);
    }
  }

  lemma {:induction false} RefusedHasNoRoom(lim: Limits, w: World, req: Request, phase: Phase)
    requires Tables(w) && req.Gate().None? && JustSampled(w, req, phase)
    requires Answer(lim, w, req, phase).Some?
    ensures !Claims(lim, w.hist[w.nextId := Granting(req, w.now)])
    decreases ReadsLeft(phase)
  {
    if !phase.Decided? {
      var next := NextPhase(lim, w, req, phase);
      ReadRefusesOnlyAtALimit(lim, w, req, phase);
      if !(next.Decided? && next.refusal.Some?) {
        RefusedHasNoRoom(lim, w, req, next);
      }
    }
  }

  // --- the theorem -----------------------------------------------------------

  // Taken without a pause, a decision past the gates is granted if and only if the history with
  // its grant still keeps the sweep ceiling, the hourly ceilings and wrap-once.
  lemma GrantedIffCeilingsKept(lim: Limits, w: World, req: Request)
    requires Inv(lim, w) && w.job.Idle? && req.Gate().None?
    ensures Answer(lim, w, req, Entered).None? <==> Claims(lim, w.hist[w.nextId := Granting(req, w.now)])
  {
    if Answer(lim, w, req, Entered).None? {
      var begun := Step(lim, w, Begin(req));
      StepKeepsInv(lim, w, Begin(req));
      SameAnswer(lim, w, begun, req, Entered);
      GrantedHasRoom(lim, begun);
      ClaimsWithRow(lim, w.hist, w.grants, w.nextId, req, None, w.now);
    } else {
      RefusedHasNoRoom(lim, w, req, Entered);
    }
  }
}
