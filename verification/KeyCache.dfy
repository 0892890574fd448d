/** keyring.dek_for() in front of the co-signer's limiter, on one clock: how many accounts'
    documents can be read in ten minutes, across every process that caches data keys. */
module KeyCache {
  import opened Common
  import opened Audit
  import opened Limiter
  import opened LimiterBounds

  const DEK_TTL: real := 300.0

  // `_dek_cache` is keyed by account id and the co-signer's rows by handle. An account has one
  // handle for as long as it exists and no handle is shared, so each names the other and the
  // handle stands for both here.

  datatype Entry = Entry(expires: real, seeded: bool)
  // A dek_for() under way; `start` is the clock it sampled before taking the lock.
  datatype Call = Call(proc: nat, handle: string, start: real)
  // A dek_for() that returned a key.
  datatype Read = Read(handle: string, start: real, end: real, seeded: bool)

  datatype System = System(
    w: World,
    caches: map<(nat, string), Entry>,
    calls: map<nat, Call>,
    served: seq<Read>,
    creates: seq<(string, real)>)

  datatype Move =
    | CoSigner(e: Event)
    | Start(tid: nat, proc: nat, handle: string)
    | Hit(tid: nat)
    | Fill(tid: nat, grant: nat)     // the co-signer answered; `grant` is the row it wrote
    | Fail(tid: nat)
    | Create(proc: nat, handle: string)
    | Forget(proc: nat, handle: string)

  predicate Live(s: System, c: Call) {
    (c.proc, c.handle) in s.caches && s.caches[(c.proc, c.handle)].expires > c.start
  }

  ghost predicate Enabled(s: System, a: Move) {
    match a
    case CoSigner(_) => true
    case Start(tid, _, _) => tid !in s.calls
    case Hit(tid) => tid in s.calls && Live(s, s.calls[tid])
    case Fill(tid, grant) =>
      && tid in s.calls && !Live(s, s.calls[tid])
      && grant in s.w.hist && s.calls[tid].start <= s.w.hist[grant].ts
      && Granted(s.w.hist[grant], {Unwrap}, Some(s.calls[tid].handle))
    case Fail(tid) => tid in s.calls
    case Create(_, _) => true
    case Forget(_, _) => true
  }

  ghost function Next(lim: Limits, s: System, a: Move): System {
    if !Enabled(s, a) then s
    else match a
    case CoSigner(e) => s.(w := Step(lim, s.w, e))
    case Start(tid, proc, handle) => s.(calls := s.calls[tid := Call(proc, handle, s.w.now)])
    case Hit(tid) =>
      var c := s.calls[tid];
      s.(calls := s.calls - {tid},
         served := s.served + [Read(c.handle, c.start, s.w.now, s.caches[(c.proc, c.handle)].seeded)])
    case Fill(tid, _) =>
      var c := s.calls[tid];
      s.(calls := s.calls - {tid},
         caches := s.caches[(c.proc, c.handle) := Entry(c.start + DEK_TTL, false)],
         served := s.served + [Read(c.handle, c.start, s.w.now, false)])
    case Fail(tid) => s.(calls := s.calls - {tid})
    case Create(proc, handle) =>
      s.(caches := s.caches[(proc, handle) := Entry(s.w.now + DEK_TTL, true)],
         creates := s.creates + [(handle, s.w.now)])
    case Forget(proc, handle) => s.(caches := s.caches - {(proc, handle)})
  }

  ghost function Run(lim: Limits, s: System, acts: seq<Move>): System
    decreases |acts|
  {
    if acts == [] then s else Run(lim, Next(lim, s, acts[0]), acts[1..])
  }

  // Some metered grant, or some create, for this handle inside (after, until].
  ghost predicate Metered(s: System, handle: string, after: real, until: real) {
    exists id :: id in s.w.hist && Granted(s.w.hist[id], {Unwrap}, Some(handle)) && after <= s.w.hist[id].ts <= until
  }

  ghost predicate Created(s: System, handle: string, after: real, until: real) {
    exists i :: 0 <= i < |s.creates| && s.creates[i].0 == handle && after <= s.creates[i].1 <= until
  }

  // Where a key in memory came from, and how long ago at most.
  ghost predicate Sourced(s: System, handle: string, seeded: bool, after: real, until: real) {
    if seeded then Created(s, handle, after, until) else Metered(s, handle, after, until)
  }

  ghost predicate CachesSourced(s: System) {
    forall k :: k in s.caches ==>
      Sourced(s, k.1, s.caches[k].seeded, s.caches[k].expires - DEK_TTL, s.w.now)
  }

  ghost predicate ReadsSourced(s: System) {
    forall i :: 0 <= i < |s.served| ==>
      Sourced(s, s.served[i].handle, s.served[i].seeded, s.served[i].start - DEK_TTL, s.served[i].end)
  }

  ghost predicate CallsStarted(s: System) {
    forall tid :: tid in s.calls ==> s.calls[tid].start <= s.w.now
  }

  ghost predicate Inv(lim: Limits, s: System) {
    LimiterBounds.Inv(lim, s.w) && CallsStarted(s) && CachesSourced(s) && ReadsSourced(s)
  }

  // The history and the list of creates only grow, so a source stays a source.
  lemma StillSourced(s: System, s': System, handle: string, seeded: bool, after: real, after': real, until: real, until': real)
    requires Sourced(s, handle, seeded, after, until)
    requires forall id :: id in s.w.hist ==> id in s'.w.hist && s'.w.hist[id] == s.w.hist[id]
    requires s.creates <= s'.creates
    requires after' <= after && until <= until'
    ensures Sourced(s', handle, seeded, after', until')
  {
    if seeded {
      var i :| 0 <= i < |s.creates| && s.creates[i].0 == handle && after <= s.creates[i].1 <= until;
      assert s'.creates[i] == s.creates[i];
    } else {
      var id :| id in s.w.hist && Granted(s.w.hist[id], {Unwrap}, Some(handle)) && after <= s.w.hist[id].ts <= until;
      assert id in s'.w.hist;
    }
  }

  lemma HistoryGrows(lim: Limits, w: World, e: Event)
    requires LimiterBounds.Inv(lim, w)
    ensures w.now <= Step(lim, w, e).now
    ensures forall id :: id in w.hist ==> id in Step(lim, w, e).hist && Step(lim, w, e).hist[id] == w.hist[id]
  {
  }

  // What one move leaves true of the co-signer's history and the list of creates.
  lemma MoveOnlyAdds(lim: Limits, s: System, a: Move)
    requires Inv(lim, s) && Enabled(s, a)
    ensures var s' := Next(lim, s, a);
            && LimiterBounds.Inv(lim, s'.w) && s.w.now <= s'.w.now && s.creates <= s'.creates
            && (forall id :: id in s.w.hist ==> id in s'.w.hist && s'.w.hist[id] == s.w.hist[id])
  {
    if a.CoSigner? {
      StepKeepsInv(lim, s.w, a.e);
      HistoryGrows(lim, s.w, a.e);
    }
  }

  lemma CachesStaySourced(lim: Limits, s: System, a: Move)
    requires Inv(lim, s) && Enabled(s, a)
    ensures CachesSourced(Next(lim, s, a))
  {
    var s' := Next(lim, s, a);
    MoveOnlyAdds(lim, s, a);
    forall k | k in s'.caches
      ensures Sourced(s', k.1, s'.caches[k].seeded, s'.caches[k].expires - DEK_TTL, s'.w.now)
    {
      if a.Fill? && k == (s.calls[a.tid].proc, s.calls[a.tid].handle) {
        assert a.grant in s'.w.hist;
      } else if a.Create? && k == (a.proc, a.handle) {
        assert s'.creates[|s.creates|] == (a.handle, s.w.now);
      } else {
        var e := s.caches[k];
        StillSourced(s, s', k.1, e.seeded, e.expires - DEK_TTL, e.expires - DEK_TTL, s.w.now, s'.w.now);
      }
    }
  }

  lemma ReadsStaySourced(lim: Limits, s: System, a: Move)
    requires Inv(lim, s) && Enabled(s, a)
    ensures ReadsSourced(Next(lim, s, a))
  {
    var s' := Next(lim, s, a);
    MoveOnlyAdds(lim, s, a);
    forall i | 0 <= i < |s'.served|
      ensures Sourced(s', s'.served[i].handle, s'.served[i].seeded, s'.served[i].start - DEK_TTL, s'.served[i].end)
    {
      var r := s'.served[i];
      if i < |s.served| {
        StillSourced(s, s', r.handle, r.seeded, r.start - DEK_TTL, r.start - DEK_TTL, r.end, r.end);
      } else if a.Hit? {
        var e := s.caches[(s.calls[a.tid].proc, s.calls[a.tid].handle)];
        StillSourced(s, s', r.handle, r.seeded, e.expires - DEK_TTL, r.start - DEK_TTL, s.w.now, r.end);
      } else {
        assert a.grant in s'.w.hist;
      }
    }
  }

  lemma CallsStayStarted(lim: Limits, s: System, a: Move)
    requires Inv(lim, s) && Enabled(s, a)
    ensures CallsStarted(Next(lim, s, a))
  {
    MoveOnlyAdds(lim, s, a);
  }

  lemma NextKeepsInv(lim: Limits, s: System, a: Move)
    requires Inv(lim, s)
    ensures Inv(lim, Next(lim, s, a))
  {
    if Enabled(s, a) {
      MoveOnlyAdds(lim, s, a);
      CallsStayStarted(lim, s, a);
      CachesStaySourced(lim, s, a);
      ReadsStaySourced(lim, s, a);
    }
  }

  lemma {:induction false} RunKeepsInv(lim: Limits, s: System, acts: seq<Move>)
    requires Inv(lim, s)
    ensures Inv(lim, Run(lim, s, acts))
    decreases |acts|
  {
    if acts != [] {
      NextKeepsInv(lim, s, acts[0]);
      RunKeepsInv(lim, Next(lim, s, acts[0]), acts[1..]);
    }
  }

  function Cold(now: real): System { System(Fresh(now), map[], map[], [], []) }

  // The accounts read by calls that lie wholly inside [a, a + 600], 600 being 900 - DEK_TTL.
  function ReadWithin(served: seq<Read>, a: real): set<string> {
    set r | r in served && !r.seeded && a <= r.start && r.end <= a + (DISTINCT_WINDOW_SECONDS - DEK_TTL) :: r.handle
  }

  // The cache cannot hide a sweep: ten minutes of document reads, over any number of processes
  // and whatever they had cached before, touch no more accounts than the sweep ceiling.
  lemma CacheCannotHideSweep(lim: Limits, now: real, acts: seq<Move>, a: real)
    ensures |ReadWithin(Run(lim, Cold(now), acts).served, a)| <= lim.distinct
  {
    FreshIsSound(lim, now);
    RunKeepsInv(lim, Cold(now), acts);
    var s := Run(lim, Cold(now), acts);
    var released := UidsWithin(s.w.hist, KeyReleasing(), a - DEK_TTL, a - DEK_TTL + DISTINCT_WINDOW_SECONDS);
    forall r | r in s.served && !r.seeded && a <= r.start && r.end <= a + (DISTINCT_WINDOW_SECONDS - DEK_TTL)
      ensures r.handle in released
    {
      var i :| 0 <= i < |s.served| && s.served[i] == r;
      var id :| id in s.w.hist && Granted(s.w.hist[id], {Unwrap}, Some(r.handle))
                && r.start - DEK_TTL <= s.w.hist[id].ts <= r.end;
      assert id in Within(s.w.hist, KeyReleasing(), None, a - DEK_TTL, a - DEK_TTL + DISTINCT_WINDOW_SECONDS);
    }
    SubsetSize(ReadWithin(s.served, a), released);
  }

  // The one exception is as narrow as stated: a key served unmetered was created, in that
  // cache's time to live before the read, by create() itself.
  lemma SeededReadsFollowCreate(lim: Limits, now: real, acts: seq<Move>, i: nat)
    requires i < |Run(lim, Cold(now), acts).served| && Run(lim, Cold(now), acts).served[i].seeded
    ensures var s := Run(lim, Cold(now), acts);
            exists j :: 0 <= j < |s.creates| && s.creates[j].0 == s.served[i].handle
                     && s.served[i].start - 300.0 <= s.creates[j].1 <= s.served[i].end
  {
    FreshIsSound(lim, now);
    RunKeepsInv(lim, Cold(now), acts);
    var s := Run(lim, Cold(now), acts);
    assert Created(s, s.served[i].handle, s.served[i].start - 300.0, s.served[i].end);
  }

  // --- what memory holds -----------------------------------------------------

  // The accounts whose key is in some process's memory, live or long expired.
  function Remembered(s: System): set<string> { set k | k in s.caches :: k.1 }

  function CreatedIn(s: System): set<string> { set i | 0 <= i < |s.creates| :: s.creates[i].0 }

  // A key opened stays in memory, whatever the clock says, until forget() is called for it.
  lemma {:induction false} OnlyForgetDrops(lim: Limits, s: System, acts: seq<Move>, proc: nat, handle: string)
    requires (proc, handle) in s.caches && Forget(proc, handle) !in acts
    ensures (proc, handle) in Run(lim, s, acts).caches
    ensures (proc, handle) !in Next(lim, s, Forget(proc, handle)).caches
    decreases |acts|
  {
    if acts != [] {
      assert acts[0] in acts && forall a :: a in acts[1..] ==> a in acts;
      OnlyForgetDrops(lim, Next(lim, s, acts[0]), acts[1..], proc, handle);
    }
  }

  ghost predicate SinceStart(s: System, start: real) {
    && start <= s.w.now
    && (forall tid :: tid in s.calls ==> start <= s.calls[tid].start)
    && (forall k :: k in s.caches ==> start <= s.caches[k].expires - DEK_TTL)
  }

  lemma NextKeepsSinceStart(lim: Limits, s: System, a: Move, start: real)
    requires Inv(lim, s) && SinceStart(s, start)
    ensures SinceStart(Next(lim, s, a), start)
  {
    if Enabled(s, a) {
      MoveOnlyAdds(lim, s, a);
    }
  }

  lemma {:induction false} RunKeepsSinceStart(lim: Limits, s: System, acts: seq<Move>, start: real)
    requires Inv(lim, s) && SinceStart(s, start)
    ensures Inv(lim, Run(lim, s, acts)) && SinceStart(Run(lim, s, acts), start)
    ensures s.creates <= Run(lim, s, acts).creates
    ensures forall id :: id in s.w.hist ==>
              id in Run(lim, s, acts).w.hist && Run(lim, s, acts).w.hist[id] == s.w.hist[id]
    decreases |acts|
  {
    if acts != [] {
      NextKeepsInv(lim, s, acts[0]);
      NextKeepsSinceStart(lim, s, acts[0], start);
      if Enabled(s, acts[0]) {
        MoveOnlyAdds(lim, s, acts[0]);
      }
      RunKeepsSinceStart(lim, Next(lim, s, acts[0]), acts[1..], start);
    }
  }

  // Every account with a key in memory has an ALLOW row for an unwrap since `start`, or a create; and
  // without a create there are at most so many of them.
  ghost predicate MemoryNamedSince(s: System, start: real, limit: nat) {
    && (forall h :: h in Remembered(s) ==> Metered(s, h, start, s.w.now) || h in CreatedIn(s))
    && WithinCeiling(Remembered(s) - CreatedIn(s), limit, start, s.w.now)
  }

  // No more than the sweep ceiling lets through in [from, to].
  ghost predicate WithinCeiling(hs: set<string>, limit: nat, from: real, to: real) {
    |hs| <= limit * (((to - from) / 900.0).Floor + 1)
  }

  // So it is of processes that started at `now`, whatever they and the co-signer did since.
  lemma MemoryIsNamed(lim: Limits, now: real, acts: seq<Move>)
    ensures MemoryNamedSince(Run(lim, Cold(now), acts), now, lim.distinct)
  {
    MemoryHasRows(lim, now, acts);
    MemoryIsFew(lim, now, acts);
  }

  lemma MemoryHasRows(lim: Limits, now: real, acts: seq<Move>)
    ensures var s := Run(lim, Cold(now), acts);
            forall h :: h in Remembered(s) ==> Metered(s, h, now, s.w.now) || h in CreatedIn(s)
  {
    WarmIsSound(lim, now, acts);
    RememberedAreNamed(Run(lim, Cold(now), acts), now);
  }

  lemma MemoryIsReleased(lim: Limits, now: real, acts: seq<Move>)
    ensures var s := Run(lim, Cold(now), acts);
            Released(Remembered(s) - CreatedIn(s), s.w.hist, lim.distinct, now, s.w.now)
  {
    HistoryIsSwept(lim, now, acts);
    WarmIsSound(lim, now, acts);
    RememberedAreReleased(Run(lim, Cold(now), acts), now);
  }

  lemma HistoryIsSwept(lim: Limits, now: real, acts: seq<Move>)
    ensures SweepCeilingHolds(Run(lim, Cold(now), acts).w.hist, lim.distinct)
  {
    ColdIsSound(lim, now);
    RunKeepsInv(lim, Cold(now), acts);
    SoundIsSwept(lim, Run(lim, Cold(now), acts));
  }

  lemma MemoryIsFew(lim: Limits, now: real, acts: seq<Move>)
    ensures var s := Run(lim, Cold(now), acts);
            WithinCeiling(Remembered(s) - CreatedIn(s), lim.distinct, now, s.w.now)
  {
    var s := Run(lim, Cold(now), acts);
    MemoryIsReleased(lim, now, acts);
    ReleasedAreFew(Remembered(s) - CreatedIn(s), s.w.hist, lim.distinct, now, s.w.now);
  }

  lemma WarmIsSound(lim: Limits, now: real, acts: seq<Move>)
    ensures var s := Run(lim, Cold(now), acts);
            CachesSourced(s) && SinceStart(s, now)
  {
    ColdIsSound(lim, now);
    RunKeepsSinceStart(lim, Cold(now), acts, now);
  }

  lemma ColdIsSound(lim: Limits, now: real)
    ensures Inv(lim, Cold(now)) && SinceStart(Cold(now), now)
  {
    FreshIsSound(lim, now);
  }

  lemma SoundIsSwept(lim: Limits, s: System)
    requires Inv(lim, s)
    ensures SweepCeilingHolds(s.w.hist, lim.distinct)
  {
  }

  // Each of these had its key released within [from, to], under the ceiling.
  ghost predicate Released(hs: set<string>, hist: Table, limit: nat, from: real, to: real) {
    from <= to && SweepCeilingHolds(hist, limit) && hs <= UidsWithin(hist, KeyReleasing(), from, to)
  }

  lemma ReleasedAreFew(hs: set<string>, hist: Table, limit: nat, from: real, to: real)
    requires Released(hs, hist, limit, from, to)
    ensures WithinCeiling(hs, limit, from, to)
  {
    assert from + (to - from) == to;
    SweepBound(hist, limit, from, to - from);
    SubsetSize(hs, UidsWithin(hist, KeyReleasing(), from, to));
  }

  lemma RememberedAreNamed(s: System, start: real)
    requires CachesSourced(s) && SinceStart(s, start)
    ensures forall h :: h in Remembered(s) ==> Metered(s, h, start, s.w.now) || h in CreatedIn(s)
  {
    forall h | h in Remembered(s)
      ensures Metered(s, h, start, s.w.now) || h in CreatedIn(s)
    {
      var k :| k in s.caches && k.1 == h;
      RememberedIsNamed(s, k, start);
    }
  }

  lemma RememberedAreReleased(s: System, start: real)
    requires CachesSourced(s) && SinceStart(s, start)
    ensures Remembered(s) - CreatedIn(s) <= UidsWithin(s.w.hist, KeyReleasing(), start, s.w.now)
  {
    forall h | h in Remembered(s) && h !in CreatedIn(s)
      ensures h in UidsWithin(s.w.hist, KeyReleasing(), start, s.w.now)
    {
      var k :| k in s.caches && k.1 == h;
      RememberedIsNamed(s, k, start);
    }
  }

  lemma RememberedIsNamed(s: System, k: (nat, string), start: real)
    requires CachesSourced(s) && SinceStart(s, start) && k in s.caches
    ensures k.1 in CreatedIn(s)
            || (Metered(s, k.1, start, s.w.now) && k.1 in UidsWithin(s.w.hist, KeyReleasing(), start, s.w.now))
  {
    if s.caches[k].seeded {
      var i :| 0 <= i < |s.creates| && s.creates[i].0 == k.1;
    } else {
      var id :| id in s.w.hist && Granted(s.w.hist[id], {Unwrap}, Some(k.1))
                && s.caches[k].expires - DEK_TTL <= s.w.hist[id].ts <= s.w.now;
      assert id in Within(s.w.hist, KeyReleasing(), None, start, s.w.now);
    }
  }
}
