/** frontend/web_server.py 199-232: the contact form's token bucket, one per source address, and
    the sweep that forgets a source as soon as its bucket is full again. Time is real. A thread
    samples the clock before it takes the lock, so visits are answered in lock order with samples
    that need not be in order; what holds only when they are is said to, and exactly. */
module ContactBucket {
  import opened Common

  const BURST: real := 3.0
  const REFILL_SECONDS: real := 1200.0

  datatype Bucket = Bucket(tokens: real, last: real)

  type Table = map<string, Bucket>

  // _refilled
  function Refilled(b: Bucket, now: real): real {
    var tokens := b.tokens + (now - b.last) / REFILL_SECONDS;
    if tokens < BURST then tokens else BURST
  }

  // What a source has in hand: a source the table does not name has all of it.
  function Level(t: Table, source: string, now: real): real {
    Refilled(if source in t then t[source] else Bucket(BURST, now), now)
  }

  function Swept(t: Table, source: string, now: real): Table {
    map k | k in t && (k == source || Refilled(t[k], now) < BURST) :: t[k]
  }

  function Spend(t: Table, source: string, now: real): Table {
    var tokens := Level(t, source, now);
    t[source := Bucket(if tokens < 1.0 then tokens else tokens - 1.0, now)]
  }

  // --- runs of visits --------------------------------------------------------

  // One visit, and the clock it sampled on the way to the lock. Runs are in lock order.
  datatype Visit = Visit(source: string, at: real)

  // The table the server holds, and one that never forgets a source.
  function After(visits: seq<Visit>): Table {
    if visits == [] then map[]
    else
      var v := visits[|visits| - 1];
      Spend(Swept(After(visits[..|visits| - 1]), v.source, v.at), v.source, v.at)
  }

  function AfterUnswept(visits: seq<Visit>): Table {
    if visits == [] then map[]
    else
      var v := visits[|visits| - 1];
      Spend(AfterUnswept(visits[..|visits| - 1]), v.source, v.at)
  }

  predicate Admits(t: Table, v: Visit) { Level(t, v.source, v.at) >= 1.0 }

  // When the source was admitted.
  function Admissions(visits: seq<Visit>, source: string): seq<real> {
    if visits == [] then []
    else
      var v := visits[|visits| - 1];
      var front := visits[..|visits| - 1];
      Admissions(front, source) + if v.source == source && Admits(After(front), v) then [v.at] else []
  }

  // Threads took the lock in the order they had sampled.
  predicate Sorted(visits: seq<Visit>) {
    forall i, j :: 0 <= i < j < |visits| ==> visits[i].at <= visits[j].at
  }

  predicate NoLaterThan(visits: seq<Visit>, now: real) {
    Sorted(visits) && forall i :: 0 <= i < |visits| ==> visits[i].at <= now
  }

  function CountFrom(times: seq<real>, s: real): nat {
    if times == [] then 0
    else CountFrom(times[..|times| - 1], s) + if s <= times[|times| - 1] then 1 else 0
  }

  function CountIn(times: seq<real>, s: real, t: real): nat {
    if times == [] then 0
    else CountIn(times[..|times| - 1], s, t) + if s <= times[|times| - 1] <= t then 1 else 0
  }

  // --- sweeping changes nothing ----------------------------------------------

  // The kept table names every source the swept one does; the others are full.
  predicate SameFrom(t: Table, kept: Table, now: real) {
    && (forall k :: k in t ==> k in kept && t[k] == kept[k])
    && (forall k :: k in kept && k !in t ==> Refilled(kept[k], now) == BURST)
  }

  lemma {:induction false} SweptRefinesUnswept(visits: seq<Visit>, now: real)
    requires NoLaterThan(visits, now)
    ensures SameFrom(After(visits), AfterUnswept(visits), now)
  {
    if visits != [] {
      var v := visits[|visits| - 1];
      SweptRefinesUnswept(visits[..|visits| - 1], v.at);
    }
  }

  // Every source has the same in hand whether or not refilled buckets were swept, so a swept
  // table answers every next visit as one that forgets nobody.
  lemma SweepingChangesNoDecision(visits: seq<Visit>, v: Visit)
    requires NoLaterThan(visits, v.at)
    ensures Level(After(visits), v.source, v.at) == Level(AfterUnswept(visits), v.source, v.at)
    ensures Admits(After(visits), v) <==> Admits(AfterUnswept(visits), v)
  {
    SweptRefinesUnswept(visits, v.at);
  }

  // --- what the bucket measures ----------------------------------------------

  function Budget(times: seq<real>, s: real, now: real): real {
    BURST + (now - s) / REFILL_SECONDS - CountFrom(times, s) as real
  }

  // The level is the least of the budgets, over every time the count could have started.
  ghost predicate Measures(times: seq<real>, level: real, now: real) {
    && (forall s :: s <= now ==> level <= Budget(times, s, now))
    && (exists s :: s <= now && level == Budget(times, s, now))
  }

  lemma {:induction false} NoneFrom(times: seq<real>, s: real)
    requires forall i :: 0 <= i < |times| ==> times[i] < s
    ensures CountFrom(times, s) == 0
  {
    if times != [] {
      NoneFrom(times[..|times| - 1], s);
    }
  }

  lemma RefillMeasures(times: seq<real>, b: Bucket, now: real)
    requires b.last <= now && b.tokens <= BURST && Measures(times, b.tokens, b.last)
    requires forall i :: 0 <= i < |times| ==> times[i] <= b.last
    ensures Measures(times, Refilled(b, now), now)
  {
    var level := Refilled(b, now);
    forall s | s <= now
      ensures level <= Budget(times, s, now)
    {
      if s <= b.last {
        assert b.tokens <= Budget(times, s, b.last);
      } else {
        NoneFrom(times, s);
      }
    }
    if level == b.tokens + (now - b.last) / REFILL_SECONDS {
      var s :| s <= b.last && b.tokens == Budget(times, s, b.last);
      assert level == Budget(times, s, now);
    } else {
      NoneFrom(times, now);
      assert level == Budget(times, now, now);
    }
  }

  lemma AdmissionMeasures(times: seq<real>, level: real, now: real)
    requires Measures(times, level, now)
    ensures Measures(times + [now], level - 1.0, now)
  {
    assert (times + [now])[..|times|] == times;
    forall s | s <= now
      ensures Budget(times + [now], s, now) == Budget(times, s, now) - 1.0
    {
    }
    var s :| s <= now && level == Budget(times, s, now);
    assert level - 1.0 == Budget(times + [now], s, now);
  }

  lemma {:induction false} AdmissionsArePast(visits: seq<Visit>, source: string, now: real)
    requires NoLaterThan(visits, now)
    ensures forall i :: 0 <= i < |Admissions(visits, source)| ==> Admissions(visits, source)[i] <= now
    ensures source !in AfterUnswept(visits) ==> Admissions(visits, source) == []
    ensures source in AfterUnswept(visits) ==> 0.0 <= AfterUnswept(visits)[source].tokens <= BURST
    ensures source in AfterUnswept(visits) ==> AfterUnswept(visits)[source].last <= now
  {
    if visits != [] {
      AdmissionsArePast(visits[..|visits| - 1], source, visits[|visits| - 1].at);
    }
  }

  // After a source's own visit its bucket measures the admissions, that visit included.
  lemma OwnVisitMeasures(front: seq<Visit>, v: Visit)
    requires NoLaterThan(front, v.at)
    requires Measures(Admissions(front, v.source), Level(AfterUnswept(front), v.source, v.at), v.at)
    ensures Measures(Admissions(front + [v], v.source), AfterUnswept(front + [v])[v.source].tokens, v.at)
    ensures AfterUnswept(front + [v])[v.source].last == v.at
  {
    var visits := front + [v];
    assert visits[..|front|] == front;
    SweepingChangesNoDecision(front, v);
    if Admits(After(front), v) {
      AdmissionMeasures(Admissions(front, v.source), Level(AfterUnswept(front), v.source, v.at), v.at);
      assert Admissions(visits, v.source) == Admissions(front, v.source) + [v.at];
    } else {
      assert Admissions(visits, v.source) == Admissions(front, v.source);
    }
  }

  lemma OthersVisitChangesNothing(front: seq<Visit>, v: Visit, source: string, now: real)
    requires v.source != source
    ensures Admissions(front + [v], source) == Admissions(front, source)
    ensures Level(AfterUnswept(front + [v]), source, now) == Level(AfterUnswept(front), source, now)
  {
    assert (front + [v])[..|front|] == front;
  }

  lemma {:induction false} BucketMeasures(visits: seq<Visit>, source: string, now: real)
    requires NoLaterThan(visits, now)
    ensures Measures(Admissions(visits, source), Level(AfterUnswept(visits), source, now), now)
    decreases |visits|
  {
    if visits == [] {
      assert Budget([], now, now) == BURST;
    } else {
      var v := visits[|visits| - 1];
      var front := visits[..|visits| - 1];
      assert visits == front + [v];
      if v.source != source {
        BucketMeasures(front, source, now);
        OthersVisitChangesNothing(front, v, source, now);
      } else {
        BucketMeasures(front, source, v.at);
        OwnVisitMeasures(front, v);
        AdmissionsArePast(visits, source, v.at);
        RefillMeasures(Admissions(visits, source), AfterUnswept(visits)[source], now);
      }
    }
  }

  // One more admission now keeps every span that ends now within its allowance.
  ghost predicate BudgetLeft(times: seq<real>, now: real) {
    forall s :: s <= now ==> Budget(times, s, now) >= 1.0
  }

  // A visit is admitted exactly when it leaves every span ending now within three plus one for
  // each twenty minutes of it: the limiter refuses nobody it need not.
  lemma AdmittedIffWithinBudget(visits: seq<Visit>, v: Visit)
    requires NoLaterThan(visits, v.at)
    ensures Admits(After(visits), v) <==> BudgetLeft(Admissions(visits, v.source), v.at)
  {
    var times := Admissions(visits, v.source);
    var level := Level(AfterUnswept(visits), v.source, v.at);
    SweepingChangesNoDecision(visits, v);
    BucketMeasures(visits, v.source, v.at);
    MeasuredAtLeast(times, level, v.at);
  }

  // What is measured is at least one exactly when every budget is.
  lemma MeasuredAtLeast(times: seq<real>, level: real, now: real)
    requires Measures(times, level, now)
    ensures level >= 1.0 <==> BudgetLeft(times, now)
  {
    if level >= 1.0 {
      forall s | s <= now
        ensures Budget(times, s, now) >= 1.0
      {
        assert level <= Budget(times, s, now);
      }
    } else {
      var s :| s <= now && level == Budget(times, s, now);
      assert Budget(times, s, now) < 1.0;
    }
  }

  lemma {:induction false} FewerInThanFrom(times: seq<real>, s: real, t: real)
    ensures CountIn(times, s, t) <= CountFrom(times, s)
  {
    if times != [] {
      FewerInThanFrom(times[..|times| - 1], s, t);
    }
  }

  lemma {:induction false} CountInOneMore(times: seq<real>, x: real, s: real, t: real)
    ensures CountIn(times + [x], s, t) == CountIn(times, s, t) + if s <= x <= t then 1 else 0
  {
    assert (times + [x])[..|times|] == times;
  }

  lemma {:induction false} CountFromOneMore(times: seq<real>, x: real, s: real)
    ensures CountFrom(times + [x], s) == CountFrom(times, s) + if s <= x then 1 else 0
  {
    assert (times + [x])[..|times|] == times;
  }

  // In every run, no source is admitted more often in any interval than the form promises.
  lemma {:induction false} AdmissionsAreBounded(visits: seq<Visit>, source: string, s: real, t: real)
    requires Sorted(visits) && s <= t
    ensures CountIn(Admissions(visits, source), s, t) <= (BURST + (t - s) / REFILL_SECONDS).Floor
  {
    if visits != [] {
      var v := visits[|visits| - 1];
      var front := visits[..|visits| - 1];
      var times := Admissions(front, source);
      AdmissionsAreBounded(front, source, s, t);
      if v.source == source && Admits(After(front), v) {
        assert Admissions(visits, source) == times + [v.at];
        CountInOneMore(times, v.at, s, t);
        if s <= v.at <= t {
          AdmittedIffWithinBudget(front, v);
          assert Budget(times, s, v.at) >= 1.0;
          FewerInThanFrom(times, s, t);
          FloorIsLeast(CountIn(times, s, t) + 1, BURST + (t - s) / REFILL_SECONDS);
        }
      } else {
        assert Admissions(visits, source) == times;
      }
    }
  }

  lemma FloorIsLeast(n: int, x: real)
    requires n as real <= x
    ensures n <= x.Floor
  {
  }

  // --- samples out of order --------------------------------------------------

  // No visit overtakes one sampled more than `d` before it.
  predicate Late(visits: seq<Visit>, d: real) {
    forall i, j :: 0 <= i < j < |visits| ==> visits[i].at <= visits[j].at + d
  }

  // What the form promises of a run.
  ghost predicate KeepsBound(visits: seq<Visit>) {
    forall source: string, s: real, t: real :: s <= t ==>
      CountIn(Admissions(visits, source), s, t) <= (BURST + (t - s) / REFILL_SECONDS).Floor
  }

  // The next visit is answered as if nobody had been forgotten, and as the budget says.
  predicate SweepUnseen(visits: seq<Visit>, v: Visit) {
    Admits(After(visits), v) <==> Admits(AfterUnswept(visits), v)
  }

  ghost predicate AnsweredByBudget(visits: seq<Visit>, v: Visit) {
    Admits(After(visits), v) <==> BudgetLeft(Admissions(visits, v.source), v.at)
  }

  // Somebody else's later sample gets to the lock first, its sweep finds x's bucket full by that
  // clock and forgets it, and the visits of x still waiting with an earlier sample find it full.
  function Overtaken(m: real): seq<Visit> {
    [Visit("x", 0.0), Visit("y", 1200.0), Visit("x", m), Visit("x", m)]
  }

  lemma AfterNext(visits: seq<Visit>, v: Visit)
    ensures After(visits + [v]) == Spend(Swept(After(visits), v.source, v.at), v.source, v.at)
    ensures AfterUnswept(visits + [v]) == Spend(AfterUnswept(visits), v.source, v.at)
    ensures Admissions(visits + [v], v.source)
         == Admissions(visits, v.source) + if Admits(After(visits), v) then [v.at] else []
    ensures forall other :: other != v.source ==> Admissions(visits + [v], other) == Admissions(visits, other)
  {
    assert (visits + [v])[..|visits|] == visits;
  }

  lemma OvertakenOnce(m: real)
    requires 1.0 <= m < 1200.0
    ensures var visits := [Visit("x", 0.0), Visit("y", 1200.0)];
            && After(visits) == map["y" := Bucket(2.0, 1200.0)]
            && AfterUnswept(visits) == map["x" := Bucket(2.0, 0.0), "y" := Bucket(2.0, 1200.0)]
            && Admissions(visits, "x") == [0.0]
  {
    var x, y := Visit("x", 0.0), Visit("y", 1200.0);
    AfterNext([], x);
    assert [] + [x] == [x];
    AfterNext([x], y);
    assert [x] + [y] == [x, y];
  }

  lemma OvertakenTwice(m: real)
    requires 1.0 <= m < 1200.0
    ensures var visits := [Visit("x", 0.0), Visit("y", 1200.0), Visit("x", m)];
            && After(visits) == map["x" := Bucket(2.0, m), "y" := Bucket(2.0, 1200.0)]
            && AfterUnswept(visits) == map["x" := Bucket(1.0 + m / 1200.0, m), "y" := Bucket(2.0, 1200.0)]
            && Admissions(visits, "x") == [0.0, m]
  {
    var begun, x := [Visit("x", 0.0), Visit("y", 1200.0)], Visit("x", m);
    OvertakenOnce(m);
    AfterNext(begun, x);
    assert begun + [x] == [Visit("x", 0.0), Visit("y", 1200.0), x];
  }

  lemma OvertakenThrice(m: real)
    requires 1.0 <= m < 1200.0
    ensures After(Overtaken(m)) == map["x" := Bucket(1.0, m), "y" := Bucket(2.0, 1200.0)]
    ensures AfterUnswept(Overtaken(m)) == map["x" := Bucket(m / 1200.0, m), "y" := Bucket(2.0, 1200.0)]
    ensures Admissions(Overtaken(m), "x") == [0.0, m, m]
  {
    var begun, x := [Visit("x", 0.0), Visit("y", 1200.0), Visit("x", m)], Visit("x", m);
    OvertakenTwice(m);
    AfterNext(begun, x);
    assert begun + [x] == Overtaken(m);
  }

  // The third of the waiting visits is admitted: the fourth of x in less than twenty minutes. The
  // table that forgets nobody refuses it, and so does the budget.
  lemma OvertakenBreaksAll(m: real)
    requires 1.0 <= m < 1200.0
    ensures var visits, v := Overtaken(m), Visit("x", m);
            !SweepUnseen(visits, v) && !AnsweredByBudget(visits, v) && !KeepsBound(visits + [v])
  {
    var visits, v := Overtaken(m), Visit("x", m);
    OvertakenThrice(m);
    AfterNext(visits, v);
    var times: seq<real> := [0.0, m, m];
    CountsOfFour(m);
    assert Budget(times, 0.0, m) < 1.0;
    assert Admissions(visits + [v], "x") == times + [m];
    assert CountIn(Admissions(visits + [v], "x"), 0.0, m) == 4;
    assert (BURST + (m - 0.0) / REFILL_SECONDS).Floor == 3;
  }

  lemma CountsOfFour(m: real)
    requires 1.0 <= m
    ensures CountFrom([0.0, m, m], 0.0) == 3 && CountIn([0.0, m, m] + [m], 0.0, m) == 4
  {
    CountInOneMore([], 0.0, 0.0, m);
    CountInOneMore([0.0], m, 0.0, m);
    CountInOneMore([0.0, m], m, 0.0, m);
    CountInOneMore([0.0, m, m], m, 0.0, m);
    assert [] + [0.0] == [0.0] && [0.0] + [m] == [0.0, m] && [0.0, m] + [m] == [0.0, m, m];
    CountFromOneMore([], 0.0, 0.0);
    CountFromOneMore([0.0], m, 0.0);
    CountFromOneMore([0.0, m], m, 0.0);
  }

  // How early a sample may be when the run is late by more than nothing.
  function Early(d: real): real { if d >= 1199.0 then 1.0 else 1200.0 - d }

  lemma OvertakenIsLate(d: real)
    requires d > 0.0
    ensures Late(Overtaken(Early(d)) + [Visit("x", Early(d))], d)
  {
  }

  lemma InOrderIsSorted(visits: seq<Visit>, v: Visit, d: real)
    requires d <= 0.0 && Late(visits + [v], d)
    ensures NoLaterThan(visits, v.at)
  {
    var all := visits + [v];
    assert all[|visits|] == v;
    assert forall i :: 0 <= i < |visits| ==> all[i] == visits[i];
  }

  // Exactly: the bound holds in every run late by no more than `d` if and only if none is late.
  lemma BoundKeptIffInOrder(d: real)
    ensures (forall visits: seq<Visit> :: Late(visits, d) ==> KeepsBound(visits)) <==> d <= 0.0
  {
    if d <= 0.0 {
      forall visits: seq<Visit> | Late(visits, d)
        ensures KeepsBound(visits)
      {
        forall source: string, s: real, t: real | s <= t
          ensures CountIn(Admissions(visits, source), s, t) <= (BURST + (t - s) / REFILL_SECONDS).Floor
        {
          AdmissionsAreBounded(visits, source, s, t);
        }
      }
    } else {
      OvertakenIsLate(d);
      OvertakenBreaksAll(Early(d));
    }
  }

  // And so do the other two promises: sweeping is unseen, and the budget decides.
  lemma SweepUnseenIffInOrder(d: real)
    ensures (forall visits: seq<Visit>, v: Visit :: Late(visits + [v], d) ==> SweepUnseen(visits, v)) <==> d <= 0.0
  {
    if d <= 0.0 {
      forall visits: seq<Visit>, v: Visit | Late(visits + [v], d)
        ensures SweepUnseen(visits, v)
      {
        InOrderIsSorted(visits, v, d);
        SweepingChangesNoDecision(visits, v);
      }
    } else {
      OvertakenIsLate(d);
      OvertakenBreaksAll(Early(d));
      assert !SweepUnseen(Overtaken(Early(d)), Visit("x", Early(d)));
    }
  }

  lemma BudgetDecidesIffInOrder(d: real)
    ensures (forall visits: seq<Visit>, v: Visit :: Late(visits + [v], d) ==> AnsweredByBudget(visits, v)) <==> d <= 0.0
  {
    if d <= 0.0 {
      forall visits: seq<Visit>, v: Visit | Late(visits + [v], d)
        ensures AnsweredByBudget(visits, v)
      {
        InOrderIsSorted(visits, v, d);
        AdmittedIffWithinBudget(visits, v);
      }
    } else {
      OvertakenIsLate(d);
      OvertakenBreaksAll(Early(d));
      assert !AnsweredByBudget(Overtaken(Early(d)), Visit("x", Early(d)));
    }
  }

  // --- the form itself -------------------------------------------------------

  class ContactForm {
    var buckets: Table
    var clock: real
    ghost var visits: seq<Visit>      // in the order they took the lock

    ghost predicate Valid()
      reads this
    {
      buckets == After(visits) && SampledBy(visits, clock)
    }

    constructor (start: real)
      ensures Valid() && visits == [] && clock == start
    {
      buckets, clock, visits := map[], start, [];
    }

    // time.monotonic()
    method Monotonic() returns (now: real)
      requires Valid()
      modifies `clock
      ensures Valid() && old(clock) <= now == clock
    {
      now := *;
      if now < clock { now := clock; }
      clock := now;
    }

    // The sweep on the way past: of the other sources, only those in deficit stay.
    method Sweep(source: string, now: real)
      modifies `buckets
      ensures buckets == Swept(old(buckets), source, now)
    {
      ghost var before := buckets;
      var others := buckets.Keys - {source};
      while others != {}
        invariant others <= buckets.Keys - {source}
        invariant buckets.Keys <= before.Keys
        invariant forall k :: k in buckets ==> buckets[k] == before[k]
        invariant forall k :: k in before && k !in others ==>
                    (k in buckets <==> k == source || Refilled(before[k], now) < BURST)
        decreases |others|
      {
        var other :| other in others;
        others := others - {other};
        if Refilled(buckets[other], now) >= BURST {
          buckets := buckets - {other};
        }
      }
    }

    method Take(source: string, now: real) returns (allowed: bool)
      modifies `buckets
      ensures buckets == Spend(old(buckets), source, now)
      ensures allowed == Admits(old(buckets), Visit(source, now))
    {
      var tokens := Refilled(if source in buckets then buckets[source] else Bucket(BURST, now), now);
      if tokens < 1.0 {
        buckets := buckets[source := Bucket(tokens, now)];
        return false;
      }
      buckets := buckets[source := Bucket(tokens - 1.0, now)];
      return true;
    }

    // What _contact_allowed does under its lock, with the sample it brought.
    method Answer(source: string, now: real) returns (allowed: bool)
      requires Valid() && now <= clock
      modifies `buckets, `visits
      ensures Valid() && visits == old(visits) + [Visit(source, now)]
      ensures allowed == Admits(After(old(visits)), Visit(source, now))
      ensures OthersInDeficit(buckets, source, now)
    {
      Sweep(source, now);
      SweptAnswers(visits, Visit(source, now), buckets);
      allowed := Take(source, now);
      VisitTaken(visits, Visit(source, now), buckets);
      SampledByNext(visits, Visit(source, now), clock);
      visits := visits + [Visit(source, now)];
    }

    // Other threads at the lock meanwhile, with whatever samples they hold.
    method Others()
      requires Valid()
      modifies this
      ensures Valid() && old(visits) <= visits && old(clock) <= clock
    {
      var n: nat := *;
      var i := 0;
      while i < n
        invariant Valid() && old(visits) <= visits && old(clock) <= clock
      {
        i := i + 1;
        var now := Monotonic();
        var source: string, sample: real := *, *;
        if sample <= now {
          var _ := Answer(source, sample);
        }
      }
    }

    // _contact_allowed: the clock first, then the lock.
    method ContactAllowed(source: string) returns (allowed: bool, ghost now: real)
      requires Valid()
      modifies this
      ensures Valid() && old(clock) <= now <= clock
      ensures old(visits) < visits && visits[|visits| - 1] == Visit(source, now)
      ensures allowed == Admits(After(visits[..|visits| - 1]), Visit(source, now))
      ensures OthersInDeficit(buckets, source, now)
    {
      var sample := Monotonic();
      Others();
      allowed := Answer(source, sample);
      now := sample;
      assert visits[..|visits| - 1] + [visits[|visits| - 1]] == visits;
    }
  }

  predicate SampledBy(visits: seq<Visit>, clock: real) {
    forall i :: 0 <= i < |visits| ==> visits[i].at <= clock
  }

  lemma SampledByNext(visits: seq<Visit>, v: Visit, clock: real)
    requires SampledBy(visits, clock) && v.at <= clock
    ensures SampledBy(visits + [v], clock)
  {
  }

  // Sweeping leaves the visitor's own level alone.
  lemma SweptAnswers(visits: seq<Visit>, v: Visit, swept: Table)
    requires swept == Swept(After(visits), v.source, v.at)
    ensures Admits(swept, v) <==> Admits(After(visits), v)
  {
  }

  // What is in the table once the visit has been answered.
  lemma VisitTaken(visits: seq<Visit>, v: Visit, after: Table)
    requires after == Spend(Swept(After(visits), v.source, v.at), v.source, v.at)
    ensures after == After(visits + [v]) && OthersInDeficit(after, v.source, v.at)
  {
    AfterNext(visits, v);
    SweptInDeficit(After(visits), v.source, v.at);
    SpendKeepsDeficit(Swept(After(visits), v.source, v.at), v.source, v.at);
  }

  lemma SweptInDeficit(t: Table, source: string, now: real)
    ensures OthersInDeficit(Swept(t, source, now), source, now)
  {
  }

  lemma SpendKeepsDeficit(t: Table, source: string, now: real)
    requires OthersInDeficit(t, source, now)
    ensures OthersInDeficit(Spend(t, source, now), source, now)
  {
  }

  predicate OthersInDeficit(t: Table, source: string, now: real) {
    forall k :: k in t && k != source ==> Refilled(t[k], now) < BURST
  }
}
