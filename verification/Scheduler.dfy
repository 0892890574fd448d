/** backend/daemons/scheduler.py: when a cadence next fires, and the pass that runs what is due
    and moves the marks. Moments are whole microseconds of UTC since 1970. */
module Scheduler {
  import opened Common

  const MINUTE: int := 60_000_000
  const HOUR: int := 60 * MINUTE
  const WEEK_HOURS: int := 7 * 24
  const HORIZON_HOURS: int := 8 * 24
  const WEEK: int := WEEK_HOURS * HOUR

  datatype Cadence = Cadence(hours: set<int>, minute: int, weekday: Option<int>)

  datatype Job = Job(name: string, cadence: Cadence)

  // What Cadence.__init__ asserts.
  predicate Legal(c: Cadence) {
    && c.hours != {}
    && (forall h :: h in c.hours ==> 0 <= h < 24)
    && 0 <= c.minute < 60
    && (c.weekday.Some? ==> 0 <= c.weekday.value < 7)
  }

  // The hours of UTC since 1970, a Thursday, in which the cadence fires.
  predicate FiresInHour(c: Cadence, k: int) {
    && k % 24 in c.hours
    && (c.weekday.None? || (k / 24 + 3) % 7 == c.weekday.value)
  }

  predicate Fires(c: Cadence, m: int) {
    m % HOUR == c.minute * MINUTE && FiresInHour(c, m / HOUR)
  }

  // In the calendar's own terms: 5 January 1970, day 4, was a Monday, and weekdays count from it.
  lemma FiresMeans(c: Cadence, m: int)
    requires Legal(c)
    ensures Fires(c, m) <==>
              && m % 3_600_000_000 == c.minute * 60_000_000
              && m / 3_600_000_000 % 24 in c.hours
              && (c.weekday.Some? ==> (m / 86_400_000_000 - 4 - c.weekday.value) % 7 == 0)
  {
    var k := m / 3_600_000_000;
    assert m / 86_400_000_000 == k / 24;
    if c.weekday.Some? {
      SameWeekday(k / 24, c.weekday.value);
    }
  }

  lemma SameWeekday(day: int, weekday: int)
    requires 0 <= weekday < 7
    ensures (day + 3) % 7 == weekday <==> (day - 4 - weekday) % 7 == 0
  {
  }

  function At(c: Cadence, k: int): int { k * HOUR + c.minute * MINUTE }

  lemma FiresAt(c: Cadence, k: int)
    requires Legal(c)
    ensures At(c, k) / HOUR == k && At(c, k) % HOUR == c.minute * MINUTE
    ensures Fires(c, At(c, k)) <==> FiresInHour(c, k)
  {
  }

  // An hour of the week recurs within any 168 consecutive hours.
  lemma HourOfWeekRecurs(h: int, day: int, hour: int) returns (k: int)
    requires 0 <= day < 7 && 0 <= hour < 24
    ensures h <= k < h + WEEK_HOURS && k % 24 == hour && k / 24 % 7 == day
  {
    var r := 24 * day + hour;
    k := h + (r - h) % WEEK_HOURS;
    var q := (r - h) / WEEK_HOURS;
    assert k == r - WEEK_HOURS * q;
    assert k / 24 == day - 7 * q;
  }

  lemma FiresWithinAWeekOfHours(c: Cadence, h: int) returns (k: int)
    requires Legal(c)
    ensures h <= k < h + WEEK_HOURS && FiresInHour(c, k)
  {
    var hour := Member(c.hours);
    var weekday := if c.weekday.Some? then c.weekday.value else 0;
    k := HourOfWeekRecurs(h, (weekday - 3) % 7, hour);
    var d := k / 24;
    assert (d + 3) % 7 == weekday by { WeekdayShift(d, weekday); }
  }

  lemma WeekdayShift(d: int, weekday: int)
    requires 0 <= weekday < 7 && d % 7 == (weekday - 3) % 7
    ensures (d + 3) % 7 == weekday
  {
  }

  ghost predicate Owed(c: Cadence, mark: int, now: int) {
    exists m :: mark < m <= now && Fires(c, m)
  }

  ghost predicate IsNext(c: Cadence, moment: int, r: int) {
    moment < r && Fires(c, r) && forall m :: moment < m < r ==> !Fires(c, m)
  }

  lemma NextIsUnique(c: Cadence, moment: int, r: int, r': int)
    requires IsNext(c, moment, r) && IsNext(c, moment, r')
    ensures r == r'
  {
  }

  lemma {:induction false} FiresEveryWeek(c: Cadence, moment: int)
    requires Legal(c)
    ensures Owed(c, moment, moment + WEEK)
  {
    var h := moment / HOUR + if At(c, moment / HOUR) > moment then 0 else 1;
    var k := FiresWithinAWeekOfHours(c, h);
    FiresAt(c, k);
    assert moment < At(c, k) <= moment + WEEK;
  }

  // The hours from that of `moment` up to `k` hold no later firing.
  ghost predicate NoneBefore(c: Cadence, moment: int, k: int) {
    forall j :: moment / HOUR <= j < k && moment < At(c, j) ==> !FiresInHour(c, j)
  }

  // Where the search must stop: within its horizon, and within a week of `moment`.
  lemma SearchStops(c: Cadence, moment: int) returns (last: int)
    requires Legal(c)
    ensures moment / HOUR <= last < moment / HOUR + HORIZON_HOURS
    ensures FiresInHour(c, last) && moment < At(c, last) <= moment + WEEK
  {
    var h := moment / HOUR;
    last := FiresWithinAWeekOfHours(c, h + if At(c, h) > moment then 0 else 1);
  }

  // The test of one candidate, as the loop makes it.
  lemma CandidateTested(c: Cadence, moment: int, step: nat)
    requires Legal(c)
    ensures var candidate := moment - moment % HOUR + c.minute * MINUTE + step * HOUR;
            && candidate == At(c, moment / HOUR + step)
            && (FiresInHour(c, moment / HOUR + step) <==>
                  && candidate / HOUR % 24 in c.hours
                  && (c.weekday.None? || (candidate / HOUR / 24 + 3) % 7 == c.weekday.value))
            && (NoneBefore(c, moment, moment / HOUR + step) && (candidate <= moment || !FiresInHour(c, moment / HOUR + step))
                ==> NoneBefore(c, moment, moment / HOUR + step + 1))
  {
    FiresAt(c, moment / HOUR + step);
  }

  // Cadence.next_after: the search stops before its horizon, on the least later firing.
  method NextAfter(c: Cadence, moment: int) returns (r: int)
    requires Legal(c)
    ensures IsNext(c, moment, r)
    ensures r <= moment + WEEK
  {
    var start := moment - moment % HOUR + c.minute * MINUTE;
    ghost var h := moment / HOUR;
    ghost var last := SearchStops(c, moment);
    for step := 0 to HORIZON_HOURS
      invariant h + step <= last && NoneBefore(c, moment, h + step)
    {
      var candidate := start + step * HOUR;
      CandidateTested(c, moment, step);
      if candidate <= moment { continue; }
      if candidate / HOUR % 24 !in c.hours { continue; }
      if c.weekday.Some? && (candidate / HOUR / 24 + 3) % 7 != c.weekday.value { continue; }
      LeastHourIsNext(c, moment, h + step);
      return candidate;
    }
    assert false;
  }

  lemma LeastHourIsNext(c: Cadence, moment: int, k: int)
    requires Legal(c) && FiresInHour(c, k) && moment < At(c, k)
    requires NoneBefore(c, moment, k)
    ensures IsNext(c, moment, At(c, k))
  {
    FiresAt(c, k);
    forall m | moment < m < At(c, k)
      ensures !Fires(c, m)
    {
      var j := m / HOUR;
      assert moment / HOUR <= j <= k;
      if m == At(c, j) {
        assert j < k && !FiresInHour(c, j);
      }
    }
  }

  // --- runs of passes --------------------------------------------------------

  // One run of a job: the firing that made it due, and when the run itself began and ended.
  datatype Served = Served(name: string, firing: int, started: int, finished: int)

  predicate LegalSchedule(jobs: seq<Job>) {
    && (forall i :: 0 <= i < |jobs| ==> Legal(jobs[i].cadence))
    && (forall i, j :: 0 <= i < j < |jobs| ==> jobs[i].name != jobs[j].name)
  }

  // A run uses up every firing from the one that made it due to the moment it ended: the mark
  // is the time of the end.
  predicate Serves(r: Served, job: Job, f: int) {
    r.name == job.name && r.firing <= f <= r.finished
  }

  // It attends to those that had passed when it began,
  predicate Attends(r: Served, job: Job, f: int) {
    r.name == job.name && r.firing <= f <= r.started
  }

  // and swallows those that passed while it ran: no later pass finds them due.
  predicate Swallows(r: Served, job: Job, f: int) {
    r.name == job.name && r.started < f <= r.finished
  }

  // What the marker file and the runs so far have to do with each other. `since` says when a
  // marked job was last seeded.
  datatype History = History(marks: map<string, int>, since: map<string, int>, runs: seq<Served>, clock: int) {

    ghost predicate Ordered() {
      && (forall i :: 0 <= i < |runs| ==> runs[i].firing <= runs[i].started <= runs[i].finished <= clock)
      && (forall i, j :: 0 <= i < j < |runs| && runs[i].name == runs[j].name ==> runs[i].finished < runs[j].firing)
    }

    ghost predicate MarksCover() {
      && marks.Keys == since.Keys
      && (forall n :: n in marks ==> since[n] <= marks[n] <= clock)
      && (forall i :: 0 <= i < |runs| && runs[i].name in marks ==>
            && runs[i].finished <= marks[runs[i].name]
            && (runs[i].finished <= since[runs[i].name] || since[runs[i].name] <= runs[i].started))
    }

    ghost predicate NothingMissed(jobs: seq<Job>) {
      forall j, f :: j in jobs && j.name in marks && j.name in since
                     && since[j.name] < f <= marks[j.name] && Fires(j.cadence, f) ==>
        exists i :: 0 <= i < |runs| && Serves(runs[i], j, f)
    }

    ghost predicate Inv(jobs: seq<Job>) { Ordered() && MarksCover() && NothingMissed(jobs) }

    function Seeded(name: string, now: int): History {
      this.(marks := marks[name := now], since := since[name := now])
    }

    function Ran(name: string, firing: int, started: int, finished: int): History {
      this.(marks := marks[name := finished], runs := runs + [Served(name, firing, started, finished)], clock := finished)
    }

    // The file is a hint: any of it may be gone at the next pass.
    function Lost(names: set<string>): History {
      this.(marks := marks - names, since := since - names)
    }
  }

  lemma SeedKeepsInv(jobs: seq<Job>, h: History, name: string)
    requires h.Inv(jobs) && name !in h.marks
    ensures h.Seeded(name, h.clock).Inv(jobs)
  {
  }

  lemma LossKeepsInv(jobs: seq<Job>, h: History, names: set<string>)
    requires h.Inv(jobs)
    ensures h.Lost(names).Inv(jobs)
  {
  }

  lemma RunKeepsInv(jobs: seq<Job>, h: History, job: Job, firing: int, started: int, finished: int)
    requires LegalSchedule(jobs) && h.Inv(jobs) && job in jobs && job.name in h.marks
    requires IsNext(job.cadence, h.marks[job.name], firing) && firing <= started == h.clock <= finished
    ensures h.Ran(job.name, firing, started, finished).Inv(jobs)
  {
    var after := h.Ran(job.name, firing, started, finished);
    assert forall i :: 0 <= i < |h.runs| ==> after.runs[i] == h.runs[i];
    var n := |h.runs|;
    forall j, f | j in jobs && j.name in after.marks && after.since[j.name] < f <= after.marks[j.name] && Fires(j.cadence, f)
      ensures exists i :: 0 <= i < |after.runs| && Serves(after.runs[i], j, f)
    {
      if j.name == job.name && h.marks[j.name] < f {
        assert j == job;
        assert Serves(after.runs[n], j, f);
      } else {
        var i :| 0 <= i < n && Serves(h.runs[i], j, f);
        assert Serves(after.runs[i], j, f);
      }
    }
  }

  // No firing is served twice, whatever became of the marks in between; and after an outage of any
  // length the firings it covers have one run between them.
  lemma ServedAtMostOnce(jobs: seq<Job>, h: History, job: Job, f: int, i: nat, j: nat)
    requires h.Inv(jobs) && i < |h.runs| && j < |h.runs|
    requires Serves(h.runs[i], job, f) && Serves(h.runs[j], job, f)
    ensures i == j
  {
  }

  // While the marks survive, every firing since the seeding is served by exactly one run.
  lemma ServedExactlyOnce(jobs: seq<Job>, h: History, job: Job, f: int, now: int)
    requires h.Inv(jobs) && job in jobs && job.name in h.marks
    requires !Owed(job.cadence, h.marks[job.name], now)
    requires h.since[job.name] < f <= now && Fires(job.cadence, f)
    ensures exists i :: 0 <= i < |h.runs| && Serves(h.runs[i], job, f)
              && forall j :: 0 <= j < |h.runs| && Serves(h.runs[j], job, f) ==> j == i
  {
    var i :| 0 <= i < |h.runs| && Serves(h.runs[i], job, f);
    forall j | 0 <= j < |h.runs| && Serves(h.runs[j], job, f)
      ensures j == i
    {
      ServedAtMostOnce(jobs, h, job, f, i, j);
    }
  }

  // The schedule's promise for one firing: with nothing owed, a run that began at or after it was
  // due to it, if and only if no run of the job was under way when it passed.
  lemma AttendedIffNotSwallowed(jobs: seq<Job>, h: History, job: Job, f: int, now: int)
    requires h.Inv(jobs) && job in jobs && job.name in h.marks
    requires !Owed(job.cadence, h.marks[job.name], now)
    requires h.since[job.name] < f <= now && Fires(job.cadence, f)
    ensures (exists i :: 0 <= i < |h.runs| && Attends(h.runs[i], job, f))
            <==> (forall i :: 0 <= i < |h.runs| ==> !Swallows(h.runs[i], job, f))
  {
    ServedExactlyOnce(jobs, h, job, f, now);
    var k :| 0 <= k < |h.runs| && Serves(h.runs[k], job, f)
             && forall j :: 0 <= j < |h.runs| && Serves(h.runs[j], job, f) ==> j == k;
    assert forall i :: 0 <= i < |h.runs| && Attends(h.runs[i], job, f) ==> Serves(h.runs[i], job, f);
    assert forall i :: 0 <= i < |h.runs| && Swallows(h.runs[i], job, f) ==> Serves(h.runs[i], job, f);
    assert Attends(h.runs[k], job, f) || Swallows(h.runs[k], job, f);
  }

  // The promise for a job: every firing its marks have passed was attended to.
  ghost predicate Punctual(h: History, job: Job)
    requires job.name in h.marks && job.name in h.since
  {
    forall f :: h.since[job.name] < f <= h.marks[job.name] && Fires(job.cadence, f) ==>
      exists i :: 0 <= i < |h.runs| && Attends(h.runs[i], job, f)
  }

  // The run ended before the first firing after it began.
  ghost predicate EndsInTime(r: Served, c: Cadence) {
    forall next :: IsNext(c, r.started, next) ==> r.finished < next
  }

  // No firing since the seeding is swallowed if and only if every run since then ends in time.
  lemma PunctualIffRunsEndInTime(jobs: seq<Job>, h: History, job: Job)
    requires LegalSchedule(jobs) && h.Inv(jobs) && job in jobs && job.name in h.marks
    ensures Punctual(h, job) <==>
              forall i :: 0 <= i < |h.runs| && h.runs[i].name == job.name && h.since[job.name] <= h.runs[i].started ==>
                EndsInTime(h.runs[i], job.cadence)
  {
    if Punctual(h, job) {
      forall i | 0 <= i < |h.runs| && h.runs[i].name == job.name && h.since[job.name] <= h.runs[i].started
        ensures EndsInTime(h.runs[i], job.cadence)
      {
        PunctualRunEnds(jobs, h, job, i);
      }
    }
    if forall i :: 0 <= i < |h.runs| && h.runs[i].name == job.name && h.since[job.name] <= h.runs[i].started ==>
         EndsInTime(h.runs[i], job.cadence)
    {
      forall f | h.since[job.name] < f <= h.marks[job.name] && Fires(job.cadence, f)
        ensures exists i :: 0 <= i < |h.runs| && Attends(h.runs[i], job, f)
      {
        InTimeIsAttended(jobs, h, job, f);
      }
    }
  }

  lemma PunctualRunEnds(jobs: seq<Job>, h: History, job: Job, i: nat)
    requires h.Inv(jobs) && job in jobs && job.name in h.marks && Punctual(h, job)
    requires i < |h.runs| && h.runs[i].name == job.name && h.since[job.name] <= h.runs[i].started
    ensures EndsInTime(h.runs[i], job.cadence)
  {
    forall next | IsNext(job.cadence, h.runs[i].started, next)
      ensures h.runs[i].finished < next
    {
      if next <= h.runs[i].finished {
        assert Swallows(h.runs[i], job, next);
        AttendedIffNotSwallowed(jobs, h, job, next, h.marks[job.name]);
        assert false;
      }
    }
  }

  lemma InTimeIsAttended(jobs: seq<Job>, h: History, job: Job, f: int)
    requires LegalSchedule(jobs) && h.Inv(jobs) && job in jobs && job.name in h.marks
    requires forall i :: 0 <= i < |h.runs| && h.runs[i].name == job.name && h.since[job.name] <= h.runs[i].started ==>
               EndsInTime(h.runs[i], job.cadence)
    requires h.since[job.name] < f <= h.marks[job.name] && Fires(job.cadence, f)
    ensures exists i :: 0 <= i < |h.runs| && Attends(h.runs[i], job, f)
  {
    forall i | 0 <= i < |h.runs|
      ensures !Swallows(h.runs[i], job, f)
    {
      if Swallows(h.runs[i], job, f) {
        var next := FirstFiring(job.cadence, h.runs[i].started, f);
        assert false;
      }
    }
    AttendedIffNotSwallowed(jobs, h, job, f, h.marks[job.name]);
  }

  lemma {:induction false} FirstFiring(c: Cadence, moment: int, f: int) returns (next: int)
    requires moment < f && Fires(c, f)
    ensures IsNext(c, moment, next) && next <= f
    decreases f - moment
  {
    if m :| moment < m < f && Fires(c, m) {
      next := FirstFiring(c, moment, m);
    } else {
      next := f;
    }
  }

  // due(): the jobs owed a run, in the schedule's order; one with no mark is not owed any.
  ghost function DueOf(jobs: seq<Job>, marks: map<string, int>, now: int): seq<Job> {
    if jobs == [] then []
    else
      var last := jobs[|jobs| - 1];
      DueOf(jobs[..|jobs| - 1], marks, now)
      + if last.name in marks && Owed(last.cadence, marks[last.name], now) then [last] else []
  }

  lemma {:induction false} DueOfIsExact(jobs: seq<Job>, marks: map<string, int>, now: int)
    ensures forall j :: j in DueOf(jobs, marks, now) <==>
                        j in jobs && j.name in marks && Owed(j.cadence, marks[j.name], now)
    ensures LegalSchedule(jobs) ==>
              forall a, b :: 0 <= a < b < |DueOf(jobs, marks, now)| ==>
                DueOf(jobs, marks, now)[a].name != DueOf(jobs, marks, now)[b].name
  {
    if jobs != [] {
      DueOfIsExact(jobs[..|jobs| - 1], marks, now);
    }
  }

  predicate Distinct(ran: seq<Job>) {
    forall a, b :: 0 <= a < b < |ran| ==> ran[a].name != ran[b].name
  }

  function Names(jobs: seq<Job>): set<string> { set j | j in jobs :: j.name }

  // Every job given a mark it did not have, and nothing else.
  ghost predicate SeedsNew(jobs: seq<Job>, before: History, after: History, now: int) {
    && after.runs == before.runs
    && after.marks.Keys == after.since.Keys == before.marks.Keys + Names(jobs)
    && (forall n :: n in after.marks ==>
          if n in before.marks && n in before.since
          then after.marks[n] == before.marks[n] && after.since[n] == before.since[n]
          else after.marks[n] == after.since[n] == now)
  }

  lemma SeedOneMore(jobs: seq<Job>, i: nat, before: History, h: History, now: int)
    requires i < |jobs| && SeedsNew(jobs[..i], before, h, now)
    ensures SeedsNew(jobs[..i + 1], before, if jobs[i].name in h.marks then h else h.Seeded(jobs[i].name, now), now)
  {
    NamesGrow(jobs, i);
  }

  // A run of the job for the firing it was owed, begun no earlier than the pass that found it due.
  ghost predicate RanFor(before: History, job: Job, r: Served, now: int) {
    && job.name in before.marks && r.name == job.name && r.firing <= now <= r.started
    && IsNext(job.cadence, before.marks[job.name], r.firing)
  }

  // One run each for the jobs of `ran`.
  ghost predicate RanEach(before: History, after: History, ran: seq<Job>, now: int) {
    var n := |before.runs|;
    && |after.runs| == n + |ran|
    && after.runs[..n] == before.runs
    && (forall k :: 0 <= k < |ran| ==> RanFor(before, ran[k], after.runs[n + k], now))
  }

  // Their marks moved past `now`, the others' untouched.
  ghost predicate Moved(before: History, after: History, ran: seq<Job>, now: int) {
    && after.since == before.since
    && after.marks.Keys == before.marks.Keys
    && (forall k :: 0 <= k < |ran| ==> ran[k].name in after.marks && now <= after.marks[ran[k].name])
    && (forall m :: m in after.marks && m !in Names(ran) ==> after.marks[m] == before.marks[m])
  }

  ghost predicate Swept(before: History, after: History, ran: seq<Job>, now: int) {
    RanEach(before, after, ran, now) && Moved(before, after, ran, now)
  }

  lemma NotYetSwept(before: History, h: History, ran: seq<Job>, i: nat, now: int)
    requires i < |ran| && Distinct(ran) && Swept(before, h, ran[..i], now) && ran[i].name in before.marks
    ensures ran[i].name in h.marks && h.marks[ran[i].name] == before.marks[ran[i].name]
  {
    assert ran[i].name !in Names(ran[..i]);
  }

  lemma SweepOneMore(before: History, h: History, ran: seq<Job>, i: nat, firing: int, now: int, finished: int)
    requires i < |ran| && Swept(before, h, ran[..i], now) && ran[i].name in before.marks
    requires IsNext(ran[i].cadence, before.marks[ran[i].name], firing) && firing <= now <= h.clock <= finished
    ensures Swept(before, h.Ran(ran[i].name, firing, h.clock, finished), ran[..i + 1], now)
  {
    RanOneMore(before, h, ran, i, firing, now, finished);
    MovedOneMore(before, h, ran, i, firing, now, finished);
  }

  lemma RanOneMore(before: History, h: History, ran: seq<Job>, i: nat, firing: int, now: int, finished: int)
    requires i < |ran| && RanEach(before, h, ran[..i], now) && ran[i].name in before.marks
    requires IsNext(ran[i].cadence, before.marks[ran[i].name], firing) && firing <= now <= h.clock
    ensures RanEach(before, h.Ran(ran[i].name, firing, h.clock, finished), ran[..i + 1], now)
  {
    var after := h.Ran(ran[i].name, firing, h.clock, finished);
    var n := |before.runs|;
    assert after.runs[..n] == h.runs[..n];
    forall k | 0 <= k <= i
      ensures RanFor(before, ran[k], after.runs[n + k], now)
    {
      if k < i {
        assert ran[..i][k] == ran[k] && after.runs[n + k] == h.runs[n + k];
      }
    }
  }

  lemma MovedOneMore(before: History, h: History, ran: seq<Job>, i: nat, firing: int, now: int, finished: int)
    requires i < |ran| && Moved(before, h, ran[..i], now) && ran[i].name in before.marks && now <= finished
    ensures Moved(before, h.Ran(ran[i].name, firing, h.clock, finished), ran[..i + 1], now)
  {
    NamesGrow(ran, i);
    assert forall k :: 0 <= k < i ==> ran[..i + 1][k] == ran[..i][k];
  }

  lemma NamesGrow(ran: seq<Job>, i: nat)
    requires i < |ran|
    ensures Names(ran[..i + 1]) == Names(ran[..i]) + {ran[i].name}
  {
    assert ran[..i + 1] == ran[..i] + [ran[i]];
  }

  class Runner {
    const jobs: seq<Job>
    var marks: map<string, int>            // schedule.json
    var clock: int
    ghost var since: map<string, int>
    ghost var runs: seq<Served>

    ghost function Hist(): History
      reads this
    {
      History(marks, since, runs, clock)
    }

    ghost predicate Valid()
      reads this
    {
      LegalSchedule(jobs) && Hist().Inv(jobs)
    }

    constructor (jobs: seq<Job>, start: int)
      requires LegalSchedule(jobs)
      ensures Valid() && this.jobs == jobs && marks == map[] && runs == [] && clock == start
    {
      this.jobs := jobs;
      marks, since, runs, clock := map[], map[], [], start;
    }

    // _utcnow: the wall clock does not go back
    method UtcNow() returns (now: int)
      requires Valid()
      modifies `clock
      ensures Valid() && now == clock && old(clock) <= now
    {
      now := *;
      if now < clock { now := clock; }
      clock := now;
    }

    // schedule.json is deleted, or some of it no longer parses.
    method LoseMarks(names: set<string>)
      requires Valid()
      modifies this
      ensures Valid() && Hist() == old(Hist()).Lost(names)
    {
      LossKeepsInv(jobs, Hist(), names);
      marks, since := marks - names, since - names;
    }

    method Due(now: int) returns (ready: seq<Job>)
      requires Valid()
      ensures ready == DueOf(jobs, marks, now)
    {
      ready := [];
      for i := 0 to |jobs|
        invariant ready == DueOf(jobs[..i], marks, now)
      {
        var job := jobs[i];
        assert jobs[..i + 1][..i] == jobs[..i];
        if job.name in marks {
          var next := NextAfter(job.cadence, marks[job.name]);
          if next <= now {
            ready := ready + [job];
          }
        }
      }
      assert jobs[..|jobs|] == jobs;
    }

    // The first half of tick(): a job seen for the first time starts from now.
    method Seed(now: int)
      requires Valid() && now == clock
      modifies `marks, `since
      ensures Valid() && SeedsNew(jobs, old(Hist()), Hist(), now)
    {
      for i := 0 to |jobs|
        invariant Valid() && SeedsNew(jobs[..i], old(Hist()), Hist(), now)
      {
        SeedOneMore(jobs, i, old(Hist()), Hist(), now);
        if jobs[i].name !in marks {
          SeedKeepsInv(jobs, Hist(), jobs[i].name);
          marks := marks[jobs[i].name := now];
          since := since[jobs[i].name := now];
        }
      }
      assert jobs[..|jobs|] == jobs;
    }

    // One job of the second half: it runs, failing or not, and its mark is the time it ended.
    method RunJob(job: Job, now: int) returns (ghost firing: int)
      requires Valid() && job in jobs && job.name in marks && now <= clock
      requires Owed(job.cadence, marks[job.name], now)
      modifies this
      ensures Valid() && old(clock) <= clock
      ensures IsNext(job.cadence, old(marks)[job.name], firing) && firing <= now
      ensures Hist() == old(Hist()).Ran(job.name, firing, old(clock), clock)
    {
      ghost var before := Hist();
      firing := NextAfter(job.cadence, marks[job.name]);
      var end: int := *;
      if end < clock { end := clock; }
      RunKeepsInv(jobs, before, job, firing, clock, end);
      runs := runs + [Served(job.name, firing, clock, end)];
      clock := end;
      marks := marks[job.name := clock];
    }

    // The second half of tick(), over the jobs found due.
    method RunAll(ran: seq<Job>, now: int)
      requires Valid() && now <= clock && Distinct(ran)
      requires forall k :: 0 <= k < |ran| ==> ran[k] in jobs && ran[k].name in marks
      requires forall k :: 0 <= k < |ran| ==> Owed(ran[k].cadence, marks[ran[k].name], now)
      modifies this
      ensures Valid() && now <= clock && Swept(old(Hist()), Hist(), ran, now)
    {
      for i := 0 to |ran|
        invariant Valid() && now <= clock && Swept(old(Hist()), Hist(), ran[..i], now)
      {
        ghost var before := Hist();
        NotYetSwept(old(Hist()), before, ran, i, now);
        ghost var firing := RunJob(ran[i], now);
        SweepOneMore(old(Hist()), before, ran, i, firing, now, clock);
      }
      assert ran[..|ran|] == ran;
    }

    // The first half of tick(), from the clock to the jobs found due.
    method FindDue() returns (now: int, ran: seq<Job>)
      requires Valid()
      modifies `clock, `marks, `since
      ensures Valid() && old(clock) <= now == clock
      ensures SeedsNew(jobs, old(Hist()), Hist(), now)
      ensures ran == DueOf(jobs, old(marks), now) == DueOf(jobs, marks, now)
    {
      now := UtcNow();
      ghost var before := Hist();
      Seed(now);
      ran := Due(now);
      SeedingOwesNothing(jobs, before.marks, marks, now);
    }

    // tick(): afterwards no job is owed a firing up to the pass's own `now`, and each job that was
    // owed any has run exactly once.
    method Tick() returns (now: int, ran: seq<Job>)
      requires Valid()
      modifies this
      ensures Valid() && old(clock) <= now <= clock
      ensures ran == DueOf(jobs, old(marks), now)
      ensures exists seeded :: SeedsNew(jobs, old(Hist()), seeded, now) && Swept(seeded, Hist(), ran, now)
      ensures NoneOwed(jobs, Hist(), now)
    {
      now, ran := FindDue();
      ghost var seeded := Hist();
      DueCanRun(jobs, marks, now);
      RunAll(ran, now);
      SweepLeavesNoneOwed(jobs, seeded, Hist(), ran, now);
    }
  }

  // No job of the schedule is owed a firing up to `now`.
  ghost predicate NoneOwed(jobs: seq<Job>, h: History, now: int) {
    forall j :: j in jobs ==> j.name in h.marks && !Owed(j.cadence, h.marks[j.name], now)
  }

  lemma DueCanRun(jobs: seq<Job>, marks: map<string, int>, now: int)
    requires LegalSchedule(jobs)
    ensures var ran := DueOf(jobs, marks, now);
            && Distinct(ran)
            && forall k :: 0 <= k < |ran| ==>
                 ran[k] in jobs && ran[k].name in marks && Owed(ran[k].cadence, marks[ran[k].name], now)
  {
    DueOfIsExact(jobs, marks, now);
    var ran := DueOf(jobs, marks, now);
    assert forall k :: 0 <= k < |ran| ==> ran[k] in ran;
  }

  lemma SweepLeavesNoneOwed(jobs: seq<Job>, before: History, after: History, ran: seq<Job>, now: int)
    requires forall j :: j in jobs ==> j.name in before.marks
    requires ran == DueOf(jobs, before.marks, now) && Swept(before, after, ran, now)
    ensures NoneOwed(jobs, after, now)
  {
    DueOfIsExact(jobs, before.marks, now);
    forall j | j in jobs
      ensures j.name in after.marks && !Owed(j.cadence, after.marks[j.name], now)
    {
      SweptOwesNothing(before, after, ran, now, j);
    }
  }

  lemma SweptOwesNothing(before: History, after: History, ran: seq<Job>, now: int, j: Job)
    requires Swept(before, after, ran, now) && j.name in before.marks
    requires Owed(j.cadence, before.marks[j.name], now) ==> j in ran
    ensures j.name in after.marks && !Owed(j.cadence, after.marks[j.name], now)
  {
    if j in ran {
      var k :| 0 <= k < |ran| && ran[k] == j;
    }
  }

  // A job just seeded is not owed anything, so seeding changes nothing about who is due.
  lemma {:induction false} SeedingOwesNothing(jobs: seq<Job>, marks: map<string, int>, seeded: map<string, int>, now: int)
    requires forall n :: n in marks ==> n in seeded && seeded[n] == marks[n]
    requires forall n :: n in seeded && n !in marks ==> seeded[n] == now
    ensures DueOf(jobs, seeded, now) == DueOf(jobs, marks, now)
  {
    if jobs != [] {
      SeedingOwesNothing(jobs[..|jobs| - 1], marks, seeded, now);
    }
  }

  // The product's own schedule is one of these.
  const MONDAY: int := 0

  const SCHEDULE: seq<Job> := [
    Job("email-summary", Cadence({5}, 0, None)),
    Job("gmail-watch", Cadence({4}, 0, Some(MONDAY))),
    Job("billing-poller", Cadence({0, 3, 6, 9, 12, 15, 18, 21}, 0, None))
  ]

  lemma ShippedScheduleIsLegal()
    ensures LegalSchedule(SCHEDULE)
  {
  }

  // The billing poller, seeded at midnight, starts at 03:00 and ends at 06:30.
  function LongRun(): History {
    History(map["billing-poller" := 0], map["billing-poller" := 0], [], 3 * HOUR)
      .Ran("billing-poller", 3 * HOUR, 3 * HOUR, 6 * HOUR + 30 * MINUTE)
  }

  // Its 06:00 firing never gets a run that begins at or after 06:00, and at 08:00 nothing is owed:
  // a scheduled time can pass unobserved and not run at the next tick.
  lemma LongRunSwallowsAFiring()
    ensures var h, job, f := LongRun(), SCHEDULE[2], 6 * HOUR;
            && h.Inv(SCHEDULE) && !Owed(job.cadence, h.marks[job.name], 8 * HOUR)
            && h.since[job.name] < f <= 8 * HOUR && Fires(job.cadence, f)
            && (exists i :: 0 <= i < |h.runs| && Swallows(h.runs[i], job, f))
            && (forall i :: 0 <= i < |h.runs| ==> !Attends(h.runs[i], job, f))
  {
    var job := SCHEDULE[2];
    var before := History(map["billing-poller" := 0], map["billing-poller" := 0], [], 3 * HOUR);
    ShippedScheduleIsLegal();
    assert job in SCHEDULE;
    PollerFiresAtThree();
    RunKeepsInv(SCHEDULE, before, job, 3 * HOUR, 3 * HOUR, 6 * HOUR + 30 * MINUTE);
    FiresAt(job.cadence, 6);
    assert Swallows(LongRun().runs[0], job, 6 * HOUR);
    forall m | 6 * HOUR + 30 * MINUTE < m <= 8 * HOUR
      ensures !Fires(job.cadence, m)
    {
      NotAtSevenOrEight(job.cadence, m);
    }
  }

  lemma PollerFiresAtThree()
    ensures IsNext(SCHEDULE[2].cadence, 0, 3 * HOUR)
  {
    var c := SCHEDULE[2].cadence;
    FiresAt(c, 3);
    forall m | 0 < m < 3 * HOUR
      ensures !Fires(c, m)
    {
      assert m % HOUR == 0 ==> m == 1 * HOUR || m == 2 * HOUR;
    }
  }

  lemma NotAtSevenOrEight(c: Cadence, m: int)
    requires c == SCHEDULE[2].cadence && 6 * HOUR < m <= 8 * HOUR
    ensures !Fires(c, m)
  {
    assert m % HOUR == 0 ==> m == 7 * HOUR || m == 8 * HOUR;
  }
}
