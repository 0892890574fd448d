/** backend/billing/billing_queue.py and daemon_loop.process_billing: a retry queue whose events
    carry their own attempt counts. Appends and drains are atomic here, which is what Spool
    proves of them; receivers enqueue at any moment. */
module BillingQueue {
  import opened Common

  const MAX_ATTEMPTS: nat := 5

  // An event with how many passes have already failed on it.
  datatype Item = Item(event: nat, attempts: nat)

  // --- what drain() reads back -----------------------------------------------

  // A spooled entry as parsed: the event if it is an object, the count if it is an integer.
  datatype Raw = Raw(event: Option<nat>, attempts: Option<int>)

  function Spooled(item: Item): Raw { Raw(Some(item.event), Some(item.attempts)) }

  function Parsed(entries: seq<Raw>): seq<Item> {
    if entries == [] then []
    else
      var r := entries[|entries| - 1];
      Parsed(entries[..|entries| - 1])
      + (if r.event.None? then []
         else [Item(r.event.value, if r.attempts.Some? && r.attempts.value >= 0 then r.attempts.value else 0)])
  }

  // Each entry that holds an event gives one item, in order, with its count if it has a usable one.
  lemma ParsedIsExact(entries: seq<Raw>) returns (at: seq<int>)
    ensures ReadsAs(entries, at, Parsed(entries))
    ensures forall i :: 0 <= i < |entries| ==> (i in at <==> entries[i].event.Some?)
  {
    at := ParsedFrom(entries, |entries|);
    assert entries[..|entries|] == entries;
  }

  ghost predicate ReadsAs(entries: seq<Raw>, at: seq<int>, items: seq<Item>) {
    && |at| == |items|
    && (forall k :: 0 <= k < |at| ==> 0 <= at[k] < |entries| && ReadAs(entries[at[k]], items[k]))
    && (forall j, k :: 0 <= j < k < |at| ==> at[j] < at[k])
  }

  // Python's isinstance(attempts, int) and attempts >= 0, or else none counted yet.
  ghost predicate ReadAs(entry: Raw, item: Item) {
    && entry.event == Some(item.event)
    && if entry.attempts.Some? && entry.attempts.value >= 0 then item.attempts == entry.attempts.value else item.attempts == 0
  }

  // The same of the first `n` entries.
  ghost predicate ReadsFirst(entries: seq<Raw>, n: nat, at: seq<int>, items: seq<Item>) {
    && ReadsAs(entries, at, items)
    && (forall i :: i in at ==> i < n)
    && (forall i :: 0 <= i < n && i < |entries| ==> (i in at <==> entries[i].event.Some?))
  }

  lemma {:induction false} ParsedFrom(entries: seq<Raw>, n: nat) returns (at: seq<int>)
    requires n <= |entries|
    ensures ReadsFirst(entries, n, at, Parsed(entries[..n]))
  {
    at := [];
    if n > 0 {
      at := ParsedFrom(entries, n - 1);
      var items := Parsed(entries[..n - 1]);
      assert entries[..n][..n - 1] == entries[..n - 1];
      if entries[n - 1].event.Some? {
        OneMoreRead(entries, n - 1, at, items, Parsed(entries[..n])[|items|]);
        at := at + [n - 1];
      } else {
        NoneMoreRead(entries, n - 1, at, items);
      }
    }
  }

  lemma OneMoreRead(entries: seq<Raw>, n: nat, at: seq<int>, items: seq<Item>, item: Item)
    requires n < |entries| && ReadsFirst(entries, n, at, items) && ReadAs(entries[n], item)
    ensures ReadsFirst(entries, n + 1, at + [n], items + [item])
  {
    var at' := at + [n];
    forall k | 0 <= k < |at|
      ensures at'[k] == at[k] && at[k] < n
    {
      assert at[k] in at;
    }
    assert at'[|at|] == n;
  }

  lemma NoneMoreRead(entries: seq<Raw>, n: nat, at: seq<int>, items: seq<Item>)
    requires n < |entries| && ReadsFirst(entries, n, at, items) && entries[n].event.None?
    ensures ReadsFirst(entries, n + 1, at, items)
  {
  }

  method ParseEntries(entries: seq<Raw>) returns (out: seq<Item>)
    ensures out == Parsed(entries)
  {
    out := [];
    for i := 0 to |entries|
      invariant out == Parsed(entries[..i])
    {
      assert entries[..i + 1][..i] == entries[..i];
      if entries[i].event.Some? {
        var attempts := entries[i].attempts;
        out := out + [Item(entries[i].event.value, if attempts.Some? && attempts.value >= 0 then attempts.value else 0)];
      }
    }
    assert entries[..|entries|] == entries;
  }

  // Whatever enqueue and retry wrote comes back unchanged and in order.
  lemma {:induction false} ParsedInvertsSpooled(items: seq<Item>)
    ensures Parsed(seq(|items|, i requires 0 <= i < |items| => Spooled(items[i]))) == items
  {
    var raw := seq(|items|, i requires 0 <= i < |items| => Spooled(items[i]));
    if items != [] {
      var front := items[..|items| - 1];
      ParsedInvertsSpooled(front);
      assert raw[..|raw| - 1] == seq(|front|, i requires 0 <= i < |front| => Spooled(front[i]));
      assert items == front + [items[|items| - 1]];
    }
  }

  // --- runs ------------------------------------------------------------------

  datatype System = System(
    queue: seq<Item>,              // in the spool
    hand: seq<Item>,               // drained, not yet tried this pass
    ghost applied: set<nat>,
    ghost dropped: set<nat>,
    ghost arrived: set<nat>,       // every event ever enqueued
    ghost tries: map<nat, nat>)    // how often apply_event was called for it

  datatype Step =
    | Enqueue(event: nat)          // a receiver; each event is a distinct delivery
    | Drain
    | Apply
    | Fail

  predicate Enabled(s: System, e: Step) {
    match e
    case Enqueue(event) => true
    case Drain => s.hand == []
    case Apply => s.hand != []
    case Fail => s.hand != []
  }

  ghost function Tried(s: System, event: nat): System {
    s.(tries := s.tries[event := (if event in s.tries then s.tries[event] else 0) + 1])
  }

  // retry(): back to the tail with one more failure, or out of attempts.
  function Retried(item: Item): Option<Item> {
    if item.attempts + 1 >= MAX_ATTEMPTS then None else Some(Item(item.event, item.attempts + 1))
  }

  ghost function Next(s: System, e: Step): System {
    if !Enabled(s, e) then s
    else match e
      case Enqueue(event) =>
        if event in s.arrived then s
        else s.(queue := s.queue + [Item(event, 0)], arrived := s.arrived + {event})
      case Drain => s.(queue := [], hand := s.queue)
      case Apply =>
        Tried(s, s.hand[0].event).(hand := s.hand[1..], applied := s.applied + {s.hand[0].event})
      case Fail =>
        var t := Tried(s, s.hand[0].event).(hand := s.hand[1..]);
        match Retried(s.hand[0])
        case Some(item) => t.(queue := s.queue + [item])
        case None => t.(dropped := s.dropped + {s.hand[0].event})
  }

  ghost function Run(s: System, es: seq<Step>): System
    decreases |es|
  {
    if es == [] then s else Run(Next(s, es[0]), es[1..])
  }

  lemma {:induction false} RunConcat(s: System, a: seq<Step>, b: seq<Step>)
    ensures Run(s, a + b) == Run(Run(s, a), b)
    decreases |a|
  {
    if a == [] {
      assert a + b == b;
    } else {
      assert (a + b)[1..] == a[1..] + b;
      RunConcat(Next(s, a[0]), a[1..], b);
    }
  }

  function Empty(): System { System([], [], {}, {}, {}, map[]) }

  function Occurs(items: seq<Item>, x: nat): nat {
    if items == [] then 0 else (if items[0].event == x then 1 else 0) + Occurs(items[1..], x)
  }

  lemma {:induction false} OccursAppend(items: seq<Item>, item: Item, x: nat)
    ensures Occurs(items + [item], x) == Occurs(items, x) + if item.event == x then 1 else 0
  {
    if items == [] {
      assert [] + [item] == [item];
    } else {
      assert (items + [item])[1..] == items[1..] + [item];
      OccursAppend(items[1..], item, x);
    }
  }

  lemma {:induction false} OccursAt(items: seq<Item>, i: nat)
    requires i < |items|
    ensures Occurs(items, items[i].event) >= 1
  {
    if i > 0 {
      OccursAt(items[1..], i - 1);
    }
  }

  // In how many of the four places an event is: waiting, in hand, applied or dropped.
  ghost function Places(s: System, x: nat): nat {
    Occurs(s.queue, x) + Occurs(s.hand, x) + (if x in s.applied then 1 else 0) + (if x in s.dropped then 1 else 0)
  }

  ghost function TriesOf(s: System, x: nat): nat {
    if x in s.tries then s.tries[x] else 0
  }

  ghost predicate Counted(s: System, items: seq<Item>) {
    forall i :: 0 <= i < |items| ==>
      items[i].attempts < MAX_ATTEMPTS && items[i].attempts == TriesOf(s, items[i].event)
  }

  ghost predicate Inv(s: System) {
    && (forall x :: Places(s, x) == if x in s.arrived then 1 else 0)
    && Counted(s, s.queue) && Counted(s, s.hand)
    && (forall x :: TriesOf(s, x) <= MAX_ATTEMPTS)
    && (forall x :: x in s.dropped ==> TriesOf(s, x) == MAX_ATTEMPTS)
    && (forall x :: x in s.applied ==> TriesOf(s, x) >= 1)
    && (forall x :: x !in s.arrived ==> TriesOf(s, x) == 0)
  }

  lemma EnqueueKeepsInv(s: System, event: nat)
    requires Inv(s) && event !in s.arrived
    ensures Inv(Next(s, Enqueue(event)))
  {
    var s' := Next(s, Enqueue(event));
    forall x
      ensures Places(s', x) == if x in s'.arrived then 1 else 0
    {
      OccursAppend(s.queue, Item(event, 0), x);
      assert Places(s, x) == if x in s.arrived then 1 else 0;
    }
    assert forall x :: TriesOf(s', x) == TriesOf(s, x);
    assert Counted(s', s'.queue) by {
      forall i | 0 <= i < |s.queue|
        ensures s.queue[i].event != event
      {
        OccursAt(s.queue, i);
        assert Places(s, event) == 0;
      }
    }
  }

  // The event being tried is nowhere else, so counting the try disturbs no other item.
  lemma TriedIsAlone(s: System)
    requires Inv(s) && s.hand != []
    ensures var x := s.hand[0].event;
            && x in s.arrived && x !in s.applied && x !in s.dropped
            && (forall i :: 0 <= i < |s.queue| ==> s.queue[i].event != x)
            && (forall i :: 1 <= i < |s.hand| ==> s.hand[i].event != x)
  {
    var x := s.hand[0].event;
    assert Places(s, x) <= 1 && Occurs(s.hand, x) == 1 + Occurs(s.hand[1..], x);
    forall i | 0 <= i < |s.queue|
      ensures s.queue[i].event != x
    {
      OccursAt(s.queue, i);
    }
    forall i | 1 <= i < |s.hand|
      ensures s.hand[i].event != x
    {
      OccursAt(s.hand[1..], i - 1);
    }
  }

  lemma TriedKeepsPlaces(s: System, e: Step, x: nat)
    requires Inv(s) && s.hand != [] && (e.Apply? || e.Fail?)
    ensures Places(Next(s, e), x) == if x in Next(s, e).arrived then 1 else 0
  {
    TriedIsAlone(s);
    assert Places(s, x) == if x in s.arrived then 1 else 0;
    assert Occurs(s.hand, x) == (if s.hand[0].event == x then 1 else 0) + Occurs(s.hand[1..], x);
    if e.Fail? && Retried(s.hand[0]).Some? {
      OccursAppend(s.queue, Retried(s.hand[0]).value, x);
    }
  }

  lemma TriedKeepsInv(s: System, e: Step)
    requires Inv(s) && s.hand != [] && (e.Apply? || e.Fail?)
    ensures Inv(Next(s, e))
  {
    var s' := Next(s, e);
    TriedIsAlone(s);
    forall x
      ensures Places(s', x) == if x in s'.arrived then 1 else 0
    {
      TriedKeepsPlaces(s, e, x);
    }
    assert forall x :: x != s.hand[0].event ==> TriesOf(s', x) == TriesOf(s, x);
    assert TriesOf(s', s.hand[0].event) == s.hand[0].attempts + 1;
  }

  lemma NextKeepsInv(s: System, e: Step)
    requires Inv(s)
    ensures Inv(Next(s, e))
  {
    if Enabled(s, e) {
      match e
      case Enqueue(event) => if event !in s.arrived { EnqueueKeepsInv(s, event); }
      case Drain =>
        assert forall x :: Places(Next(s, e), x) == Places(s, x);
        assert forall x :: TriesOf(Next(s, e), x) == TriesOf(s, x);
      case Apply => TriedKeepsInv(s, e);
      case Fail => TriedKeepsInv(s, e);
    }
  }

  lemma {:induction false} RunKeepsInv(s: System, es: seq<Step>)
    requires Inv(s)
    ensures Inv(Run(s, es))
    decreases |es|
  {
    if es != [] {
      NextKeepsInv(s, es[0]);
      RunKeepsInv(Next(s, es[0]), es[1..]);
    }
  }

  // Conservation: an event that arrived is in exactly one place, is tried at most MAX_ATTEMPTS
  // times, and is dropped only after all of them.
  lemma EachEventInOnePlace(es: seq<Step>, event: nat)
    ensures var s := Run(Empty(), es);
            && Occurs(s.queue, event) + Occurs(s.hand, event)
                 + (if event in s.applied then 1 else 0) + (if event in s.dropped then 1 else 0)
               == (if event in s.arrived then 1 else 0)
            && TriesOf(s, event) <= 5
            && (event in s.dropped ==> TriesOf(s, event) == 5)
  {
    RunKeepsInv(Empty(), es);
    assert Places(Run(Empty(), es), event) <= 1;
  }

  // --- the budget ------------------------------------------------------------

  // The attempts an item still has.
  function Left(items: seq<Item>): nat {
    if items == [] then 0
    else (if items[0].attempts < MAX_ATTEMPTS then MAX_ATTEMPTS - items[0].attempts else 0) + Left(items[1..])
  }

  lemma {:induction false} LeftAppend(a: seq<Item>, b: seq<Item>)
    ensures Left(a + b) == Left(a) + Left(b)
  {
    if a == [] {
      assert a + b == b;
    } else {
      assert (a + b)[1..] == a[1..] + b;
      LeftAppend(a[1..], b);
    }
  }

  ghost function Remaining(s: System): nat { Left(s.queue) + Left(s.hand) }

  // Every failure spends exactly one attempt, a success spends the rest, and draining spends none.
  lemma FailureSpendsOne(s: System, e: Step)
    requires Inv(s) && Enabled(s, e)
    ensures e.Fail? ==> Remaining(Next(s, e)) == Remaining(s) - 1
    ensures e.Apply? ==> Remaining(Next(s, e)) < Remaining(s)
    ensures e.Drain? ==> Remaining(Next(s, e)) == Remaining(s)
    ensures e.Enqueue? ==> Remaining(Next(s, e)) <= Remaining(s) + MAX_ATTEMPTS
  {
    if e.Enqueue? {
      LeftAppend(s.queue, [Item(e.event, 0)]);
      assert Left([Item(e.event, 0)]) == MAX_ATTEMPTS + Left([]);
    } else if e.Fail? && Retried(s.hand[0]).Some? {
      LeftAppend(s.queue, [Retried(s.hand[0]).value]);
      assert Left([Retried(s.hand[0]).value]) == MAX_ATTEMPTS - (s.hand[0].attempts + 1) + Left([]);
    }
  }

  function Failures(es: seq<Step>): nat {
    if es == [] then 0 else (if es[0].Fail? then 1 else 0) + Failures(es[1..])
  }

  function Arrivals(es: seq<Step>): nat {
    if es == [] then 0 else (if es[0].Enqueue? then 1 else 0) + Arrivals(es[1..])
  }

  // Every event in hand is one the daemon really tries.
  ghost predicate Possible(s: System, es: seq<Step>)
    decreases |es|
  {
    es == [] || (Enabled(s, es[0]) && Possible(Next(s, es[0]), es[1..]))
  }

  // So failures are bounded by arrivals, and a queue that only ever fails empties.
  lemma {:induction false} FailuresAreBounded(s: System, es: seq<Step>)
    requires Inv(s) && Possible(s, es)
    ensures Remaining(Run(s, es)) + Failures(es) <= Remaining(s) + 5 * Arrivals(es)
    decreases |es|
  {
    if es != [] {
      FailureSpendsOne(s, es[0]);
      NextKeepsInv(s, es[0]);
      FailuresAreBounded(Next(s, es[0]), es[1..]);
    }
  }

  // What one pass of nothing but failures puts back.
  function FailedPass(items: seq<Item>): seq<Item> {
    if items == [] then []
    else (match Retried(items[0]) case Some(i) => [i] case None => []) + FailedPass(items[1..])
  }

  function Fails(n: nat): seq<Step> {
    if n == 0 then [] else [Fail] + Fails(n - 1)
  }

  lemma {:induction false} FailsRun(s: System)
    ensures Run(s, Fails(|s.hand|)).queue == s.queue + FailedPass(s.hand)
    ensures Run(s, Fails(|s.hand|)).hand == []
    decreases |s.hand|
  {
    if s.hand == [] {
      assert s.queue + [] == s.queue;
    } else {
      assert Fails(|s.hand|)[1..] == Fails(|s.hand| - 1);
      FailsRun(Next(s, Fail));
    }
  }

  // `n` passes in which everything fails and nothing arrives.
  ghost function FailedPasses(s: System, n: nat): System
    decreases n
  {
    if n == 0 then s else FailedPasses(Run(s, [Drain] + Fails(|s.queue|)), n - 1)
  }

  ghost predicate AtLeast(items: seq<Item>, n: nat) {
    forall i :: 0 <= i < |items| ==> n <= items[i].attempts < MAX_ATTEMPTS
  }

  lemma {:induction false} FailedPassRaises(items: seq<Item>, n: nat)
    requires AtLeast(items, n)
    ensures AtLeast(FailedPass(items), n + 1)
  {
    if items != [] {
      FailedPassRaises(items[1..], n);
    }
  }

  lemma {:induction false} FailedPassesRaise(s: System, n: nat)
    requires n <= MAX_ATTEMPTS && s.hand == [] && AtLeast(s.queue, n)
    ensures FailedPasses(s, MAX_ATTEMPTS - n).queue == [] && FailedPasses(s, MAX_ATTEMPTS - n).hand == []
    decreases MAX_ATTEMPTS - n
  {
    if s.queue != [] {
      assert n <= s.queue[0].attempts < MAX_ATTEMPTS;
    }
    if n < MAX_ATTEMPTS {
      RunConcat(s, [Drain], Fails(|s.queue|));
      assert Run(s, [Drain]) == Next(s, Drain);
      FailsRun(Next(s, Drain));
      FailedPassRaises(s.queue, n);
      FailedPassesRaise(Run(s, [Drain] + Fails(|s.queue|)), n + 1);
    }
  }

  // A queue in which nothing ever succeeds is empty after MAX_ATTEMPTS passes.
  lemma PermanentFailureEmpties(es: seq<Step>)
    requires Run(Empty(), es).hand == []
    ensures FailedPasses(Run(Empty(), es), 5).queue == []
  {
    RunKeepsInv(Empty(), es);
    FailedPassesRaise(Run(Empty(), es), 0);
  }

  // --- the daemon's pass -----------------------------------------------------

  class Daemon {
    var queue: seq<Item>
    var deliveries: nat          // numbers the receivers' events apart
    ghost var hand: seq<Item>
    ghost var applied: set<nat>
    ghost var dropped: set<nat>
    ghost var arrived: set<nat>
    ghost var tries: map<nat, nat>
    ghost var path: seq<Step>    // every step since the queue was empty

    ghost function Abs(): System
      reads this
    {
      System(queue, hand, applied, dropped, arrived, tries)
    }

    ghost predicate OnPath()
      reads this
    {
      && Abs() == Run(Empty(), path)
      && forall x :: x in arrived ==> x < deliveries
    }

    constructor ()
      ensures OnPath() && hand == []
    {
      queue, deliveries, hand, path := [], 0, [], [];
      applied, dropped, arrived, tries := {}, {}, {}, map[];
    }

    // The step that took `before` to the present state joins the run.
    ghost method Note(before: System, e: Step)
      requires before == Run(Empty(), path) && Abs() == Next(before, e)
      requires forall x :: x in arrived ==> x < deliveries
      modifies `path
      ensures OnPath() && path == old(path) + [e]
    {
      RunConcat(Empty(), path, [e]);
      path := path + [e];
    }

    // A receiver spools an event, or none does, at any point of the pass.
    method Receive()
      requires OnPath()
      modifies `queue, `arrived, `deliveries, `path
      ensures OnPath() && old(path) <= path && old(queue) <= queue
    {
      var some: bool := *;
      if some {
        ghost var before := Abs();
        queue := queue + [Item(deliveries, 0)];
        arrived := arrived + {deliveries};
        deliveries := deliveries + 1;
        Note(before, Enqueue(deliveries - 1));
      }
    }

    // billing_queue.retry: False means dropped, which is when the caller alerts.
    method Retry(item: Item) returns (kept: bool)
      requires OnPath() && hand != [] && hand[0] == item
      modifies `queue, `hand, `dropped, `tries, `path
      ensures OnPath() && old(path) <= path && hand == old(hand)[1..] && old(queue) <= queue
      ensures kept ==> queue == old(queue) + [Item(item.event, item.attempts + 1)] && dropped == old(dropped)
      ensures !kept ==> queue == old(queue) && dropped == old(dropped) + {item.event}
      ensures kept <==> item.attempts + 1 < MAX_ATTEMPTS
    {
      ghost var before := Abs();
      tries := Tried(before, item.event).tries;
      hand := hand[1..];
      kept := item.attempts + 1 < MAX_ATTEMPTS;
      if kept {
        queue := queue + [Item(item.event, item.attempts + 1)];
      } else {
        dropped := dropped + {item.event};
      }
      Note(before, Fail);
    }

    // One turn of the loop in process_billing: the handler runs and returns, or raises.
    method Attempt(item: Item, ok: bool) returns (alert: bool)
      requires OnPath() && hand != [] && hand[0] == item
      modifies `queue, `hand, `applied, `dropped, `tries, `path
      ensures OnPath() && old(path) <= path && hand == old(hand)[1..] && old(queue) <= queue
      ensures Settled(item, ok, queue, applied, dropped) && (alert <==> !ok && item.attempts + 1 >= 5)
      ensures applied == old(applied) + if ok then {item.event} else {}
      ensures dropped == old(dropped) + if alert then {item.event} else {}
      ensures queue == old(queue) + if ok || alert then [] else [Item(item.event, item.attempts + 1)]
    {
      alert := false;
      if ok {
        ghost var before := Abs();
        tries := Tried(before, item.event).tries;
        applied := applied + {item.event};
        hand := hand[1..];
        Note(before, Apply);
      } else {
        var kept := Retry(item);
        alert := !kept;
      }
    }

    // process_billing(): nothing is drained before there is a client to apply it with. Each event that
    // was waiting is then tried once, `outcomes` saying how: applied, waiting once more with one more
    // failure, or dropped; and there is one alert for each dropped.
    method ProcessBilling(configured: bool, outcomes: seq<bool>) returns (alerts: nat)
      requires OnPath() && hand == [] && |outcomes| >= |queue|
      modifies this
      ensures OnPath() && old(path) <= path && hand == []
      ensures !configured ==> queue == old(queue) && path == old(path) && alerts == 0
      ensures configured ==>
                && (forall i :: 0 <= i < |old(queue)| ==> Settled(old(queue)[i], outcomes[i], queue, applied, dropped))
                && applied == old(applied) + EventsAt(old(queue), Succeeded(outcomes, |old(queue)|))
                && dropped == old(dropped) + EventsAt(old(queue), Spent(old(queue), outcomes, |old(queue)|))
                && alerts == |Spent(old(queue), outcomes, |old(queue)|)|
    {
      alerts := 0;
      if queue == [] || !configured {
        return;
      }
      var items := queue;
      ghost var before := Abs();
      queue, hand := [], items;
      Note(before, Drain);
      for i := 0 to |items|
        invariant OnPath() && old(path) <= path && hand == items[i..]
        invariant TriedSoFar(items, outcomes, i, queue, applied, dropped, old(applied), old(dropped))
        invariant alerts == |Spent(items, outcomes, i)|
      {
        var alert := Turn(items, outcomes, i, old(applied), old(dropped));
        OneMoreSpent(items, outcomes, i);
        if alert {
          alerts := alerts + 1;
        }
      }
    }

    // One turn of the loop, a receiver spooling in between or not.
    method Turn(items: seq<Item>, outcomes: seq<bool>, i: nat, ghost applied0: set<nat>, ghost dropped0: set<nat>)
      returns (alert: bool)
      requires OnPath() && i < |items| && i < |outcomes| && hand == items[i..]
      requires TriedSoFar(items, outcomes, i, queue, applied, dropped, applied0, dropped0)
      modifies this
      ensures OnPath() && old(path) <= path && hand == items[i + 1..]
      ensures TriedSoFar(items, outcomes, i + 1, queue, applied, dropped, applied0, dropped0)
      ensures alert <==> !outcomes[i] && items[i].attempts + 1 >= 5
    {
      ghost var waiting, done, gone := queue, applied, dropped;
      Receive();
      alert := Attempt(items[i], outcomes[i]);
      TriedOneMore(items, outcomes, i, waiting, done, gone, queue, applied, dropped, applied0, dropped0);
    }
  }

  // How a try of `it` left things.
  ghost predicate Settled(it: Item, ok: bool, queue: seq<Item>, applied: set<nat>, dropped: set<nat>) {
    if ok then it.event in applied
    else if it.attempts + 1 >= 5 then it.event in dropped
    else Item(it.event, it.attempts + 1) in queue
  }

  ghost predicate TriedSoFar(items: seq<Item>, outcomes: seq<bool>, n: nat, queue: seq<Item>, applied: set<nat>,
                             dropped: set<nat>, applied0: set<nat>, dropped0: set<nat>)
    requires n <= |items| && n <= |outcomes|
  {
    && (forall k :: 0 <= k < n ==> Settled(items[k], outcomes[k], queue, applied, dropped))
    && applied == applied0 + EventsAt(items, Succeeded(outcomes, n))
    && dropped == dropped0 + EventsAt(items, Spent(items, outcomes, n))
  }

  lemma TriedOneMore(items: seq<Item>, outcomes: seq<bool>, i: nat, q: seq<Item>, a: set<nat>, d: set<nat>,
                     q': seq<Item>, a': set<nat>, d': set<nat>, applied0: set<nat>, dropped0: set<nat>)
    requires i < |items| && i < |outcomes| && TriedSoFar(items, outcomes, i, q, a, d, applied0, dropped0)
    requires q <= q' && Settled(items[i], outcomes[i], q', a', d')
    requires a' == a + if outcomes[i] then {items[i].event} else {}
    requires d' == d + if !outcomes[i] && items[i].attempts + 1 >= 5 then {items[i].event} else {}
    ensures TriedSoFar(items, outcomes, i + 1, q', a', d', applied0, dropped0)
  {
    OneMoreSucceeded(items, outcomes, i);
    OneMoreSpent(items, outcomes, i);
    SettledStays(items, outcomes, i, q, a, d, q', a', d');
  }

  lemma SettledStays(items: seq<Item>, outcomes: seq<bool>, n: nat, q: seq<Item>, a: set<nat>, d: set<nat>,
                     q': seq<Item>, a': set<nat>, d': set<nat>)
    requires n <= |items| && n <= |outcomes| && q <= q' && a <= a' && d <= d'
    requires forall k :: 0 <= k < n ==> Settled(items[k], outcomes[k], q, a, d)
    ensures forall k :: 0 <= k < n ==> Settled(items[k], outcomes[k], q', a', d')
  {
    forall k | 0 <= k < n
      ensures Settled(items[k], outcomes[k], q', a', d')
    {
      assert Settled(items[k], outcomes[k], q, a, d);
    }
  }

  lemma OneMoreSucceeded(items: seq<Item>, outcomes: seq<bool>, i: nat)
    requires i < |items| && i < |outcomes|
    ensures EventsAt(items, Succeeded(outcomes, i + 1))
         == EventsAt(items, Succeeded(outcomes, i)) + if outcomes[i] then {items[i].event} else {}
  {
    if outcomes[i] {
      assert Succeeded(outcomes, i + 1) == Succeeded(outcomes, i) + {i};
      EventsAtOneMore(items, Succeeded(outcomes, i), i);
    } else {
      assert Succeeded(outcomes, i + 1) == Succeeded(outcomes, i);
    }
  }

  lemma OneMoreSpent(items: seq<Item>, outcomes: seq<bool>, i: nat)
    requires i < |items| && i < |outcomes|
    ensures var spent := !outcomes[i] && items[i].attempts + 1 >= 5;
            && |Spent(items, outcomes, i + 1)| == |Spent(items, outcomes, i)| + (if spent then 1 else 0)
            && EventsAt(items, Spent(items, outcomes, i + 1))
               == EventsAt(items, Spent(items, outcomes, i)) + (if spent then {items[i].event} else {})
  {
    if !outcomes[i] && items[i].attempts + 1 >= 5 {
      assert Spent(items, outcomes, i + 1) == Spent(items, outcomes, i) + {i};
      EventsAtOneMore(items, Spent(items, outcomes, i), i);
    } else {
      assert Spent(items, outcomes, i + 1) == Spent(items, outcomes, i);
    }
  }

  // Of the first `n` tries, those that succeeded, and those that failed for the fifth time.
  ghost function Succeeded(outcomes: seq<bool>, n: nat): set<nat>
    requires n <= |outcomes|
  {
    set i: nat | i < n && outcomes[i]
  }

  ghost function Spent(items: seq<Item>, outcomes: seq<bool>, n: nat): set<nat>
    requires n <= |items| && n <= |outcomes|
  {
    set i: nat | i < n && !outcomes[i] && items[i].attempts + 1 >= 5
  }

  ghost function EventsAt(items: seq<Item>, places: set<nat>): set<nat>
    requires forall i :: i in places ==> i < |items|
  {
    set i | i in places :: items[i].event
  }

  lemma EventsAtOneMore(items: seq<Item>, places: set<nat>, i: nat)
    requires i < |items| && forall k :: k in places ==> k < |items|
    ensures EventsAt(items, places + {i}) == EventsAt(items, places) + {items[i].event}
  {
  }
}
