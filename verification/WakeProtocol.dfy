/** The wake protocol between the Gmail push receiver and the mail daemon: an address spooled
    under a lock, then one byte poked into a FIFO that may be full or have no reader. Receivers
    are threads that can stop between any two system calls. */
module WakeProtocol {
  // route_push after the body parsed: append, open the FIFO, write to it.
  datatype Writer = Appending(address: string) | Opening(id: nat) | Writing(id: nat)

  datatype Daemon =
    | Down
    | Startup      // the reader is open; the startup sweep has not drained
    | Waiting      // in wait_for_wake's poll
    | Reading      // poll answered; wait_for_wake is emptying the FIFO
    | Before       // the pass is under way and has not drained
    | After        // drained; mail is being processed

  datatype System = System(
    spool: seq<(nat, string)>,
    fifo: nat,
    daemon: Daemon,
    writers: map<nat, Writer>,
    nextId: nat,
    ghost finished: set<nat>,    // writers that are done appending and poking
    ghost drained: set<nat>,
    ghost missed: bool,          // the last pass raised before its drain
    ghost begun: nat,            // passes started, and how each one ended
    ghost drains: nat,
    ghost raised: nat,
    ghost died: nat)

  const CAPACITY: nat := 65536
  const CHUNK: nat := 4096

  datatype Step =
    | Push(tid: nat, address: string)
    | Append(tid: nat)
    | Open(tid: nat)
    | Poke(tid: nat)
    | Start
    | Woken
    | Timeout
    | ReadBytes(n: nat)
    | ReadDone
    | Raise                      // process_billing, say, before wake_queue.drain
    | Drain
    | EndPass                    // processing finished, or raised; either way back to the poll
    | Exit(left: nat)            // restart.flag, SIGTERM or a crash; `left` bytes may survive in the pipe

  ghost predicate Enabled(s: System, e: Step) {
    match e
    case Push(tid, address) => tid !in s.writers && address != ""
    case Append(tid) => tid in s.writers && s.writers[tid].Appending?
    case Open(tid) => tid in s.writers && s.writers[tid].Opening?
    case Poke(tid) => tid in s.writers && s.writers[tid].Writing?
    case Start => s.daemon.Down?
    case Woken => s.daemon.Waiting? && s.fifo > 0
    case Timeout => s.daemon.Waiting? && s.fifo == 0
    case ReadBytes(n) => s.daemon.Reading? && 0 < n <= CHUNK && n <= s.fifo
    case ReadDone => s.daemon.Reading? && s.fifo == 0
    case Raise => s.daemon.Startup? || s.daemon.Before?
    case Drain => s.daemon.Startup? || s.daemon.Before?
    case EndPass => s.daemon.After?
    case Exit(left) => !s.daemon.Down? && left <= s.fifo
  }

  ghost function Finish(s: System, tid: nat, id: nat): System {
    s.(writers := s.writers - {tid}, finished := s.finished + {id})
  }

  ghost predicate BeforeDrain(d: Daemon) { d.Startup? || d.Reading? || d.Before? }

  ghost function Ids(q: seq<(nat, string)>): set<nat> { set i | 0 <= i < |q| :: q[i].0 }

  ghost function Next(s: System, e: Step): System {
    if !Enabled(s, e) then s
    else match e
      case Push(tid, address) => s.(writers := s.writers[tid := Appending(address)])
      case Append(tid) =>
        s.(spool := s.spool + [(s.nextId, s.writers[tid].address)], nextId := s.nextId + 1,
           writers := s.writers[tid := Opening(s.nextId)])
      case Open(tid) =>
        // ENXIO without a reader: fail soft
        if s.daemon.Down? then Finish(s, tid, s.writers[tid].id)
        else s.(writers := s.writers[tid := Writing(s.writers[tid].id)])
      case Poke(tid) =>
        // EPIPE without a reader, EAGAIN when full: both fail soft
        var s' := Finish(s, tid, s.writers[tid].id);
        if s.daemon.Down? || s.fifo >= CAPACITY then s' else s'.(fifo := s.fifo + 1)
      case Start => s.(daemon := Startup, missed := false, begun := s.begun + 1)
      case Woken => s.(daemon := Reading, begun := s.begun + 1)
      case Timeout => s.(daemon := Before, begun := s.begun + 1)
      case ReadBytes(n) => s.(fifo := s.fifo - n)
      case ReadDone => s.(daemon := Before)
      case Raise => s.(daemon := Waiting, missed := true, raised := s.raised + 1)
      case Drain =>
        s.(daemon := After, spool := [], drained := s.drained + Ids(s.spool), missed := false, drains := s.drains + 1)
      case EndPass => s.(daemon := Waiting)
      case Exit(left) =>
        s.(daemon := Down, fifo := left, died := if BeforeDrain(s.daemon) then s.died + 1 else s.died)
  }

  ghost function Run(s: System, es: seq<Step>): System
    decreases |es|
  {
    if es == [] then s else Run(Next(s, es[0]), es[1..])
  }

  // Somebody is going to look at the spool: a byte is pending, or the daemon has yet to reach
  // the drain of a pass it has started or will start first thing, or it owes a drain.
  ghost predicate WillLook(s: System) {
    s.fifo > 0 || s.daemon.Down? || BeforeDrain(s.daemon) || s.missed
  }

  ghost predicate NoLostWake(s: System) {
    forall id :: id in s.finished ==> id in s.drained || WillLook(s)
  }

  ghost predicate Inv(s: System) {
    && NoLostWake(s)
    && s.finished <= Ids(s.spool) + s.drained
    && (forall tid :: tid in s.writers && !s.writers[tid].Appending? ==>
          s.writers[tid].id in Ids(s.spool) + s.drained)
    && s.begun == s.drains + s.raised + s.died + (if BeforeDrain(s.daemon) then 1 else 0)
  }

  lemma AppendedIds(q: seq<(nat, string)>, x: (nat, string))
    ensures Ids(q + [x]) == Ids(q) + {x.0}
  {
    assert (q + [x])[|q|] == x;
    forall id | id in Ids(q)
      ensures id in Ids(q + [x])
    {
      var i :| 0 <= i < |q| && q[i].0 == id;
      assert (q + [x])[i] == q[i];
    }
  }

  lemma NextKeepsInv(s: System, e: Step)
    requires Inv(s)
    ensures Inv(Next(s, e))
  {
    if e.Append? && Enabled(s, e) {
      AppendedIds(s.spool, (s.nextId, s.writers[e.tid].address));
    }
  }

  lemma {:induction false} RunKeepsInv(s: System, es: seq<Step>)
    requires Inv(s)
    ensures Inv(Run(s, es))
    decreases |es|
  {
    if es != [] {
      NextKeepsInv(s, es[0]);
      RunKeepsInv(Next(s, es[0]), es[1..]);
    }
  }

  function Boot(): System { System([], 0, Down, map[], 0, {}, {}, false, 0, 0, 0, 0) }

  // No lost wake, in every interleaving of any number of receivers with the daemon.
  lemma NoWakeIsLost(es: seq<Step>, id: nat)
    requires id in Run(Boot(), es).finished
    ensures var s := Run(Boot(), es);
            || id in s.drained
            || s.fifo > 0
            || s.daemon.Down?
            || s.daemon.Startup? || s.daemon.Reading? || s.daemon.Before?
            || s.missed
  {
    RunKeepsInv(Boot(), es);
  }

  // A drain takes everything that was spooled when the pass began.
  lemma {:induction false} DrainTakesAll(s: System, es: seq<Step>)
    ensures Ids(s.spool) <= Ids(Run(s, es).spool) + Run(s, es).drained
    ensures s.drained <= Run(s, es).drained && s.drains <= Run(s, es).drains
    ensures s.drains < Run(s, es).drains ==> Ids(s.spool) <= Run(s, es).drained
    decreases |es|
  {
    if es != [] {
      if es[0].Append? && Enabled(s, es[0]) {
        AppendedIds(s.spool, (s.nextId, s.writers[es[0].tid].address));
      }
      DrainTakesAll(Next(s, es[0]), es[1..]);
    }
  }

  // --- what can happen does ------------------------------------------------------

  lemma {:induction false} RunConcat(s: System, a: seq<Step>, b: seq<Step>)
    ensures Run(s, a + b) == Run(Run(s, a), b)
    decreases |a|
  {
    if a == [] {
      assert a + b == b;
    } else {
      assert (a + b)[1..] == a[1..] + b;
      RunConcat(Next(s, a[0]), a[1..], b);
    }
  }

  // A step of the daemon's own, nothing failing.
  predicate Smooth(e: Step) {
    e.Start? || e.Woken? || e.Timeout? || e.ReadBytes? || e.ReadDone? || e.Drain? || e.EndPass?
  }

  // The FIFO is emptied, 4096 bytes at a time.
  lemma {:induction false} ReadsToEmpty(s: System) returns (es: seq<Step>)
    requires s.daemon.Reading?
    ensures (forall i :: 0 <= i < |es| ==> Smooth(es[i])) && Run(s, es) == s.(daemon := Before, fifo := 0)
    decreases s.fifo
  {
    if s.fifo == 0 {
      es := [ReadDone];
      assert es[1..] == [];
    } else {
      var n := if s.fifo < 4096 then s.fifo else 4096;
      var rest := ReadsToEmpty(Next(s, ReadBytes(n)));
      es := [ReadBytes(n)] + rest;
      assert es[1..] == rest;
    }
  }

  lemma DrainsNow(s: System)
    requires s.daemon.Startup? || s.daemon.Before?
    ensures Run(s, [Drain]).spool == [] && Run(s, [Drain]).drained == s.drained + Ids(s.spool)
  {
    assert [Drain][1..] == [];
  }

  // From any state at all the daemon gets to a drain on its own, nothing failing, and takes all
  // that is spooled by then.
  lemma {:induction false} AlwaysGetsToDrain(s: System) returns (es: seq<Step>)
    ensures forall i :: 0 <= i < |es| ==> Smooth(es[i])
    ensures Run(s, es).spool == [] && Ids(s.spool) <= Run(s, es).drained
    decreases if s.daemon.Down? || s.daemon.After? then 3 else if s.daemon.Waiting? then 2 else if s.daemon.Reading? then 1 else 0
  {
    if s.daemon.Startup? || s.daemon.Before? {
      DrainsNow(s);
      es := [Drain];
    } else if s.daemon.Reading? {
      var chunks := ReadsToEmpty(s);
      var rest := AlwaysGetsToDrain(Run(s, chunks));
      RunConcat(s, chunks, rest);
      es := chunks + rest;
    } else {
      var e := if s.daemon.Down? then Start else if s.daemon.After? then EndPass else if s.fifo > 0 then Woken else Timeout;
      var rest := AlwaysGetsToDrain(Next(s, e));
      es := [e] + rest;
      assert es[1..] == rest;
    }
  }

  // And a receiver's push is spooled, poked for and finished.
  lemma PushIsFinished(s: System, tid: nat, address: string)
    requires tid !in s.writers && address != "" && !s.daemon.Down?
    ensures var s' := Run(s, [Push(tid, address), Append(tid), Open(tid), Poke(tid)]);
            && s'.spool == s.spool + [(s.nextId, address)] && s'.finished == s.finished + {s.nextId}
            && s'.fifo == (if s.fifo < 65536 then s.fifo + 1 else s.fifo) && s'.daemon == s.daemon
  {
    var push, append, open, poke := Push(tid, address), Append(tid), Open(tid), Poke(tid);
    assert [push, append, open, poke] == [push] + ([append] + ([open] + [poke]));
    RunConcat(s, [push], [append] + ([open] + [poke]));
    RunOne(s, push);
    RunConcat(Next(s, push), [append], [open] + [poke]);
    RunOne(Next(s, push), append);
    var s2 := Next(Next(s, push), append);
    RunConcat(s2, [open], [poke]);
    RunOne(s2, open);
    RunOne(Next(s2, open), poke);
  }

  lemma RunOne(s: System, e: Step)
    ensures Run(s, [e]) == Next(s, e)
  {
    assert [e][1..] == [];
  }

  // The backstop. From one poll to a later one, if a pass was begun at all, woken or timed out,
  // then whatever was spooled at the first is drained by the second unless a pass in between
  // raised early or the process died early.
  lemma NextPassDrains(before: seq<Step>, es: seq<Step>)
    requires var s := Run(Boot(), before); var s' := Run(s, es);
             && s.daemon.Waiting? && s'.daemon.Waiting?
             && s'.begun > s.begun && s'.raised == s.raised && s'.died == s.died
    ensures var s := Run(Boot(), before);
            Ids(s.spool) <= Run(s, es).drained
  {
    var s := Run(Boot(), before);
    RunKeepsInv(Boot(), before);
    RunKeepsInv(s, es);
    DrainTakesAll(s, es);
  }
}
