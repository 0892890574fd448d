/** backend/spool.py: a file of JSON lines that any number of processes append to and one
    drains, each under one exclusive lock, with the read and the truncation as separate steps. */
module Spool {
  import opened Common

  // --- the framing -----------------------------------------------------------

  // What str.splitlines() breaks at.
  predicate Break(c: char) {
    c in "\n\r" || c in ['\U{B}', '\U{C}', '\U{1C}', '\U{1D}', '\U{1E}', '\U{85}', '\U{2028}', '\U{2029}']
  }

  predicate BlankLine(s: string) {
    forall i :: 0 <= i < |s| ==> Blank(s[i])
  }

  // What json.dumps yields for an object: ASCII with every control character escaped.
  predicate JsonLine(s: string) {
    s != "" && s[0] == '{' && forall i :: 0 <= i < |s| ==> ' ' <= s[i] <= '~'
  }

  function NextBreak(s: string, i: nat): (k: nat)
    requires i <= |s|
    ensures i <= k <= |s| && (k < |s| ==> Break(s[k])) && forall j :: i <= j < k ==> !Break(s[j])
    decreases |s| - i
  {
    if i == |s| || Break(s[i]) then i else NextBreak(s, i + 1)
  }

  function SplitLines(s: string): seq<string>
    decreases |s|
  {
    if s == "" then []
    else
      var k := NextBreak(s, 0);
      if k == |s| then [s]
      else if s[k] == '\r' && k + 1 < |s| && s[k + 1] == '\n' then [s[..k]] + SplitLines(s[k + 2..])
      else [s[..k]] + SplitLines(s[k + 1..])
  }

  function NonBlank(lines: seq<string>): seq<string> {
    if lines == [] then []
    else if BlankLine(lines[0]) then NonBlank(lines[1..])
    else [lines[0]] + NonBlank(lines[1..])
  }

  // The entries a drain would take out of the text.
  function Entries(text: string): seq<string> { NonBlank(SplitLines(text)) }

  function Frame(entries: seq<string>): string {
    if entries == [] then "" else entries[0] + "\n" + Frame(entries[1..])
  }

  ghost predicate AllJson(entries: seq<string>) {
    forall i :: 0 <= i < |entries| ==> JsonLine(entries[i])
  }

  // What append wrote is what drain reads, line for line.
  lemma {:induction false} FrameRoundTrip(entries: seq<string>)
    requires AllJson(entries)
    ensures Entries(Frame(entries)) == entries
  {
    if entries != [] {
      var head := entries[0];
      var text := Frame(entries);
      assert text[|head|] == '\n';
      assert forall j :: 0 <= j < |head| ==> text[j] == head[j] && !Break(text[j]);
      assert NextBreak(text, 0) == |head|;
      assert text[..|head|] == head && text[|head| + 1..] == Frame(entries[1..]);
      assert !BlankLine(head);
      FrameRoundTrip(entries[1..]);
      assert SplitLines(text) == [head] + SplitLines(Frame(entries[1..]));
    }
  }

  lemma {:induction false} FrameAppend(entries: seq<string>, e: string)
    ensures Frame(entries + [e]) == Frame(entries) + e + "\n"
  {
    if entries == [] {
      assert [] + [e] == [e];
      assert Frame([e]) == e + "\n" + Frame([]);
    } else {
      assert (entries + [e])[1..] == entries[1..] + [e];
      FrameAppend(entries[1..], e);
      assert Frame(entries + [e]) == entries[0] + "\n" + (Frame(entries[1..]) + e + "\n");
    }
  }

  // --- appenders and drainers ------------------------------------------------

  datatype Phase =
    | WantsAppend(entry: string)
    | Appending(entry: string)        // holds the lock
    | Appended
    | WantsDrain
    | Draining                         // holds the lock
    | HasLines(lines: seq<string>)     // read, not yet truncated
    | Truncated(lines: seq<string>)

  datatype System = System(
    text: string,
    lock: Option<nat>,
    procs: map<nat, Phase>,
    ghost appended: seq<string>,       // in lock order
    ghost batches: seq<seq<string>>)   // what each drain returned, in lock order

  datatype Step =
    | AskAppend(pid: nat, entry: string)
    | AskDrain(pid: nat)
    | Acquire(pid: nat)
    | Write(pid: nat)
    | ReadText(pid: nat)
    | Truncate(pid: nat)
    | Return(pid: nat)

  ghost predicate Enabled(s: System, e: Step) {
    match e
    case AskAppend(pid, entry) => pid !in s.procs && JsonLine(entry)
    case AskDrain(pid) => pid !in s.procs
    case Acquire(pid) => s.lock.None? && pid in s.procs && (s.procs[pid].WantsAppend? || s.procs[pid].WantsDrain?)
    case Write(pid) => s.lock == Some(pid) && pid in s.procs && s.procs[pid].Appending?
    case ReadText(pid) => s.lock == Some(pid) && pid in s.procs && s.procs[pid].Draining?
    case Truncate(pid) => s.lock == Some(pid) && pid in s.procs && s.procs[pid].HasLines?
    case Return(pid) => s.lock == Some(pid) && pid in s.procs && (s.procs[pid].Appended? || s.procs[pid].Truncated?)
  }

  ghost function Next(s: System, e: Step): System {
    if !Enabled(s, e) then s
    else match e
      case AskAppend(pid, entry) => s.(procs := s.procs[pid := WantsAppend(entry)])
      case AskDrain(pid) => s.(procs := s.procs[pid := WantsDrain])
      case Acquire(pid) =>
        s.(lock := Some(pid),
           procs := s.procs[pid := if s.procs[pid].WantsAppend? then Appending(s.procs[pid].entry) else Draining])
      case Write(pid) =>
        s.(text := s.text + s.procs[pid].entry + "\n", appended := s.appended + [s.procs[pid].entry],
           procs := s.procs[pid := Appended])
      case ReadText(pid) => s.(procs := s.procs[pid := HasLines(Entries(s.text))])
      case Truncate(pid) =>
        s.(text := "", batches := s.batches + [s.procs[pid].lines], procs := s.procs[pid := Truncated(s.procs[pid].lines)])
      case Return(pid) => s.(lock := None, procs := s.procs - {pid})
  }

  ghost function Run(s: System, es: seq<Step>): System
    decreases |es|
  {
    if es == [] then s else Run(Next(s, es[0]), es[1..])
  }

  ghost function Flatten(bs: seq<seq<string>>): seq<string> {
    if bs == [] then [] else Flatten(bs[..|bs| - 1]) + bs[|bs| - 1]
  }

  ghost predicate Inv(s: System, waiting: seq<string>) {
    && AllJson(waiting) && s.text == Frame(waiting)
    && s.appended == Flatten(s.batches) + waiting
    && forall pid :: pid in s.procs ==> ProcOk(s, waiting, pid, s.procs[pid])
  }

  ghost predicate ProcOk(s: System, waiting: seq<string>, pid: nat, p: Phase) {
    && (p.WantsAppend? || p.Appending? ==> JsonLine(p.entry))
    && (p.HasLines? ==> p.lines == waiting)
    && (!p.WantsAppend? && !p.WantsDrain? ==> s.lock == Some(pid))
  }

  ghost function Waiting(s: System, waiting: seq<string>, e: Step): seq<string> {
    if !Enabled(s, e) then waiting
    else if e.Write? then waiting + [s.procs[e.pid].entry]
    else if e.Truncate? then []
    else waiting
  }

  lemma NextKeepsText(s: System, waiting: seq<string>, e: Step)
    requires Inv(s, waiting)
    ensures var s', waiting' := Next(s, e), Waiting(s, waiting, e);
            AllJson(waiting') && s'.text == Frame(waiting') && s'.appended == Flatten(s'.batches) + waiting'
  {
    if Enabled(s, e) {
      if e.Write? {
        FrameAppend(waiting, s.procs[e.pid].entry);
      } else if e.Truncate? {
        var bs := s.batches + [s.procs[e.pid].lines];
        assert bs[..|s.batches|] == s.batches;
      }
    }
  }

  lemma NextKeepsProcs(s: System, waiting: seq<string>, e: Step, pid: nat)
    requires Inv(s, waiting) && pid in Next(s, e).procs
    ensures ProcOk(Next(s, e), Waiting(s, waiting, e), pid, Next(s, e).procs[pid])
  {
    assert pid in s.procs ==> ProcOk(s, waiting, pid, s.procs[pid]);
    if e.ReadText? && Enabled(s, e) {
      FrameRoundTrip(waiting);
    }
  }

  lemma NextKeepsInv(s: System, waiting: seq<string>, e: Step)
    requires Inv(s, waiting)
    ensures Inv(Next(s, e), Waiting(s, waiting, e))
  {
    NextKeepsText(s, waiting, e);
    forall pid | pid in Next(s, e).procs
      ensures ProcOk(Next(s, e), Waiting(s, waiting, e), pid, Next(s, e).procs[pid])
    {
      NextKeepsProcs(s, waiting, e, pid);
    }
  }

  lemma {:induction false} RunKeepsInv(s: System, waiting: seq<string>, es: seq<Step>) returns (waiting': seq<string>)
    requires Inv(s, waiting)
    ensures Inv(Run(s, es), waiting')
    decreases |es|
  {
    waiting' := waiting;
    if es != [] {
      NextKeepsInv(s, waiting, es[0]);
      waiting' := RunKeepsInv(Next(s, es[0]), Waiting(s, waiting, es[0]), es[1..]);
    }
  }

  function Empty(): System { System("", None, map[], [], []) }

  // Conservation: under any interleaving, what was appended is what the drains returned, end to
  // end in lock order, and then what the file still holds. Nothing is lost, doubled or reordered.
  lemma NothingLostOrDoubled(es: seq<Step>)
    ensures var s := Run(Empty(), es);
            s.appended == Flatten(s.batches) + Entries(s.text)
  {
    var waiting := RunKeepsInv(Empty(), [], es);
    FrameRoundTrip(waiting);
  }

  lemma RunStep(s: System, e: Step, es: seq<Step>)
    ensures Run(s, [e] + es) == Run(Next(s, e), es)
  {
    assert ([e] + es)[1..] == es;
  }

  // With the lock free, an append and a drain each run to their end and give it back.
  lemma CallsComplete(s: System, pid: nat, entry: string)
    requires s.lock.None? && pid !in s.procs && JsonLine(entry)
    ensures var s' := Run(s, [AskAppend(pid, entry)] + ([Acquire(pid)] + ([Write(pid)] + ([Return(pid)] + []))));
            s' == s.(text := s.text + entry + "\n", appended := s.appended + [entry])
    ensures var s' := Run(s, [AskDrain(pid)] + ([Acquire(pid)] + ([ReadText(pid)] + ([Truncate(pid)] + ([Return(pid)] + [])))));
            s' == s.(text := "", batches := s.batches + [Entries(s.text)])
  {
    AppendCompletes(s, pid, entry);
    DrainCompletes(s, pid);
  }

  lemma AppendCompletes(s: System, pid: nat, entry: string)
    requires s.lock.None? && pid !in s.procs && JsonLine(entry)
    ensures Run(s, [AskAppend(pid, entry)] + ([Acquire(pid)] + ([Write(pid)] + ([Return(pid)] + []))))
         == s.(text := s.text + entry + "\n", appended := s.appended + [entry])
  {
    var s1 := Next(s, AskAppend(pid, entry));
    var s2 := Next(s1, Acquire(pid));
    var s3 := Next(s2, Write(pid));
    RunStep(s, AskAppend(pid, entry), [Acquire(pid)] + ([Write(pid)] + ([Return(pid)] + [])));
    RunStep(s1, Acquire(pid), [Write(pid)] + ([Return(pid)] + []));
    RunStep(s2, Write(pid), [Return(pid)] + []);
    RunStep(s3, Return(pid), []);
    assert s3.procs - {pid} == s.procs;
  }

  lemma DrainCompletes(s: System, pid: nat)
    requires s.lock.None? && pid !in s.procs
    ensures Run(s, [AskDrain(pid)] + ([Acquire(pid)] + ([ReadText(pid)] + ([Truncate(pid)] + ([Return(pid)] + [])))))
         == s.(text := "", batches := s.batches + [Entries(s.text)])
  {
    var s1 := Next(s, AskDrain(pid));
    var s2 := Next(s1, Acquire(pid));
    var locked := [ReadText(pid)] + ([Truncate(pid)] + ([Return(pid)] + []));
    RunStep(s, AskDrain(pid), [Acquire(pid)] + locked);
    RunStep(s1, Acquire(pid), locked);
    LockedDrainCompletes(s2, pid);
    assert s2.procs - {pid} == s.procs;
  }

  lemma LockedDrainCompletes(s: System, pid: nat)
    requires s.lock == Some(pid) && pid in s.procs && s.procs[pid].Draining?
    ensures Run(s, [ReadText(pid)] + ([Truncate(pid)] + ([Return(pid)] + [])))
         == s.(text := "", batches := s.batches + [Entries(s.text)], lock := None, procs := s.procs - {pid})
  {
    var s1 := Next(s, ReadText(pid));
    var s2 := Next(s1, Truncate(pid));
    RunStep(s, ReadText(pid), [Truncate(pid)] + ([Return(pid)] + []));
    RunStep(s1, Truncate(pid), [Return(pid)] + []);
    RunStep(s2, Return(pid), []);
    assert s2.procs - {pid} == s.procs - {pid};
  }

  // --- the object itself, one locked call at a time ---------------------------

  class SpoolFile {
    var text: Option<string>            // None until either end creates it
    ghost var waiting: seq<string>      // appended and not yet drained, oldest first

    ghost predicate Valid()
      reads this
    {
      AllJson(waiting) && Frame(waiting) == (if text.Some? then text.value else "")
    }

    constructor ()
      ensures Valid() && waiting == []
    {
      text, waiting := None, [];
    }

    method Append(entry: string)
      requires Valid() && JsonLine(entry)
      modifies this
      ensures Valid() && waiting == old(waiting) + [entry]
    {
      FrameAppend(waiting, entry);
      var before := if text.Some? then text.value else "";
      text := Some(before + entry + "\n");
      waiting := waiting + [entry];
    }

    // The hint that work exists: with the lock held it is exact.
    method Pending() returns (yes: bool)
      requires Valid()
      ensures yes <==> waiting != []
    {
      yes := text.Some? && text.value != "";
    }

    method Drain() returns (entries: seq<string>)
      requires Valid()
      modifies this
      ensures Valid() && waiting == [] && entries == old(waiting)
    {
      FrameRoundTrip(waiting);
      if text.None? {
        waiting := [];
        return [];
      }
      var lines := SplitLines(text.value);
      text := Some("");
      entries := Kept(lines);
      waiting := [];
    }
  }

  // The lines a drain parses.
  method Kept(lines: seq<string>) returns (entries: seq<string>)
    ensures entries == NonBlank(lines)
  {
    entries := [];
    for i := 0 to |lines|
      invariant entries + NonBlank(lines[i..]) == NonBlank(lines)
    {
      assert lines[i..][1..] == lines[i + 1..];
      if !BlankLine(lines[i]) {
        entries := entries + [lines[i]];
      }
    }
  }

  // --- wake_queue.drain ------------------------------------------------------

  // One spooled entry of the wake queue; an older release wrote account_id for email.
  datatype Wake = Wake(email: string, accountId: string) {
    function Value(): string { if email != "" then email else accountId }
  }

  function Values(entries: seq<Wake>): seq<string> {
    if entries == [] then []
    else
      var last := entries[|entries| - 1].Value();
      Values(entries[..|entries| - 1]) + if last == "" then [] else [last]
  }

  lemma OneMoreValue(entries: seq<Wake>, i: nat)
    requires i < |entries|
    ensures Dedup(Values(entries[..i + 1]))
         == var before, value := Dedup(Values(entries[..i])), entries[i].Value();
            if value == "" || value in before then before else before + [value]
  {
    assert entries[..i + 1][..i] == entries[..i];
    var before, value := Values(entries[..i]), entries[i].Value();
    if value == "" {
      assert before + [] == before;
    } else {
      assert (before + [value])[..|before|] == before;
    }
  }

  // Every queued address once, in the order each first arrived: `at` is where. An entry's address
  // is its email, or the older field where it has none; an entry with neither is dropped.
  method DrainWakes(entries: seq<Wake>) returns (seen: seq<string>, ghost at: seq<int>)
    ensures seen == Dedup(Values(entries))
    ensures forall e :: e in entries && e.email != "" ==> e.email in seen
    ensures forall e :: e in entries && e.email == "" && e.accountId != "" ==> e.accountId in seen
    ensures |at| == |seen| && forall k :: 0 <= k < |seen| ==>
              && 0 <= at[k] < |entries| && seen[k] != ""
              && seen[k] == (if entries[at[k]].email != "" then entries[at[k]].email else entries[at[k]].accountId)
    ensures forall j, k :: 0 <= j < k < |seen| ==> seen[j] != seen[k] && at[j] < at[k]
    ensures forall k, q :: 0 <= k < |seen| && 0 <= q < at[k] ==>
              seen[k] != (if entries[q].email != "" then entries[q].email else entries[q].accountId)
  {
    seen, at := [], [];
    for i := 0 to |entries|
      invariant seen == Dedup(Values(entries[..i])) && FirstArrivals(entries, i, seen, at)
    {
      OneMoreValue(entries, i);
      var value := entries[i].Value();
      if value != "" && value !in seen {
        OneMoreArrival(entries, i, seen, at);
        seen, at := seen + [value], at + [i];
      } else {
        NoNewArrival(entries, i, seen, at);
      }
    }
    assert entries[..|entries|] == entries;
    AllArrived(entries, seen, at);
  }

  lemma NoNewArrival(entries: seq<Wake>, i: nat, seen: seq<string>, at: seq<int>)
    requires i < |entries| && FirstArrivals(entries, i, seen, at)
    requires entries[i].Value() == "" || entries[i].Value() in seen
    ensures FirstArrivals(entries, i + 1, seen, at)
  {
  }

  lemma AllArrived(entries: seq<Wake>, seen: seq<string>, at: seq<int>)
    requires FirstArrivals(entries, |entries|, seen, at)
    ensures forall e :: e in entries && e.Value() != "" ==> e.Value() in seen
    ensures forall j, k :: 0 <= j < k < |seen| ==> seen[j] != seen[k]
  {
    forall e | e in entries && e.Value() != ""
      ensures e.Value() in seen
    {
      var q :| 0 <= q < |entries| && entries[q] == e;
      assert entries[q].Value() in seen;
    }
    forall j, k | 0 <= j < k < |seen|
      ensures seen[j] != seen[k]
    {
      assert at[j] < at[k] && entries[at[j]].Value() == seen[j];
    }
  }

  // `at` is where each of `seen` first stands among the first `n` entries.
  ghost predicate FirstArrivals(entries: seq<Wake>, n: nat, seen: seq<string>, at: seq<int>)
    requires n <= |entries|
  {
    && |at| == |seen|
    && (forall k :: 0 <= k < |seen| ==> 0 <= at[k] < n && seen[k] != "" && seen[k] == entries[at[k]].Value())
    && (forall j, k :: 0 <= j < k < |at| ==> at[j] < at[k])
    && (forall q :: 0 <= q < n && entries[q].Value() != "" ==> entries[q].Value() in seen)
    && (forall k, q :: 0 <= k < |seen| && 0 <= q < at[k] ==> seen[k] != entries[q].Value())
  }

  lemma OneMoreArrival(entries: seq<Wake>, i: nat, seen: seq<string>, at: seq<int>)
    requires i < |entries| && FirstArrivals(entries, i, seen, at)
    requires entries[i].Value() != "" && entries[i].Value() !in seen
    ensures FirstArrivals(entries, i + 1, seen + [entries[i].Value()], at + [i])
  {
    var seen', at' := seen + [entries[i].Value()], at + [i];
    forall k, q | 0 <= k < |seen'| && 0 <= q < at'[k]
      ensures seen'[k] != entries[q].Value()
    {
      if k == |seen| && entries[q].Value() != "" {
        assert entries[q].Value() in seen;
      }
    }
    forall q | 0 <= q < i + 1 && entries[q].Value() != ""
      ensures entries[q].Value() in seen'
    {
      if q < i {
        assert entries[q].Value() in seen;
      } else {
        assert seen'[|seen|] == entries[q].Value();
      }
    }
  }
}
