/** _manifest_transaction: read, mutate, write back, as separate steps of any number of threads
    and processes around one lock, with unlocked readers in between and a writer that may die
    at any point before its rename. */
module ManifestLock {
  import opened Common
  import opened Manifest

  datatype Phase =
    | Queued(m: Mutation)
    | Locked(m: Mutation)
    | HasRead(m: Mutation, snapshot: File)
    | Mutated(m: Mutation, next: File)     // the body ran; `next` is what will be renamed into place
    | Renamed(m: Mutation)

  datatype System = System(
    file: File,
    lock: Option<nat>,
    threads: map<nat, Phase>,
    ghost order: seq<Mutation>,            // in the order the lock was taken, the dead left out
    seen: seq<File>,                       // what unlocked readers saw,
    ghost versions: seq<nat>)              // each after how many mutations of `order`

  datatype Step =
    | Ask(tid: nat, m: Mutation)
    | Acquire(tid: nat)
    | ReadFile(tid: nat)
    | Body(tid: nat)
    | Rename(tid: nat)
    | Release(tid: nat)
    | Die(tid: nat)
    | Look                                  // an unlocked reader

  predicate Holds(s: System, tid: nat) {
    s.lock == Some(tid) && tid in s.threads
  }

  predicate Enabled(s: System, e: Step) {
    match e
    case Ask(tid, _) => tid !in s.threads
    case Acquire(tid) => s.lock.None? && tid in s.threads && s.threads[tid].Queued?
    case ReadFile(tid) => Holds(s, tid) && s.threads[tid].Locked?
    case Body(tid) => Holds(s, tid) && s.threads[tid].HasRead?
    case Rename(tid) => Holds(s, tid) && s.threads[tid].Mutated?
    case Release(tid) => Holds(s, tid) && s.threads[tid].Renamed?
    case Die(tid) => tid in s.threads
    case Look => true
  }

  ghost function Next(max: nat, s: System, e: Step): System {
    if !Enabled(s, e) then s
    else match e
      case Ask(tid, m) => s.(threads := s.threads[tid := Queued(m)])
      case Acquire(tid) =>
        s.(lock := Some(tid), threads := s.threads[tid := Locked(s.threads[tid].m)], order := s.order + [s.threads[tid].m])
      case ReadFile(tid) => s.(threads := s.threads[tid := HasRead(s.threads[tid].m, s.file)])
      case Body(tid) =>
        var p := s.threads[tid];
        s.(threads := s.threads[tid := Mutated(p.m, Committed(max, p.snapshot, p.m))])
      case Rename(tid) => s.(file := s.threads[tid].next, threads := s.threads[tid := Renamed(s.threads[tid].m)])
      case Release(tid) => s.(lock := None, threads := s.threads - {tid})
      case Die(tid) =>
        // flock is released by the kernel; a rename that has not happened never will
        if s.lock == Some(tid)
        then s.(lock := None, threads := s.threads - {tid},
                order := if s.threads[tid].Renamed? || s.order == [] then s.order else s.order[..|s.order| - 1])
        else s.(threads := s.threads - {tid})
      case Look => s.(seen := s.seen + [s.file], versions := s.versions + [Settled(s)])
  }

  ghost function Run(max: nat, s: System, es: seq<Step>): System
    decreases |es|
  {
    if es == [] then s else Run(max, Next(max, s, es[0]), es[1..])
  }

  // The mutations one after another, nobody else about.
  function Replay(max: nat, start: File, ms: seq<Mutation>): File {
    if ms == [] then start
    else Committed(max, Replay(max, start, ms[..|ms| - 1]), ms[|ms| - 1])
  }

  ghost predicate Inv(max: nat, start: File, s: System) {
    ReadersOk(max, start, s) && OneHolder(s) && LockOk(max, start, s)
  }

  ghost predicate OneHolder(s: System) {
    forall tid :: tid in s.threads && !s.threads[tid].Queued? ==> s.lock == Some(tid)
  }

  ghost predicate LockOk(max: nat, start: File, s: System) {
    match s.lock
    case None => s.file == Replay(max, start, s.order)
    case Some(tid) => tid in s.threads && !s.threads[tid].Queued? && HolderOk(max, start, s, s.threads[tid])
  }

  ghost predicate HolderOk(max: nat, start: File, s: System, p: Phase) {
    && s.order != [] && s.order[|s.order| - 1] == p.m
    && var before := Replay(max, start, s.order[..|s.order| - 1]);
       match p
       case Queued(_) => true
       case Locked(_) => s.file == before
       case HasRead(_, snapshot) => s.file == before && snapshot == before
       case Mutated(_, next) => s.file == before && next == Committed(max, before, p.m)
       case Renamed(_) => s.file == Replay(max, start, s.order)
  }

  // Every reader saw a committed version, the file after so many mutations and none half applied,
  // and no reader one older than a reader before it. A mutation still holding the lock has
  // committed nothing until its rename.
  ghost predicate ReadersOk(max: nat, start: File, s: System) {
    && |s.versions| == |s.seen|
    && (forall i :: 0 <= i < |s.seen| ==>
          s.versions[i] <= Settled(s) && s.seen[i] == Replay(max, start, s.order[..s.versions[i]]))
    && (forall i, j :: 0 <= i < j < |s.seen| ==> s.versions[i] <= s.versions[j])
  }

  ghost function Settled(s: System): (n: nat)
    ensures n <= |s.order|
  {
    if s.lock.Some? && s.lock.value in s.threads && !s.threads[s.lock.value].Renamed? && s.order != []
    then |s.order| - 1 else |s.order|
  }

  lemma FileIsSettled(max: nat, start: File, s: System)
    requires Inv(max, start, s)
    ensures s.file == Replay(max, start, s.order[..Settled(s)])
  {
    assert s.order[..|s.order|] == s.order;
  }

  lemma SettledGrows(max: nat, s: System, e: Step, start: File)
    requires Inv(max, start, s)
    ensures Settled(s) <= Settled(Next(max, s, e))
    ensures s.order[..Settled(s)] == Next(max, s, e).order[..Settled(s)]
  {
  }

  lemma StaysOneHolder(max: nat, s: System, e: Step)
    requires OneHolder(s)
    ensures OneHolder(Next(max, s, e))
  {
  }

  // Steps that leave the file, the lock and its holder alone.
  lemma BystanderIsOk(max: nat, start: File, s: System, s': System)
    requires LockOk(max, start, s) && s'.file == s.file && s'.lock == s.lock && s'.order == s.order
    requires s.lock.Some? && s.lock.value in s.threads ==>
               s.lock.value in s'.threads && s'.threads[s.lock.value] == s.threads[s.lock.value]
    ensures LockOk(max, start, s')
  {
  }

  lemma AcquireIsOk(max: nat, start: File, s: System, tid: nat)
    requires LockOk(max, start, s) && Enabled(s, Acquire(tid))
    ensures LockOk(max, start, Next(max, s, Acquire(tid)))
  {
    assert (s.order + [s.threads[tid].m])[..|s.order|] == s.order;
  }

  lemma WorkIsOk(max: nat, start: File, s: System, e: Step)
    requires LockOk(max, start, s) && Enabled(s, e) && (e.ReadFile? || e.Body? || e.Rename?)
    ensures LockOk(max, start, Next(max, s, e))
  {
  }

  lemma LeavingIsOk(max: nat, start: File, s: System, e: Step)
    requires LockOk(max, start, s) && Enabled(s, e) && (e.Release? || (e.Die? && s.lock == Some(e.tid)))
    ensures LockOk(max, start, Next(max, s, e))
  {
  }

  lemma LockStaysOk(max: nat, start: File, s: System, e: Step)
    requires LockOk(max, start, s)
    ensures LockOk(max, start, Next(max, s, e))
  {
    if Enabled(s, e) {
      match e
      case Acquire(tid) => AcquireIsOk(max, start, s, tid);
      case ReadFile(_) => WorkIsOk(max, start, s, e);
      case Body(_) => WorkIsOk(max, start, s, e);
      case Rename(_) => WorkIsOk(max, start, s, e);
      case Release(_) => LeavingIsOk(max, start, s, e);
      case Die(tid) =>
        if s.lock == Some(tid) {
          LeavingIsOk(max, start, s, e);
        } else {
          BystanderIsOk(max, start, s, Next(max, s, e));
        }
      case Ask(_, _) => BystanderIsOk(max, start, s, Next(max, s, e));
      case Look => BystanderIsOk(max, start, s, Next(max, s, e));
    }
  }

  // What readers saw stays a version of the history as it grows.
  lemma SeenStaysOk(max: nat, start: File, s: System, s': System)
    requires ReadersOk(max, start, s) && s'.seen == s.seen && s'.versions == s.versions
    requires Settled(s) <= Settled(s') && s.order[..Settled(s)] == s'.order[..Settled(s)]
    ensures ReadersOk(max, start, s')
  {
    forall i | 0 <= i < |s.seen|
      ensures s.order[..s.versions[i]] == s'.order[..s.versions[i]]
    {
      PrefixOfPrefix(s.order, s'.order, Settled(s), s.versions[i]);
    }
  }

  lemma LookIsOk(max: nat, start: File, s: System)
    requires ReadersOk(max, start, s) && s.file == Replay(max, start, s.order[..Settled(s)])
    ensures ReadersOk(max, start, s.(seen := s.seen + [s.file], versions := s.versions + [Settled(s)]))
  {
  }

  lemma OnlyLookSees(max: nat, s: System, e: Step)
    requires !e.Look?
    ensures Next(max, s, e).seen == s.seen && Next(max, s, e).versions == s.versions
  {
  }

  lemma ReadersStayOk(max: nat, start: File, s: System, e: Step)
    requires Inv(max, start, s)
    ensures ReadersOk(max, start, Next(max, s, e))
  {
    if e.Look? {
      FileIsSettled(max, start, s);
      LookIsOk(max, start, s);
    } else {
      OnlyLookSees(max, s, e);
      SettledGrows(max, s, e, start);
      SeenStaysOk(max, start, s, Next(max, s, e));
    }
  }

  lemma PrefixOfPrefix(a: seq<Mutation>, b: seq<Mutation>, n: nat, k: nat)
    requires k <= n <= |a| && n <= |b| && a[..n] == b[..n]
    ensures a[..k] == b[..k]
  {
    assert a[..k] == a[..n][..k];
    assert b[..k] == b[..n][..k];
  }

  lemma NextKeepsInv(max: nat, start: File, s: System, e: Step)
    requires Inv(max, start, s)
    ensures Inv(max, start, Next(max, s, e))
  {
    StaysOneHolder(max, s, e);
    LockStaysOk(max, start, s, e);
    ReadersStayOk(max, start, s, e);
  }

  lemma {:induction false} RunKeepsInv(max: nat, start: File, s: System, es: seq<Step>)
    requires Inv(max, start, s)
    ensures Inv(max, start, Run(max, s, es))
    decreases |es|
  {
    if es != [] {
      NextKeepsInv(max, start, s, es[0]);
      RunKeepsInv(max, start, Next(max, s, es[0]), es[1..]);
    }
  }

  function Quiet(start: File): System { System(start, None, map[], [], [], []) }

  // Serializability: with nobody holding the lock the file is the mutations applied one after
  // another in lock order. A reader only ever saw the file after some of the mutations already
  // committed, and never an older version than a reader before it.
  lemma WritersAreSerial(max: nat, start: File, es: seq<Step>)
    ensures var s := Run(max, Quiet(start), es);
            && (s.lock.None? ==> s.file == Replay(max, start, s.order))
            && s.file == Replay(max, start, s.order[..Settled(s)])
            && |s.versions| == |s.seen|
            && (forall i :: 0 <= i < |s.seen| ==>
                  s.versions[i] <= Settled(s) && s.seen[i] == Replay(max, start, s.order[..s.versions[i]]))
            && (forall i, j :: 0 <= i < j < |s.seen| ==> s.versions[i] <= s.versions[j])
  {
    RunKeepsInv(max, start, Quiet(start), es);
    FileIsSettled(max, start, Run(max, Quiet(start), es));
  }

  // --- what serial histories keep --------------------------------------------

  ghost predicate FileSound(f: File) { f.Some? ==> Sound(f.value) }

  function Count(f: File): nat { if f.Some? then |f.value| else 0 }

  predicate Holding(f: File, aid: string) { f.Some? && Find(f.value, aid).Some? }

  function HandleOf(f: File, aid: string): Option<string>
    requires Holding(f, aid)
  {
    f.value[Find(f.value, aid).value].handle
  }

  lemma CommitKeeps(max: nat, f: File, m: Mutation)
    requires FileSound(f)
    ensures FileSound(Committed(max, f, m))
    ensures Count(Committed(max, f, m)) > Count(f) ==> Count(Committed(max, f, m)) <= max
  {
    if Outcome(max, f, m).Ok? {
      MutationsKeepSound(max, if f.None? then [] else f.value, m);
    }
  }

  lemma CommitIntroducesByRegister(max: nat, f: File, m: Mutation, aid: string)
    requires !Holding(f, aid) && Holding(Committed(max, f, m), aid)
    ensures m.Register? && Norm(m.email) == aid
  {
    OnlyRegisterIntroduces(max, if f.None? then [] else f.value, m, aid);
  }

  lemma CommitKeepsHandle(max: nat, f: File, m: Mutation, aid: string)
    requires FileSound(f) && Holding(f, aid) && Given(HandleOf(f, aid))
    requires Holding(Committed(max, f, m), aid)
    ensures HandleOf(Committed(max, f, m), aid) == HandleOf(f, aid)
  {
    if Outcome(max, f, m).Ok? {
      var data' := Apply(max, f.value, m).value;
      var i := Find(f.value, aid).value;
      MutationsKeepSound(max, f.value, m);
      if m.Delete? {
        var j := Find(data', aid).value;
        assert data'[j] in f.value;
        var k :| 0 <= k < |f.value| && f.value[k] == data'[j];
        assert k == i;
      } else {
        assert Norm(data'[i].id) == aid;
        assert Find(data', aid) == Some(i);
      }
    }
  }

  // Every version in a serial history is sound, and no version outgrows the ceiling or the start.
  lemma {:induction false} HistoryIsSound(max: nat, start: File, ms: seq<Mutation>)
    requires FileSound(start)
    ensures FileSound(Replay(max, start, ms))
    ensures Count(Replay(max, start, ms)) <= max || Count(Replay(max, start, ms)) <= Count(start)
  {
    if ms != [] {
      HistoryIsSound(max, start, ms[..|ms| - 1]);
      CommitKeeps(max, Replay(max, start, ms[..|ms| - 1]), ms[|ms| - 1]);
    }
  }

  // An id that was deleted, or never there, comes back only through a later register_account.
  lemma ReappearsOnlyByRegister(max: nat, start: File, ms: seq<Mutation>, i: nat, aid: string) returns (k: nat)
    requires i <= |ms|
    requires !Holding(Replay(max, start, ms[..i]), aid) && Holding(Replay(max, start, ms), aid)
    ensures i <= k < |ms| && ms[k].Register? && Norm(ms[k].email) == aid
  {
    var held := HeldOver(max, start, ms, i, aid);
    k := Rises(held, i, |ms|);
  }

  // Whether the account is in the manifest, version by version.
  lemma HeldOver(max: nat, start: File, ms: seq<Mutation>, i: nat, aid: string) returns (held: seq<bool>)
    requires i <= |ms|
    ensures |held| == |ms| + 1
    ensures held[i] == Holding(Replay(max, start, ms[..i]), aid) && held[|ms|] == Holding(Replay(max, start, ms), aid)
    ensures forall n :: 0 <= n < |ms| && !held[n] && held[n + 1] ==> ms[n].Register? && Norm(ms[n].email) == aid
  {
    held := seq(|ms| + 1, n requires 0 <= n <= |ms| => Holding(Replay(max, start, ms[..n]), aid));
    assert ms[..|ms|] == ms;
    forall n | 0 <= n < |ms| && !held[n] && held[n + 1]
      ensures ms[n].Register? && Norm(ms[n].email) == aid
    {
      IntroducedAt(max, start, ms, n, aid);
    }
  }

  lemma IntroducedAt(max: nat, start: File, ms: seq<Mutation>, k: nat, aid: string)
    requires k < |ms|
    requires !Holding(Replay(max, start, ms[..k]), aid) && Holding(Replay(max, start, ms[..k + 1]), aid)
    ensures ms[k].Register? && Norm(ms[k].email) == aid
  {
    assert ms[..k + 1][..k] == ms[..k];
    CommitIntroducesByRegister(max, Replay(max, start, ms[..k]), ms[k], aid);
  }

  // What is false early and true later becomes true at some step between.
  lemma {:induction false} Rises(held: seq<bool>, i: nat, j: nat) returns (k: nat)
    requires i <= j < |held| && !held[i] && held[j]
    ensures i <= k < j && !held[k] && held[k + 1]
    decreases j
  {
    if held[j - 1] {
      k := Rises(held, i, j - 1);
    } else {
      k := j - 1;
    }
  }

  ghost predicate StaysFrom(max: nat, start: File, ms: seq<Mutation>, i: nat, aid: string) {
    forall j :: i <= j <= |ms| ==> Holding(Replay(max, start, ms[..j]), aid)
  }

  lemma StaysEarlier(max: nat, start: File, ms: seq<Mutation>, i: nat, aid: string)
    requires i < |ms| && StaysFrom(max, start, ms, i, aid)
    ensures StaysFrom(max, start, ms[..|ms| - 1], i, aid)
    ensures Holding(Replay(max, start, ms), aid) && Holding(Replay(max, start, ms[..|ms| - 1]), aid)
  {
    assert ms[..|ms|] == ms;
    var earlier := ms[..|ms| - 1];
    forall j | i <= j <= |earlier|
      ensures Holding(Replay(max, start, earlier[..j]), aid)
    {
      assert earlier[..j] == ms[..j];
    }
  }

  predicate HandleIs(f: File, aid: string, h: string) {
    Holding(f, aid) && HandleOf(f, aid) == Some(h)
  }

  // While an account stays in the manifest its handle does not change, re-consents included.
  lemma {:induction false} HandleIsFixed(max: nat, start: File, ms: seq<Mutation>, i: nat, aid: string, h: string)
    requires FileSound(start) && i <= |ms| && h != ""
    requires StaysFrom(max, start, ms, i, aid) && HandleIs(Replay(max, start, ms[..i]), aid, h)
    ensures HandleIs(Replay(max, start, ms), aid, h)
    decreases |ms|
  {
    if i == |ms| {
      assert ms[..i] == ms;
    } else {
      var earlier := ms[..|ms| - 1];
      StaysEarlier(max, start, ms, i, aid);
      assert earlier[..i] == ms[..i];
      HandleIsFixed(max, start, earlier, i, aid, h);
      HistoryIsSound(max, start, earlier);
      CommitKeepsHandle(max, Replay(max, start, earlier), ms[|ms| - 1], aid);
    }
  }
}
