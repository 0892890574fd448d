/** cosigner/policy.py as a machine of atomic steps. `authorize` holds policy._LOCK from Begin
    to the row it writes, but each audit call takes audit._LOCK on its own, so the clock, a
    prune, a second connection's BACKFILL or a restart can land between any two of its reads.
    `hist` is the log no prune has touched; nothing the machine decides reads it. */
module Limiter {
  import opened Common
  import opened Audit

  const WINDOW_SECONDS: real := 3600.0
  const DISTINCT_WINDOW_SECONDS: real := 900.0

  // How far back a decision looks, at most.
  function LongestWindow(): real {
    if WINDOW_SECONDS >= DISTINCT_WINDOW_SECONDS then WINDOW_SECONDS else DISTINCT_WINDOW_SECONDS
  }

  // What the sweep ceiling counts together: an answer to either lets the enclave open the account.
  function KeyReleasing(): set<Action> { {UnwrapAndSign, Unwrap} }

  // The five ceilings, fixed for the life of the box.
  datatype Limits = Limits(perUser: nat, total: nat, sign: nat, rewrap: nat, distinct: nat)

  datatype Request = Request(uid: string, action: Action, disabled: bool, attested: bool, precheck: Option<string>) {
    // Kill switch, then attestation, then the request's own shape.
    function Gate(): Option<Refusal> {
      if disabled then Some(Disabled)
      else if !attested then Some(Unattested)
      else if precheck.Some? then Some(BadRequest(precheck.value))
      else None
    }
  }

  // How far the decision holding policy._LOCK has got.
  datatype Phase =
    | Entered
    | Windowed(since: real)
    | UserCounted(since: real)
    | SweepSampled(since: real, sweepSince: real)
    | NewAccount(since: real, sweepSince: real)
    | SweepPassed(since: real)
    | Decided(refusal: Option<Refusal>)
    | Stamped(refusal: Option<Refusal>, at: real)

  datatype Job = Idle | Busy(req: Request, began: real, phase: Phase)

  datatype World = World(now: real, log: Table, nextId: nat, grants: Grants, job: Job, ghost hist: Table)

  datatype Event =
    | Begin(req: Request)
    | Advance
    | Tick(to: real)
    | Prune(asOf: real)   // the cutoff is computed from a clock read some time before the delete
    | Connect             // another process opens the database
    | Restart             // the decision in flight dies with the process; the tables survive

  ghost predicate Enabled(w: World, e: Event) {
    match e
    case Begin(_) => w.job.Idle?
    case Advance => w.job.Busy?
    case Tick(to) => w.now <= to
    case Prune(asOf) => asOf <= w.now
    case Connect => true
    case Restart => true
  }

  function RowFor(req: Request, refusal: Option<Refusal>, at: real): Row {
    Row(at, req.uid, req.action, if refusal.Some? then Deny else Allow, refusal)
  }

  function NextPhase(lim: Limits, w: World, req: Request, phase: Phase): Phase
    requires !phase.Stamped?
  {
    match phase
    case Entered =>
      if req.Gate().Some? then Decided(req.Gate())
      else if req.action.Wrap? then
        // _wrap_once_refusal; _rate_refusal then returns before reading the clock
        Decided(if (req.uid, Wrap) in w.grants then Some(AlreadyWrapped) else None)
      else Windowed(w.now - WINDOW_SECONDS)
    case Windowed(since) =>
      var n := |GrantIds(w.log, {req.action}, None, since)|;
      if req.action.SignDpop? then
        Decided(if n >= lim.sign then Some(SignCeiling(n)) else None)
      else if req.action.Rewrap? then
        Decided(if n >= lim.rewrap then Some(RewrapCeiling(n)) else None)
      else
        var used := |GrantIds(w.log, {req.action}, Some(req.uid), since)|;
        if used >= lim.perUser then Decided(Some(PerUserCeiling(used))) else UserCounted(since)
    case UserCounted(since) => SweepSampled(since, w.now - DISTINCT_WINDOW_SECONDS)
    case SweepSampled(since, sweepSince) =>
      if |GrantIds(w.log, KeyReleasing(), Some(req.uid), sweepSince)| > 0 then SweepPassed(since)
      else NewAccount(since, sweepSince)
    case NewAccount(since, sweepSince) =>
      var seen := |GrantedUids(w.log, KeyReleasing(), sweepSince)|;
      if seen >= lim.distinct then Decided(Some(SweepCeiling(seen))) else SweepPassed(since)
    case SweepPassed(since) =>
      var total := |GrantIds(w.log, {req.action}, None, since)|;
      Decided(if total >= lim.total then Some(AggregateCeiling(total)) else None)
    case Decided(refusal) => Stamped(refusal, w.now)
  }

  ghost function Inserted(w: World, row: Row): World {
    var k := (row.uid, row.action);
    w.(log := w.log[w.nextId := row],
       hist := w.hist[w.nextId := row],
       nextId := w.nextId + 1,
       grants := if row.decision.Allow? && k !in w.grants then w.grants[k := row.ts] else w.grants,
       job := Idle)
  }

  // One atomic step. An event that is not possible here changes nothing, so any list of
  // events at all is a run.
  ghost function Step(lim: Limits, w: World, e: Event): World {
    if !Enabled(w, e) then w
    else match e
    case Begin(req) => w.(job := Busy(req, w.now, Entered))
    case Advance =>
      if w.job.phase.Stamped?
      then Inserted(w, RowFor(w.job.req, w.job.phase.refusal, w.job.phase.at))
      else w.(job := w.job.(phase := NextPhase(lim, w, w.job.req, w.job.phase)))
    case Tick(to) => w.(now := to)
    case Prune(asOf) => w.(log := Pruned(w.log, asOf))
    case Connect => w.(grants := Backfilled(w.log, w.grants))
    case Restart => w.(grants := Backfilled(w.log, w.grants), job := Idle)
  }

  ghost function Run(lim: Limits, w: World, es: seq<Event>): World
    decreases |es|
  {
    if es == [] then w else Run(lim, Step(lim, w, es[0]), es[1..])
  }

  lemma {:induction false} RunConcat(lim: Limits, w: World, a: seq<Event>, b: seq<Event>)
    ensures Run(lim, w, a + b) == Run(lim, Run(lim, w, a), b)
    decreases |a|
  {
    if a == [] {
      assert a + b == b;
    } else {
      assert (a + b)[1..] == a[1..] + b;
      RunConcat(lim, Step(lim, w, a[0]), a[1..], b);
    }
  }
}
