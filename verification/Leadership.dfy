/** The application lifespan as a protocol: any number of processes contend for
    one database lock; the holder starts an ordered list of workers and stops
    them in order on shutdown; any process may fail or die at any point. The
    database frees the lock only once the holder's session is gone. */
module Leadership {
  import opened Common

  type Worker = string

  /** The start calls and the stop calls, in program order. */
  datatype Config = Config(starts: seq<Worker>, stops: seq<Worker>)

  datatype Phase =
    | Down                      // not running
    | Booting                   // session opened, lock not yet asked for
    | Starting(started: nat)
    | Serving                   // after the yield's left-hand side
    | Stopping(stopped: nat)
    | Closing                   // workers done, session not yet closed
    | Failed                    // an exception left lifespan; the process still lives

  datatype Process = Process(phase: Phase, leader: bool, session: Option<nat>, running: set<Worker>)

  const OFF: Process := Process(Down, false, None, {})

  /** What one process can do next. A call that raises may or may not have had
      its effect. */
  datatype Event =
    | Boot(session: nat)
    | Granted | Refused | AskRaises(took: bool)
    | Start | StartRaises(alive: bool)
    | Serve
    | Signal
    | Stop | StopRaises(alive: bool)
    | Stopped | CleanupRaises
    | Release
    | Crash

  /** One step of one process; none if it cannot take it. */
  function Next(cfg: Config, p: Process, e: Event): Option<Process> {
    match e
    case Boot(s) => if p.phase.Down? then Some(Process(Booting, false, Some(s), {})) else None
    case Granted => if p.phase.Booting? then Some(p.(phase := Starting(0), leader := true)) else None
    case Refused => if p.phase.Booting? then Some(p.(phase := Serving)) else None
    case AskRaises(_) => if p.phase.Booting? then Some(p.(phase := Serving, session := None)) else None
    case Start =>
      if p.phase.Starting? && p.phase.started < |cfg.starts|
      then Some(p.(phase := Starting(p.phase.started + 1), running := p.running + {cfg.starts[p.phase.started]})) else None
    case StartRaises(alive) =>
      if p.phase.Starting? && p.phase.started < |cfg.starts|
      then Some(p.(phase := Failed, running := p.running + if alive then {cfg.starts[p.phase.started]} else {})) else None
    case Serve => if p.phase == Starting(|cfg.starts|) then Some(p.(phase := Serving)) else None
    case Signal => if p.phase.Serving? then Some(p.(phase := if p.leader then Stopping(0) else Closing)) else None
    case Stop =>
      if p.phase.Stopping? && p.phase.stopped < |cfg.stops|
      then Some(p.(phase := Stopping(p.phase.stopped + 1), running := p.running - {cfg.stops[p.phase.stopped]})) else None
    case StopRaises(alive) =>
      if p.phase.Stopping? && p.phase.stopped < |cfg.stops|
      then Some(p.(phase := Failed, running := p.running - if alive then {} else {cfg.stops[p.phase.stopped]})) else None
    case Stopped => if p.phase == Stopping(|cfg.stops|) then Some(p.(phase := Closing)) else None
    case CleanupRaises => if p.phase.Closing? then Some(p.(phase := Failed)) else None
    case Release => if p.phase.Closing? then Some(Process(Down, false, None, p.running)) else None
    case Crash => if p.phase.Down? then None else Some(OFF)
  }

  // ------------------------------------------------------------------- world

  datatype World = World(procs: map<int, Process>, lock: Option<nat>, nextSession: nat)

  datatype Step = At(pid: int, event: Event) | Reap

  /** The database's answer to pg_try_advisory_lock, and a fresh session id. */
  predicate Allowed(w: World, e: Event) {
    match e
    case Boot(s) => s == w.nextSession
    case Granted => w.lock.None?
    case Refused => w.lock.Some?
    case AskRaises(took) => took ==> w.lock.None?
    case _ => true
  }

  function LockAfter(w: World, p: Process, e: Event): Option<nat> {
    if e.Granted? || (e.AskRaises? && e.took) then p.session else w.lock
  }

  predicate Orphaned(w: World) {
    w.lock.Some? && forall pid :: pid in w.procs ==> w.procs[pid].session != w.lock
  }

  function Move(cfg: Config, w: World, step: Step): Option<World> {
    match step
    case Reap => if Orphaned(w) then Some(w.(lock := None)) else None
    case At(pid, e) =>
      if pid !in w.procs || !Allowed(w, e) then None
      else
        var next := Next(cfg, w.procs[pid], e);
        if next.None? then None
        else Some(World(w.procs[pid := next.value], LockAfter(w, w.procs[pid], e),
                        if e.Boot? then w.nextSession + 1 else w.nextSession))
  }

  function Run(cfg: Config, w: World, steps: seq<Step>): Option<World> {
    if steps == [] then Some(w)
    else
      var mid := Run(cfg, w, Front(steps));
      if mid.None? then None else Move(cfg, mid.value, Last(steps))
  }

  /** Nothing has booted; the lock may still be held by a forgotten session. */
  predicate Initial(w: World) {
    && (forall pid :: pid in w.procs ==> w.procs[pid] == OFF)
    && (w.lock.Some? ==> w.lock.value < w.nextSession)
  }

  // --------------------------------------------------------------- invariant

  function Names(list: seq<Worker>): set<Worker> { set x | x in list }

  /** The workers that run in each phase of a leader. */
  predicate RunsRight(cfg: Config, p: Process) {
    match p.phase
    case Starting(k) => p.leader && k <= |cfg.starts| && p.running == Names(cfg.starts[..k])
    case Serving => p.running == if p.leader then Names(cfg.starts) else {}
    case Stopping(j) => p.leader && j <= |cfg.stops| && p.running == Names(cfg.starts) - Names(cfg.stops[..j])
    case Closing => p.running == if p.leader then Names(cfg.starts) - Names(cfg.stops) else {}
    case Failed => if p.leader then Partway(cfg, p.running) else p.running == {}
    case Booting => p.running == {} && !p.leader && p.session.Some?
    case Down => !p.leader && p.session.None? && (Names(cfg.starts) <= Names(cfg.stops) ==> p.running == {})
  }

  predicate Partway(cfg: Config, running: set<Worker>) {
    || (exists k :: 0 <= k <= |cfg.starts| && running == Names(cfg.starts[..k]))
    || (exists j :: 0 <= j <= |cfg.stops| && running == Names(cfg.starts) - Names(cfg.stops[..j]))
  }

  predicate AllRunRight(cfg: Config, w: World) { forall pid :: pid in w.procs ==> RunsRight(cfg, w.procs[pid]) }

  /** The lock's session belongs to the leader, if to any living process. */
  predicate LeadersHold(w: World) {
    forall pid :: pid in w.procs ==>
      (w.procs[pid].leader <==> w.lock.Some? && w.procs[pid].session == w.lock)
  }

  predicate SessionsApart(w: World) {
    && (forall pid :: pid in w.procs && w.procs[pid].session.Some? ==> w.procs[pid].session.value < w.nextSession)
    && (forall p, q :: p in w.procs && q in w.procs && p != q && w.procs[p].session.Some? ==> w.procs[p].session != w.procs[q].session)
    && (w.lock.Some? ==> w.lock.value < w.nextSession)
  }

  predicate Inv(cfg: Config, w: World) { AllRunRight(cfg, w) && LeadersHold(w) && SessionsApart(w) }

  lemma NamesSnoc(list: seq<Worker>, k: nat)
    requires k < |list|
    ensures Names(list[..k + 1]) == Names(list[..k]) + {list[k]}
  {
    assert list[..k + 1] == list[..k] + [list[k]];
  }

  lemma NextRunsRight(cfg: Config, p: Process, e: Event)
    requires RunsRight(cfg, p) && Next(cfg, p, e).Some?
    ensures RunsRight(cfg, Next(cfg, p, e).value)
  {
    var p' := Next(cfg, p, e).value;
    match e
    case Start => NamesSnoc(cfg.starts, p.phase.started);
    case StartRaises(alive) =>
      NamesSnoc(cfg.starts, p.phase.started);
      assert p'.running == Names(cfg.starts[..if alive then p.phase.started + 1 else p.phase.started]);
    case Serve => assert cfg.starts[..|cfg.starts|] == cfg.starts;
    case Signal => assert cfg.stops[..0] == [];
    case Stop => NamesSnoc(cfg.stops, p.phase.stopped);
    case StopRaises(alive) =>
      NamesSnoc(cfg.stops, p.phase.stopped);
      assert p'.running == Names(cfg.starts) - Names(cfg.stops[..if alive then p.phase.stopped else p.phase.stopped + 1]);
    case Stopped => assert cfg.stops[..|cfg.stops|] == cfg.stops;
    case CleanupRaises =>
      assert cfg.stops[..|cfg.stops|] == cfg.stops;
      assert p.leader ==> p'.running == Names(cfg.starts) - Names(cfg.stops[..|cfg.stops|]);
    case _ =>
  }

  lemma MoveRunsRight(cfg: Config, w: World, step: Step)
    requires AllRunRight(cfg, w) && Move(cfg, w, step).Some?
    ensures AllRunRight(cfg, Move(cfg, w, step).value)
  {
    hide RunsRight, Next, Allowed, LockAfter;
    if step.At? { NextRunsRight(cfg, w.procs[step.pid], step.event); }
  }

  /** What a step of a process does to its session and its lead. */
  lemma NextSession(cfg: Config, p: Process, e: Event)
    requires RunsRight(cfg, p) && Next(cfg, p, e).Some?
    ensures var p' := Next(cfg, p, e).value;
      && (e.Boot? ==> p'.session == Some(e.session) && !p.leader && !p'.leader)
      && (e.Granted? ==> p.session.Some? && p'.session == p.session && p'.leader && !p.leader)
      && (e.AskRaises? ==> p'.session == None && !p'.leader && !p.leader && p.session.Some?)
      && (!e.Boot? && !e.Granted? && !e.AskRaises? ==> p' == p.(phase := p'.phase, running := p'.running) || (p'.session == None && !p'.leader))
  {
  }

  lemma MoveSessionsApart(cfg: Config, w: World, step: Step)
    requires Inv(cfg, w) && Move(cfg, w, step).Some?
    ensures SessionsApart(Move(cfg, w, step).value)
  {
    hide RunsRight, Next, LeadersHold;
    if step.At? { NextSession(cfg, w.procs[step.pid], step.event); }
  }

  lemma MoveLeadersHold(cfg: Config, w: World, step: Step)
    requires Inv(cfg, w) && Move(cfg, w, step).Some?
    ensures LeadersHold(Move(cfg, w, step).value)
  {
    hide RunsRight, Next;
    if step.At? { NextSession(cfg, w.procs[step.pid], step.event); }
  }

  lemma MoveKeepsInv(cfg: Config, w: World, step: Step)
    requires Inv(cfg, w) && Move(cfg, w, step).Some?
    ensures Inv(cfg, Move(cfg, w, step).value)
  {
    hide AllRunRight, LeadersHold, SessionsApart, Move;
    MoveRunsRight(cfg, w, step);
    MoveSessionsApart(cfg, w, step);
    MoveLeadersHold(cfg, w, step);
  }

  lemma {:induction false} RunKeepsInv(cfg: Config, w: World, steps: seq<Step>)
    requires Initial(w) && Run(cfg, w, steps).Some?
    ensures Inv(cfg, Run(cfg, w, steps).value)
  {
    if steps != [] {
      RunKeepsInv(cfg, w, Front(steps));
      MoveKeepsInv(cfg, Run(cfg, w, Front(steps)).value, Last(steps));
    }
  }

  // ------------------------------------------------------------------ safety

  /** Some worker that this process started runs, whether or not the process
      still holds a session. */
  predicate Active(w: World, pid: int) { pid in w.procs && w.procs[pid].running != {} }

  /** Over every interleaving, when every started worker has a stop call: a
      process with a running worker holds the lock, and no two have one. */
  lemma AtMostOneActive(cfg: Config, w: World, steps: seq<Step>)
    requires Initial(w) && Run(cfg, w, steps).Some? && Names(cfg.starts) <= Names(cfg.stops)
    ensures var end := Run(cfg, w, steps).value;
      && (forall p :: Active(end, p) ==> end.procs[p].session.Some? && end.procs[p].session == end.lock)
      && (forall p, q :: Active(end, p) && Active(end, q) ==> p == q)
  {
    RunKeepsInv(cfg, w, steps);
  }

  /** A world with one process, and one leader's run up to its j-th stop. */
  const SOLO: World := World(map[0 := OFF], None, 0)

  function Times(e: Event, n: nat): seq<Step> { seq(n, _ => At(0, e)) }

  function BootAndLead(): seq<Step> { [At(0, Boot(0)), At(0, Granted)] }

  function LeaderAt(phase: Phase, running: set<Worker>): World {
    World(map[0 := Process(phase, true, Some(0), running)], Some(0), 1)
  }

  lemma RunSnoc(cfg: Config, w: World, steps: seq<Step>, step: Step)
    requires Run(cfg, w, steps).Some?
    ensures Run(cfg, w, steps + [step]) == Move(cfg, Run(cfg, w, steps).value, step)
  {
    FrontOfSnoc(steps, step);
  }

  lemma LeaderMoves(cfg: Config, phase: Phase, running: set<Worker>, e: Event, phase': Phase, running': set<Worker>)
    requires e in {Start, Event.Serve, Signal, Stop, Stopped}
    requires Next(cfg, Process(phase, true, Some(0), running), e) == Some(Process(phase', true, Some(0), running'))
    ensures Move(cfg, LeaderAt(phase, running), At(0, e)) == Some(LeaderAt(phase', running'))
  {
    var procs := LeaderAt(phase, running).procs;
    assert procs[0 := Process(phase', true, Some(0), running')] == LeaderAt(phase', running').procs;
  }

  lemma SoloBoots(cfg: Config)
    ensures Run(cfg, SOLO, BootAndLead()) == Some(LeaderAt(Starting(0), {}))
  {
    RunSnoc(cfg, SOLO, [], At(0, Boot(0)));
    RunSnoc(cfg, SOLO, [At(0, Boot(0))], At(0, Granted));
    assert [] + [At(0, Boot(0))] == [At(0, Boot(0))] && [At(0, Boot(0))] + [At(0, Granted)] == BootAndLead();
    var booted := World(map[0 := Process(Booting, false, Some(0), {})], None, 1);
    assert SOLO.procs[0 := booted.procs[0]] == booted.procs;
    assert booted.procs[0 := LeaderAt(Starting(0), {}).procs[0]] == LeaderAt(Starting(0), {}).procs;
  }

  lemma {:induction false} LeaderStarts(cfg: Config, k: nat)
    requires k <= |cfg.starts|
    ensures Run(cfg, SOLO, BootAndLead() + Times(Start, k)) == Some(LeaderAt(Starting(k), Names(cfg.starts[..k])))
  {
    hide Run, Move;
    if k == 0 {
      SoloBoots(cfg);
      assert BootAndLead() + Times(Start, 0) == BootAndLead() && Names(cfg.starts[..0]) == {};
    } else {
      LeaderStarts(cfg, k - 1);
      RunSnoc(cfg, SOLO, BootAndLead() + Times(Start, k - 1), At(0, Start));
      NamesSnoc(cfg.starts, k - 1);
      LeaderMoves(cfg, Starting(k - 1), Names(cfg.starts[..k - 1]), Start, Starting(k), Names(cfg.starts[..k]));
      assert BootAndLead() + Times(Start, k - 1) + [At(0, Start)] == BootAndLead() + Times(Start, k);
    }
  }

  function LeaderRun(cfg: Config, j: nat): seq<Step> {
    BootAndLead() + Times(Start, |cfg.starts|) + [At(0, Event.Serve)] + [At(0, Signal)] + Times(Stop, j)
  }

  lemma {:induction false} LeaderStops(cfg: Config, j: nat)
    requires j <= |cfg.stops|
    ensures Run(cfg, SOLO, LeaderRun(cfg, j)) == Some(LeaderAt(Stopping(j), Names(cfg.starts) - Names(cfg.stops[..j])))
  {
    hide Run, Move;
    var all := Names(cfg.starts);
    if j == 0 {
      var n := |cfg.starts|;
      LeaderStarts(cfg, n);
      assert cfg.starts[..n] == cfg.starts;
      var booted := BootAndLead() + Times(Start, n);
      RunSnoc(cfg, SOLO, booted, At(0, Event.Serve));
      LeaderMoves(cfg, Starting(n), all, Event.Serve, Phase.Serving, all);
      RunSnoc(cfg, SOLO, booted + [At(0, Event.Serve)], At(0, Signal));
      LeaderMoves(cfg, Phase.Serving, all, Signal, Stopping(0), all);
      assert LeaderRun(cfg, 0) == booted + [At(0, Event.Serve)] + [At(0, Signal)];
      assert all - Names(cfg.stops[..0]) == all;
    } else {
      LeaderStops(cfg, j - 1);
      RunSnoc(cfg, SOLO, LeaderRun(cfg, j - 1), At(0, Stop));
      NamesSnoc(cfg.stops, j - 1);
      assert all - Names(cfg.stops[..j]) == (all - Names(cfg.stops[..j - 1])) - {cfg.stops[j - 1]};
      LeaderMoves(cfg, Stopping(j - 1), all - Names(cfg.stops[..j - 1]), Stop, Stopping(j), all - Names(cfg.stops[..j]));
      assert LeaderRun(cfg, j - 1) + [At(0, Stop)] == LeaderRun(cfg, j);
    }
  }

  /** In every run, a process closes its session only when nothing it started
      still runs. */
  ghost predicate ReleasesIdle(cfg: Config) {
    forall w, steps, pid ::
      Initial(w) && Run(cfg, w, steps).Some? && Move(cfg, Run(cfg, w, steps).value, At(pid, Release)).Some? ==>
        Run(cfg, w, steps).value.procs[pid].running == {}
  }

  /** That holds exactly when every started worker has a stop call. */
  lemma ReleasesIdleIff(cfg: Config)
    ensures ReleasesIdle(cfg) <==> Names(cfg.starts) <= Names(cfg.stops)
  {
    if Names(cfg.starts) <= Names(cfg.stops) {
      forall w, steps, pid | Initial(w) && Run(cfg, w, steps).Some? && Move(cfg, Run(cfg, w, steps).value, At(pid, Release)).Some?
        ensures Run(cfg, w, steps).value.procs[pid].running == {}
      {
        RunKeepsInv(cfg, w, steps);
      }
    }
    if ReleasesIdle(cfg) {
      var m := |cfg.stops|;
      LeaderStops(cfg, m);
      assert cfg.stops[..m] == cfg.stops;
      var steps := LeaderRun(cfg, m) + [At(0, Stopped)];
      RunSnoc(cfg, SOLO, LeaderRun(cfg, m), At(0, Stopped));
      assert Initial(SOLO) && Move(cfg, Run(cfg, SOLO, steps).value, At(0, Release)).Some?;
      var left := Names(cfg.starts) - Names(cfg.stops);
      assert Run(cfg, SOLO, steps).value.procs[0].running == left;
      assert left == {};
      assert forall x :: x in Names(cfg.starts) && x !in Names(cfg.stops) ==> x in left;
    }
  }

  /** In every run at most one process has a worker running. */
  ghost predicate Exclusive(cfg: Config) {
    forall w, steps, p, q ::
      Initial(w) && Run(cfg, w, steps).Some? && Active(Run(cfg, w, steps).value, p) && Active(Run(cfg, w, steps).value, q) ==> p == q
  }

  /** A second process that never moves changes nothing for the first. */
  function WithIdle(w: World): World { w.(procs := w.procs[1 := OFF]) }

  predicate OfFirst(steps: seq<Step>) { forall s :: s in steps ==> s.At? && s.pid == 0 && s.event != Boot(1) }

  lemma {:induction false} RunWithIdle(cfg: Config, steps: seq<Step>)
    requires OfFirst(steps) && Run(cfg, SOLO, steps).Some?
    ensures Run(cfg, WithIdle(SOLO), steps) == Some(WithIdle(Run(cfg, SOLO, steps).value))
    ensures Run(cfg, SOLO, steps).value.procs.Keys == {0}
  {
    hide Next;
    if steps != [] {
      assert forall s :: s in Front(steps) ==> s in steps;
      assert Last(steps) in steps;
      RunWithIdle(cfg, Front(steps));
      var w := Run(cfg, SOLO, Front(steps)).value;
      var next := Next(cfg, w.procs[0], Last(steps).event).value;
      assert w.procs[1 := OFF][0 := next] == w.procs[0 := next][1 := OFF];
    }
  }

  function Pair(first: Process, second: Process, lock: Option<nat>, next: nat): World {
    World(map[0 := first, 1 := second], lock, next)
  }

  /** A step of the first process that does not concern the lock. */
  lemma FirstMoves(cfg: Config, a: Process, b: Process, lock: Option<nat>, next: nat, e: Event, a': Process)
    requires e in {Stopped, Release} && Next(cfg, a, e) == Some(a')
    ensures Move(cfg, Pair(a, b, lock, next), At(0, e)) == Some(Pair(a', b, lock, next))
  {
    assert Pair(a, b, lock, next).procs[0 := a'] == Pair(a', b, lock, next).procs;
  }

  /** The first process, its stop calls done, beside the idle second. */
  lemma AllStopped(cfg: Config)
    ensures Run(cfg, WithIdle(SOLO), LeaderRun(cfg, |cfg.stops|))
      == Some(Pair(Process(Stopping(|cfg.stops|), true, Some(0), Names(cfg.starts) - Names(cfg.stops)), OFF, Some(0), 1))
  {
    hide Run, Move;
    var m := |cfg.stops|;
    LeaderStops(cfg, m);
    assert cfg.stops[..m] == cfg.stops;
    RunWithIdle(cfg, LeaderRun(cfg, m));
  }

  /** Its last two steps, and the lock freed. */
  lemma FirstEnds(cfg: Config, left: set<Worker>)
    ensures var stopping, closing := Process(Stopping(|cfg.stops|), true, Some(0), left), Process(Closing, true, Some(0), left);
      var gone := Process(Down, false, None, left);
      && Move(cfg, Pair(stopping, OFF, Some(0), 1), At(0, Stopped)) == Some(Pair(closing, OFF, Some(0), 1))
      && Move(cfg, Pair(closing, OFF, Some(0), 1), At(0, Release)) == Some(Pair(gone, OFF, Some(0), 1))
      && Move(cfg, Pair(gone, OFF, Some(0), 1), Reap) == Some(Pair(gone, OFF, None, 1))
  {
    var stopping, closing := Process(Stopping(|cfg.stops|), true, Some(0), left), Process(Closing, true, Some(0), left);
    FirstMoves(cfg, stopping, OFF, Some(0), 1, Stopped, closing);
    FirstMoves(cfg, closing, OFF, Some(0), 1, Release, Process(Down, false, None, left));
  }

  /** The second process boots, is granted the free lock and starts a worker. */
  lemma SecondMoves(cfg: Config, a: Process)
    requires cfg.starts != []
    ensures var booting, leading := Process(Booting, false, Some(1), {}), Process(Starting(0), true, Some(1), {});
      && Move(cfg, Pair(a, OFF, None, 1), At(1, Boot(1))) == Some(Pair(a, booting, None, 2))
      && Move(cfg, Pair(a, booting, None, 2), At(1, Granted)) == Some(Pair(a, leading, Some(1), 2))
      && Move(cfg, Pair(a, leading, Some(1), 2), At(1, Start))
         == Some(Pair(a, Process(Starting(1), true, Some(1), {cfg.starts[0]}), Some(1), 2))
  {
    var booting, leading := Process(Booting, false, Some(1), {}), Process(Starting(0), true, Some(1), {});
    var started := Process(Starting(1), true, Some(1), {cfg.starts[0]});
    assert {} + {cfg.starts[0]} == {cfg.starts[0]};
    assert Pair(a, OFF, None, 1).procs[1 := booting] == Pair(a, booting, None, 2).procs;
    assert Pair(a, booting, None, 2).procs[1 := leading] == Pair(a, leading, Some(1), 2).procs;
    assert Pair(a, leading, Some(1), 2).procs[1 := started] == Pair(a, started, Some(1), 2).procs;
  }

  /** The whole shutdown of the first process, then the start of the second. */
  function HandOver(cfg: Config): seq<Step> {
    LeaderRun(cfg, |cfg.stops|) + [At(0, Stopped)] + [At(0, Release)] + [Reap] + [At(1, Boot(1))] + [At(1, Granted)] + [At(1, Start)]
  }

  lemma TwoActive(cfg: Config)
    requires cfg.starts != []
    ensures var left := Names(cfg.starts) - Names(cfg.stops);
      Run(cfg, WithIdle(SOLO), HandOver(cfg))
      == Some(Pair(Process(Down, false, None, left), Process(Starting(1), true, Some(1), {cfg.starts[0]}), Some(1), 2))
  {
    hide Run, Move, Next, LeaderRun, WithIdle, Names;
    var m, left := |cfg.stops|, Names(cfg.starts) - Names(cfg.stops);
    var w, r := WithIdle(SOLO), LeaderRun(cfg, m);
    AllStopped(cfg);
    var closing, gone := Process(Closing, true, Some(0), left), Process(Down, false, None, left);
    var booting, leading := Process(Booting, false, Some(1), {}), Process(Starting(0), true, Some(1), {});
    var stopping := Process(Stopping(m), true, Some(0), left);
    FirstEnds(cfg, left);
    Then(cfg, w, r, At(0, Stopped), Pair(stopping, OFF, Some(0), 1), Pair(closing, OFF, Some(0), 1));
    Then(cfg, w, r + [At(0, Stopped)], At(0, Release), Pair(closing, OFF, Some(0), 1), Pair(gone, OFF, Some(0), 1));
    var r3 := r + [At(0, Stopped)] + [At(0, Release)];
    Then(cfg, w, r3, Reap, Pair(gone, OFF, Some(0), 1), Pair(gone, OFF, None, 1));
    SecondMoves(cfg, gone);
    Then(cfg, w, r3 + [Reap], At(1, Boot(1)), Pair(gone, OFF, None, 1), Pair(gone, booting, None, 2));
    Then(cfg, w, r3 + [Reap] + [At(1, Boot(1))], At(1, Granted), Pair(gone, booting, None, 2), Pair(gone, leading, Some(1), 2));
    Then(cfg, w, r3 + [Reap] + [At(1, Boot(1))] + [At(1, Granted)], At(1, Start), Pair(gone, leading, Some(1), 2),
      Pair(gone, Process(Starting(1), true, Some(1), {cfg.starts[0]}), Some(1), 2));
  }

  lemma Then(cfg: Config, w: World, steps: seq<Step>, step: Step, before: World, after: World)
    requires Run(cfg, w, steps) == Some(before) && Move(cfg, before, step) == Some(after)
    ensures Run(cfg, w, steps + [step]) == Some(after)
  {
    RunSnoc(cfg, w, steps, step);
  }

  /** That holds exactly when every started worker has a stop call: otherwise a
      worker outlives its process's session and the next leader runs beside. */
  lemma ExclusiveIff(cfg: Config)
    ensures Exclusive(cfg) <==> Names(cfg.starts) <= Names(cfg.stops)
  {
    if Names(cfg.starts) <= Names(cfg.stops) {
      forall w, steps, p, q | Initial(w) && Run(cfg, w, steps).Some? && Active(Run(cfg, w, steps).value, p) && Active(Run(cfg, w, steps).value, q)
        ensures p == q
      {
        AtMostOneActive(cfg, w, steps);
      }
    } else {
      var x :| x in Names(cfg.starts) && x !in Names(cfg.stops);
      assert x in Names(cfg.starts) - Names(cfg.stops);
      TwoActive(cfg);
      var end := Run(cfg, WithIdle(SOLO), HandOver(cfg)).value;
      assert Initial(WithIdle(SOLO)) && Active(end, 0) && Active(end, 1);
    }
  }

  // ------------------------------------------------------------------ prefix

  predicate IsPrefix(cfg: Config, running: set<Worker>) {
    exists k :: 0 <= k <= |cfg.starts| && running == Names(cfg.starts[..k])
  }

  /** In every run, every process runs an initial part of the start list. */
  ghost predicate AlwaysPrefix(cfg: Config) {
    forall w, steps, pid :: Initial(w) && Run(cfg, w, steps).Some? && pid in w.procs ==>
      pid in Run(cfg, w, steps).value.procs && IsPrefix(cfg, Run(cfg, w, steps).value.procs[pid].running)
  }

  lemma {:induction false} ReverseLeavesPrefix(cfg: Config, j: nat)
    requires Distinct(cfg.starts) && cfg.stops == Reverse(cfg.starts) && j <= |cfg.stops|
    ensures Names(cfg.starts) - Names(cfg.stops[..j]) == Names(cfg.starts[..|cfg.starts| - j])
  {
    if j == 0 {
      assert cfg.starts[..|cfg.starts|] == cfg.starts && cfg.stops[..0] == [];
    } else {
      ReverseLeavesPrefix(cfg, j - 1);
      NamesSnoc(cfg.stops, j - 1);
      NamesSnoc(cfg.starts, |cfg.starts| - j);
    }
  }

  lemma {:induction false} KeepsProcs(cfg: Config, w: World, steps: seq<Step>)
    requires Run(cfg, w, steps).Some?
    ensures Run(cfg, w, steps).value.procs.Keys == w.procs.Keys
  {
    if steps != [] { KeepsProcs(cfg, w, Front(steps)); }
  }

  lemma ReverseIsPrefix(cfg: Config, p: Process)
    requires Distinct(cfg.starts) && cfg.stops == Reverse(cfg.starts) && RunsRight(cfg, p)
    ensures IsPrefix(cfg, p.running)
  {
    var n := |cfg.starts|;
    assert cfg.starts[..0] == [] && cfg.starts[..n] == cfg.starts && cfg.stops[..n] == cfg.stops;
    assert forall k :: 0 <= k < n ==> cfg.starts[k] == cfg.stops[n - 1 - k];
    forall j | 0 <= j <= n ensures IsPrefix(cfg, Names(cfg.starts) - Names(cfg.stops[..j])) {
      ReverseLeavesPrefix(cfg, j);
    }
    assert IsPrefix(cfg, {}) && IsPrefix(cfg, Names(cfg.starts));
    assert Names(cfg.starts) - Names(cfg.stops[..n]) == {};
  }

  lemma PrefixAtStop(cfg: Config, j: nat)
    requires AlwaysPrefix(cfg) && j <= |cfg.stops|
    ensures IsPrefix(cfg, Names(cfg.starts) - Names(cfg.stops[..j]))
  {
    LeaderStops(cfg, j);
    assert Initial(SOLO) && 0 in SOLO.procs;
  }

  lemma {:induction false} PrefixForcesReverse(cfg: Config, j: nat)
    requires AlwaysPrefix(cfg) && Distinct(cfg.starts) && Distinct(cfg.stops)
    requires |cfg.stops| == |cfg.starts| && Names(cfg.stops) == Names(cfg.starts) && j <= |cfg.stops|
    ensures forall i :: 0 <= i < j ==> cfg.stops[i] == cfg.starts[|cfg.starts| - 1 - i]
    ensures Names(cfg.starts) - Names(cfg.stops[..j]) == Names(cfg.starts[..|cfg.starts| - j])
  {
    hide Run, AlwaysPrefix, Names, Distinct, IsPrefix;
    var n := |cfg.starts|;
    if j == 0 {
      assert cfg.starts[..n] == cfg.starts && cfg.stops[..0] == [];
      NoNames(cfg.starts);
    } else {
      PrefixForcesReverse(cfg, j - 1);
      PrefixAtStop(cfg, j);
      PrefixStep(cfg, j);
    }
  }

  lemma NoNames(list: seq<Worker>)
    ensures Names(list) - Names([]) == Names(list)
  {
  }

  lemma PrefixStep(cfg: Config, j: nat)
    requires Distinct(cfg.starts) && Distinct(cfg.stops) && 0 < j <= |cfg.stops| == |cfg.starts| && Names(cfg.stops) == Names(cfg.starts)
    requires Names(cfg.starts) - Names(cfg.stops[..j - 1]) == Names(cfg.starts[..|cfg.starts| - j + 1])
    requires IsPrefix(cfg, Names(cfg.starts) - Names(cfg.stops[..j]))
    ensures cfg.stops[j - 1] == cfg.starts[|cfg.starts| - j]
    ensures Names(cfg.starts) - Names(cfg.stops[..j]) == Names(cfg.starts[..|cfg.starts| - j])
  {
    var n, x := |cfg.starts|, cfg.stops[j - 1];
    NamesSnoc(cfg.stops, j - 1);
    assert x in Names(cfg.stops) && x !in cfg.stops[..j - 1];
    assert x in Names(cfg.starts[..n - j + 1]);
    LastOfPrefix(cfg.starts, n - j, Names(cfg.starts) - Names(cfg.stops[..j]), x);
  }

  /** Taking one name out of a prefix leaves a prefix only if it was the last. */
  lemma LastOfPrefix(list: seq<Worker>, i: nat, left: set<Worker>, x: Worker)
    requires Distinct(list) && i < |list| && x in list[..i + 1]
    requires left == Names(list[..i + 1]) - {x}
    requires exists k :: 0 <= k <= |list| && left == Names(list[..k])
    ensures x == list[i] && left == Names(list[..i])
  {
    var k :| 0 <= k <= |list| && left == Names(list[..k]);
    NamesSnoc(list, i);
    forall q | 0 <= q < k ensures list[q] != x { assert list[q] in Names(list[..k]); }
    assert list[i] !in list[..k];
    assert list[i] in list[..i + 1] && list[i] !in left;
    assert list[i] in Names(list[..i + 1]);
    assert list[i] !in list[..i];
  }

  /** For lists that name the same workers once each, the running set is a
      prefix of the start list in every run exactly when the stop list is the
      start list reversed. */
  lemma AlwaysPrefixIff(cfg: Config)
    requires Distinct(cfg.starts) && Distinct(cfg.stops)
    requires |cfg.stops| == |cfg.starts| && Names(cfg.stops) == Names(cfg.starts)
    ensures AlwaysPrefix(cfg) <==> cfg.stops == Reverse(cfg.starts)
  {
    if cfg.stops == Reverse(cfg.starts) {
      forall w, steps, pid | Initial(w) && Run(cfg, w, steps).Some? && pid in w.procs
        ensures pid in Run(cfg, w, steps).value.procs && IsPrefix(cfg, Run(cfg, w, steps).value.procs[pid].running)
      {
        KeepsProcs(cfg, w, steps);
        RunKeepsInv(cfg, w, steps);
        ReverseIsPrefix(cfg, Run(cfg, w, steps).value.procs[pid]);
      }
    }
    if AlwaysPrefix(cfg) {
      PrefixForcesReverse(cfg, |cfg.stops|);
    }
  }

  // ------------------------------------------------------------- no failover

  /** Nobody leads and nobody is about to ask. */
  predicate Leaderless(w: World) {
    forall pid :: pid in w.procs ==> !w.procs[pid].leader && !w.procs[pid].phase.Booting?
  }

  /** A follower never becomes the leader: once nobody leads, and until some
      process boots again, no worker starts anywhere, even if the lock is free;
      and when every worker has a stop call none runs at all. */
  lemma {:induction false} NoFailover(cfg: Config, w: World, steps: seq<Step>)
    requires Inv(cfg, w) && Leaderless(w) && Run(cfg, w, steps).Some?
    requires forall s :: s in steps && s.At? ==> !s.event.Boot?
    ensures Inv(cfg, Run(cfg, w, steps).value) && Leaderless(Run(cfg, w, steps).value)
    ensures forall pid :: Active(Run(cfg, w, steps).value, pid) ==> Active(w, pid)
    ensures Names(cfg.starts) <= Names(cfg.stops) ==> forall pid :: !Active(Run(cfg, w, steps).value, pid)
  {
    hide Inv, Move;
    if steps != [] {
      assert forall s :: s in Front(steps) ==> s in steps;
      NoFailover(cfg, w, Front(steps));
      MoveKeepsInv(cfg, Run(cfg, w, Front(steps)).value, Last(steps));
      assert Last(steps) in steps;
      StaysLeaderless(cfg, Run(cfg, w, Front(steps)).value, Last(steps));
    }
    LeaderlessIdle(cfg, Run(cfg, w, steps).value);
  }

  lemma StaysLeaderless(cfg: Config, w: World, step: Step)
    requires Inv(cfg, w) && Leaderless(w) && Move(cfg, w, step).Some? && (step.At? ==> !step.event.Boot?)
    ensures Leaderless(Move(cfg, w, step).value)
    ensures forall pid :: Active(Move(cfg, w, step).value, pid) ==> Active(w, pid)
  {
    hide LeadersHold, SessionsApart;
    if step.At? { assert RunsRight(cfg, w.procs[step.pid]); }
  }

  lemma LeaderlessIdle(cfg: Config, w: World)
    requires Inv(cfg, w) && Leaderless(w)
    ensures Names(cfg.starts) <= Names(cfg.stops) ==> forall pid :: !Active(w, pid)
  {
    hide LeadersHold, SessionsApart;
  }

  /** Once nobody leads the lock is free, or held by a session that is gone. */
  lemma LeaderlessLock(cfg: Config, w: World)
    requires Inv(cfg, w) && Leaderless(w)
    ensures w.lock.None? || Orphaned(w)
  {
  }

  function Recovery(w: World, pid: int): seq<Step> {
    (if w.lock.Some? then [Reap] else []) + [At(pid, Boot(w.nextSession))] + [At(pid, Granted)]
  }

  /** And a boot is enough: from any such world any process that is down can
      boot, is granted the lock, and leads. */
  lemma BootRecovers(cfg: Config, w: World, pid: int)
    requires Inv(cfg, w) && Leaderless(w) && pid in w.procs && w.procs[pid].phase.Down?
    ensures var end := Run(cfg, w, Recovery(w, pid));
      end.Some? && end.value.procs[pid] == Process(Starting(0), true, Some(w.nextSession), {})
      && end.value.lock == Some(w.nextSession)
  {
    hide Run;
    LeaderlessLock(cfg, w);
    RunNothing(cfg, w);
    var reap := if w.lock.Some? then [Reap] else [];
    var free := w.(lock := None);
    if w.lock.Some? {
      Then(cfg, w, [], Reap, w, free);
      assert [] + [Reap] == reap;
    }
    var p := Process(Booting, false, Some(w.nextSession), {});
    var booted := World(w.procs[pid := p], None, w.nextSession + 1);
    Then(cfg, w, reap, At(pid, Boot(w.nextSession)), free, booted);
    Then(cfg, w, reap + [At(pid, Boot(w.nextSession))], At(pid, Granted), booted,
      World(booted.procs[pid := p.(phase := Starting(0), leader := true)], Some(w.nextSession), w.nextSession + 1));
  }

  lemma RunNothing(cfg: Config, w: World)
    ensures Run(cfg, w, []) == Some(w)
  {
  }

  // -------------------------------------------------------- the worker lists

  const STARTS: seq<Worker> := [
    "scheduled_action_worker", "funnel_scheduler_worker", "scoring_scheduler_worker", "segment_scheduler_worker",
    "inbox_expiry_worker", "webhook_worker", "destination_delivery_worker", "audience_sync_worker",
    "audience_webhook_worker", "scheduled_send_worker", "sending_reputation_worker", "mes_scheduler_worker",
    "journey_materializer_worker", "event_drain_worker", "position_sweep_worker", "reward_sweep_worker",
    "base_compiler_worker", "meta_oauth_cleanup_worker", "contact_verification_worker", "campaign_worker",
    "project_import_worker", "campaign_recipe_worker"]

  const STOPS: seq<Worker> := [
    "campaign_recipe_worker", "project_import_worker", "campaign_worker", "contact_verification_worker",
    "meta_oauth_cleanup_worker", "base_compiler_worker", "reward_sweep_worker", "position_sweep_worker",
    "event_drain_worker", "journey_materializer_worker", "mes_scheduler_worker", "sending_reputation_worker",
    "scheduled_send_worker", "audience_webhook_worker", "audience_sync_worker", "destination_delivery_worker",
    "webhook_worker", "inbox_expiry_worker", "segment_scheduler_worker", "scoring_scheduler_worker",
    "funnel_scheduler_worker", "scheduled_action_worker"]

  const SCHEDULERS: Config := Config(STARTS, STOPS)

  lemma ReverseKeepsNames(list: seq<Worker>)
    requires Distinct(list)
    ensures Distinct(Reverse(list)) && Names(Reverse(list)) == Names(list)
  {
    var r := Reverse(list);
    assert forall k :: 0 <= k < |list| ==> list[k] == r[|list| - 1 - k];
  }

  /** The application's own lists meet all three conditions. */
  lemma SchedulersAreSafe()
    ensures AlwaysPrefix(SCHEDULERS) && ReleasesIdle(SCHEDULERS) && Exclusive(SCHEDULERS)
  {
    StartsAreDistinct();
    StopsAreReversed();
    ReverseKeepsNames(STARTS);
    AlwaysPrefixIff(SCHEDULERS);
    ReleasesIdleIff(SCHEDULERS);
    ExclusiveIff(SCHEDULERS);
  }

  lemma StopsAreReversed()
    ensures STOPS == Reverse(STARTS)
  {
  }

  /** A name's length and first two letters. */
  function Tag(w: Worker): (int, char, char) {
    if |w| < 2 then (0, ' ', ' ') else (|w|, w[0], w[1])
  }

  const TAGS: seq<(int, char, char)> := [
    (23, 's', 'c'), (23, 'f', 'u'), (24, 's', 'c'), (24, 's', 'e'), (19, 'i', 'n'), (14, 'w', 'e'), (27, 'd', 'e'), (20, 'a', 'u'),
    (23, 'a', 'u'), (21, 's', 'c'), (25, 's', 'e'), (20, 'm', 'e'), (27, 'j', 'o'), (18, 'e', 'v'), (21, 'p', 'o'), (19, 'r', 'e'),
    (20, 'b', 'a'), (25, 'm', 'e'), (27, 'c', 'o'), (15, 'c', 'a'), (21, 'p', 'r'), (22, 'c', 'a')]

  lemma TagsMatch()
    ensures |STARTS| == |TAGS| && forall k :: 0 <= k < |STARTS| ==> Tag(STARTS[k]) == TAGS[k]
  {
  }

  /** No two names share their tag. */
  lemma StartsAreDistinct()
    ensures Distinct(STARTS)
  {
    hide Tag, STARTS;
    TagsMatch();
    assert Distinct(TAGS);
  }

  // --------------------------------------------------------------- lifespan

  datatype Answer = Yes | No | Raise(took: bool)

  /** The call that raises, and whether it had its effect. */
  datatype Fault = Fault(at: nat, effect: bool)

  function Play(cfg: Config, p: Process, events: seq<Event>): Option<Process> {
    if events == [] then Some(p)
    else
      var mid := Play(cfg, p, Front(events));
      if mid.None? then None else Next(cfg, mid.value, Last(events))
  }

  lemma {:induction false} PlayAppend(cfg: Config, p: Process, a: seq<Event>, b: seq<Event>)
    requires Play(cfg, p, a).Some?
    ensures Play(cfg, p, a + b) == Play(cfg, Play(cfg, p, a).value, b)
  {
    if b == [] {
      assert a + b == a;
    } else {
      assert Front(a + b) == a + Front(b) && Last(a + b) == Last(b);
      PlayAppend(cfg, p, a, Front(b));
    }
  }

  function Repeat(e: Event, n: nat): seq<Event> { seq(n, _ => e) }

  lemma PlaySnoc(cfg: Config, p: Process, events: seq<Event>, e: Event)
    requires Play(cfg, p, events).Some?
    ensures Play(cfg, p, events + [e]) == Next(cfg, Play(cfg, p, events).value, e)
  {
    FrontOfSnoc(events, e);
  }

  lemma PlayNothing(cfg: Config, p: Process)
    ensures Play(cfg, p, []) == Some(p)
  {
  }

  lemma RepeatSnoc(e: Event, n: nat)
    ensures Repeat(e, n) + [e] == Repeat(e, n + 1)
  {
  }

  lemma RepeatNothing(e: Event)
    ensures Repeat(e, 0) == []
  {
  }

  class Lifespan {
    const cfg: Config
    var phase: Phase
    var leader: bool
    var session: Option<nat>
    var running: set<Worker>

    constructor (cfg: Config)
      ensures this.cfg == cfg && State() == OFF
    {
      this.cfg := cfg;
      phase, leader, session, running := Down, false, None, {};
    }

    function State(): Process
      reads this
    {
      Process(phase, leader, session, running)
    }

    /** Up to the decision whether this process leads. */
    method AskForLock(id: nat, answer: Answer) returns (trace: seq<Event>)
      requires phase.Down?
      modifies this
      ensures trace == [Boot(id), match answer case Yes => Granted case No => Refused case Raise(t) => AskRaises(t)]
      ensures Play(cfg, old(State()), trace) == Some(State())
      ensures phase == (if answer.Yes? then Starting(0) else Serving) && leader == answer.Yes?
      ensures session == (if answer.Raise? then None else Some(id))
    {
      FrontOfSnoc([], Boot(id));
      session, leader, running := Some(id), false, {};
      match answer {
        case Yes =>
          leader, phase := true, Starting(0);
          trace := [Boot(id), Granted];
        case No =>
          phase := Serving;
          trace := [Boot(id), Refused];
        case Raise(took) =>
          session, phase := None, Serving;
          trace := [Boot(id), AskRaises(took)];
      }
      assert trace == [Boot(id)] + [trace[1]];
      FrontOfSnoc([Boot(id)], trace[1]);
      assert [] + [Boot(id)] == [Boot(id)];
      assert Play(cfg, OFF, []) == Some(OFF);
      assert old(State()) == Process(Down, old(leader), old(session), old(running));
      assert Play(cfg, old(State()), [Boot(id)]) == Some(Process(Booting, false, Some(id), {}));
    }

    /** The start calls, up to the one that raises. */
    method StartWorkers(fault: Option<Fault>) returns (trace: seq<Event>)
      requires phase == Starting(0)
      modifies this`phase, this`running
      ensures Play(cfg, old(State()), trace) == Some(State())
      ensures fault.None? || fault.value.at >= |cfg.starts| ==>
        phase == Serving && trace == Repeat(Start, |cfg.starts|) + [Event.Serve]
      ensures fault.Some? && fault.value.at < |cfg.starts| ==>
        phase == Failed && trace == Repeat(Start, fault.value.at) + [StartRaises(fault.value.effect)]
    {
      hide Play, Repeat;
      PlayNothing(cfg, State());
      RepeatNothing(Start);
      trace := [];
      for k := 0 to |cfg.starts|
        invariant phase == Starting(k) && trace == Repeat(Start, k)
        invariant fault.Some? ==> fault.value.at >= k
        invariant Play(cfg, old(State()), trace) == Some(State())
      {
        if fault.Some? && fault.value.at == k {
          PlaySnoc(cfg, old(State()), trace, StartRaises(fault.value.effect));
          trace := trace + [StartRaises(fault.value.effect)];
          running := running + if fault.value.effect then {cfg.starts[k]} else {};
          phase := Failed;
          return;
        }
        PlaySnoc(cfg, old(State()), trace, Start);
        RepeatSnoc(Start, k);
        trace := trace + [Start];
        running, phase := running + {cfg.starts[k]}, Starting(k + 1);
      }
      PlaySnoc(cfg, old(State()), trace, Event.Serve);
      trace := trace + [Event.Serve];
      phase := Serving;
    }

    /** The stop calls, up to the one that raises. */
    method StopWorkers(fault: Option<Fault>) returns (trace: seq<Event>)
      requires phase == Stopping(0)
      modifies this`phase, this`running
      ensures Play(cfg, old(State()), trace) == Some(State())
      ensures fault.None? || fault.value.at >= |cfg.stops| ==>
        phase == Closing && trace == Repeat(Stop, |cfg.stops|) + [Stopped]
      ensures fault.Some? && fault.value.at < |cfg.stops| ==>
        phase == Failed && trace == Repeat(Stop, fault.value.at) + [StopRaises(!fault.value.effect)]
    {
      hide Play, Repeat;
      PlayNothing(cfg, State());
      RepeatNothing(Stop);
      trace := [];
      for j := 0 to |cfg.stops|
        invariant phase == Stopping(j) && trace == Repeat(Stop, j)
        invariant fault.Some? ==> fault.value.at >= j
        invariant Play(cfg, old(State()), trace) == Some(State())
      {
        if fault.Some? && fault.value.at == j {
          PlaySnoc(cfg, old(State()), trace, StopRaises(!fault.value.effect));
          trace := trace + [StopRaises(!fault.value.effect)];
          running := running - if fault.value.effect then {cfg.stops[j]} else {};
          phase := Failed;
          return;
        }
        PlaySnoc(cfg, old(State()), trace, Stop);
        RepeatSnoc(Stop, j);
        trace := trace + [Stop];
        running, phase := running - {cfg.stops[j]}, Stopping(j + 1);
      }
      PlaySnoc(cfg, old(State()), trace, Stopped);
      trace := trace + [Stopped];
      phase := Closing;
    }

    /** Shutdown and release of the lock session. */
    method Shutdown(fault: Option<Fault>, cleanupRaises: bool) returns (trace: seq<Event>)
      requires phase.Serving?
      modifies this
      ensures Play(cfg, old(State()), trace) == Some(State())
      ensures phase == (if cleanupRaises || (old(leader) && fault.Some? && fault.value.at < |cfg.stops|) then Failed else Down)
      ensures phase.Down? ==>
        trace == [Signal] + (if old(leader) then Repeat(Stop, |cfg.stops|) + [Stopped] else []) + [Release]
    {
      FrontOfSnoc([], Signal);
      assert [] + [Signal] == [Signal];
      trace := [Signal];
      ghost var before := State();
      assert Play(cfg, before, []) == Some(before);
      if leader {
        phase := Stopping(0);
        assert Play(cfg, before, trace) == Some(State());
        var stops := StopWorkers(fault);
        PlayAppend(cfg, before, trace, stops);
        trace := trace + stops;
        if fault.Some? && fault.value.at < |cfg.stops| {
          return;
        }
      } else {
        phase := Closing;
      }
      assert Play(cfg, before, trace) == Some(State());
      FrontOfSnoc(trace, CleanupRaises);
      FrontOfSnoc(trace, Release);
      if cleanupRaises {
        trace := trace + [CleanupRaises];
        phase := Failed;
      } else {
        trace := trace + [Release];
        session, leader, phase := None, false, Down;
      }
    }

    /** The whole lifespan of one process, from boot to exit. */
    method Live(id: nat, answer: Answer, startFault: Option<Fault>, stopFault: Option<Fault>, cleanupRaises: bool)
      returns (trace: seq<Event>)
      requires phase.Down?
      modifies this
      ensures Play(cfg, old(State()), trace) == Some(State())
      ensures phase.Down? <==> !cleanupRaises && (answer.Yes? ==> (startFault.Some? ==> startFault.value.at >= |cfg.starts|) && (stopFault.Some? ==> stopFault.value.at >= |cfg.stops|))
      ensures phase.Down? && answer.Yes? ==>
        trace == [Boot(id), Granted] + (Repeat(Start, |cfg.starts|) + [Event.Serve])
               + ([Signal] + (Repeat(Stop, |cfg.stops|) + [Stopped]) + [Release])
    {
      hide Next;
      ghost var before := State();
      trace := AskForLock(id, answer);
      assert Play(cfg, before, trace) == Some(State());
      if leader {
        var starts := StartWorkers(startFault);
        PlayAppend(cfg, before, trace, starts);
        trace := trace + starts;
        assert Play(cfg, before, trace) == Some(State());
        if startFault.Some? && startFault.value.at < |cfg.starts| {
          return;
        }
      }
      var rest := Shutdown(stopFault, cleanupRaises);
      PlayAppend(cfg, before, trace, rest);
      trace := trace + rest;
    }
  }
}
