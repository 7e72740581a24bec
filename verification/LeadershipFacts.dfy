/** Whole lives of one process in any world: when the database lets it lead, what
    it runs at each point, and what the others see of it. */
module LeadershipFacts {
  import opened Common
  import opened Leadership

  // --------------------------------------------------------------- one process

  ghost predicate Played(cfg: Config, p: Process, events: seq<Event>, p': Process) { Play(cfg, p, events) == Some(p') }

  lemma Plays(cfg: Config, p: Process, events: seq<Event>, mid: Process, e: Event, end: Process)
    requires Played(cfg, p, events, mid) && Next(cfg, mid, e) == Some(end)
    ensures Played(cfg, p, events + [e], end)
  {
    PlaySnoc(cfg, p, events, e);
  }

  lemma Booted(cfg: Config, p: Process, s: nat)
    requires p.phase.Down?
    ensures Played(cfg, p, [Boot(s)], Process(Booting, false, Some(s), {}))
  {
    PlayNothing(cfg, p);
    Plays(cfg, p, [], p, Boot(s), Process(Booting, false, Some(s), {}));
    assert [] + [Boot(s)] == [Boot(s)];
  }

  /** The first n of a list. */
  ghost function Firsts(list: seq<Worker>, n: nat): set<Worker>
    requires n <= |list|
  {
    set i | 0 <= i < n :: list[i]
  }

  /** A leader that has made k start calls runs the first k workers. */
  lemma {:induction false} LeaderStarted(cfg: Config, p: Process, s: nat, k: nat)
    requires p.phase.Down? && k <= |cfg.starts|
    ensures Played(cfg, p, [Boot(s), Granted] + seq(k, _ => Start), Process(Starting(k), true, Some(s), Firsts(cfg.starts, k)))
  {
    hide Played;
    if k == 0 {
      Booted(cfg, p, s);
      Plays(cfg, p, [Boot(s)], Process(Booting, false, Some(s), {}), Granted, Process(Starting(0), true, Some(s), {}));
      assert [Boot(s)] + [Granted] == [Boot(s), Granted] + seq(0, _ => Start);
      assert Firsts(cfg.starts, 0) == {};
    } else {
      LeaderStarted(cfg, p, s, k - 1);
      assert Firsts(cfg.starts, k) == Firsts(cfg.starts, k - 1) + {cfg.starts[k - 1]};
      Plays(cfg, p, [Boot(s), Granted] + seq(k - 1, _ => Start),
        Process(Starting(k - 1), true, Some(s), Firsts(cfg.starts, k - 1)), Start,
        Process(Starting(k), true, Some(s), Firsts(cfg.starts, k)));
      assert [Boot(s), Granted] + seq(k - 1, _ => Start) + [Start] == [Boot(s), Granted] + seq(k, _ => Start);
    }
  }

  /** A leader that has made all its start calls, served, and made j stop calls runs
      the workers that none of these stopped. */
  lemma {:induction false} LeaderStopped(cfg: Config, p: Process, s: nat, j: nat)
    requires p.phase.Down? && j <= |cfg.stops|
    ensures Played(cfg, p, LeaderTo(cfg, s, j), Process(Stopping(j), true, Some(s), set x | x in cfg.starts && x !in cfg.stops[..j]))
  {
    hide Played;
    var running := set x | x in cfg.starts && x !in cfg.stops[..j];
    if j == 0 {
      var n := |cfg.starts|;
      var before := [Boot(s), Granted] + seq(n, _ => Start);
      LeaderStarted(cfg, p, s, n);
      assert Firsts(cfg.starts, n) == running;
      Plays(cfg, p, before, Process(Starting(n), true, Some(s), running), Event.Serve, Process(Phase.Serving, true, Some(s), running));
      Plays(cfg, p, before + [Event.Serve], Process(Phase.Serving, true, Some(s), running), Signal, Process(Stopping(0), true, Some(s), running));
      assert before + [Event.Serve] + [Signal] == LeaderTo(cfg, s, 0);
    } else {
      LeaderStopped(cfg, p, s, j - 1);
      var before := set x | x in cfg.starts && x !in cfg.stops[..j - 1];
      assert cfg.stops[..j] == cfg.stops[..j - 1] + [cfg.stops[j - 1]];
      assert running == before - {cfg.stops[j - 1]};
      Plays(cfg, p, LeaderTo(cfg, s, j - 1), Process(Stopping(j - 1), true, Some(s), before), Stop, Process(Stopping(j), true, Some(s), running));
      assert LeaderTo(cfg, s, j - 1) + [Stop] == LeaderTo(cfg, s, j);
    }
  }

  ghost function LeaderTo(cfg: Config, s: nat, j: nat): seq<Event> {
    [Boot(s), Granted] + seq(|cfg.starts|, _ => Start) + [Event.Serve, Signal] + seq(j, _ => Stop)
  }

  /** A leader that has left holds no session; what it runs is what has no stop call. */
  lemma LeaderLeft(cfg: Config, p: Process, s: nat)
    requires p.phase.Down?
    ensures Played(cfg, p, LeaderTo(cfg, s, |cfg.stops|) + [Stopped] + [Release], Process(Down, false, None, set x | x in cfg.starts && x !in cfg.stops))
  {
    hide Played;
    var m, left := |cfg.stops|, set x | x in cfg.starts && x !in cfg.stops;
    LeaderStopped(cfg, p, s, m);
    assert cfg.stops[..m] == cfg.stops;
    Plays(cfg, p, LeaderTo(cfg, s, m), Process(Stopping(m), true, Some(s), left), Stopped, Process(Closing, true, Some(s), left));
    Plays(cfg, p, LeaderTo(cfg, s, m) + [Stopped], Process(Closing, true, Some(s), left), Release, Process(Down, false, None, left));
  }

  /** A process that is refused serves, and leaves, without ever running a worker. */
  lemma FollowerPlays(cfg: Config, p: Process, s: nat)
    requires p.phase.Down?
    ensures Played(cfg, p, [Boot(s), Refused], Process(Phase.Serving, false, Some(s), {}))
    ensures Played(cfg, p, [Boot(s), Refused, Signal], Process(Closing, false, Some(s), {}))
    ensures Played(cfg, p, [Boot(s), Refused, Signal, Release], Process(Down, false, None, {}))
  {
    hide Played;
    Booted(cfg, p, s);
    Plays(cfg, p, [Boot(s)], Process(Booting, false, Some(s), {}), Refused, Process(Phase.Serving, false, Some(s), {}));
    assert [Boot(s)] + [Refused] == [Boot(s), Refused];
    Plays(cfg, p, [Boot(s), Refused], Process(Phase.Serving, false, Some(s), {}), Signal, Process(Closing, false, Some(s), {}));
    assert [Boot(s), Refused] + [Signal] == [Boot(s), Refused, Signal];
    Plays(cfg, p, [Boot(s), Refused, Signal], Process(Closing, false, Some(s), {}), Release, Process(Down, false, None, {}));
    assert [Boot(s), Refused, Signal] + [Release] == [Boot(s), Refused, Signal, Release];
  }

  /** So does one whose question for the lock raised; it has no session by then. */
  lemma UnansweredPlays(cfg: Config, p: Process, s: nat, took: bool)
    requires p.phase.Down?
    ensures Played(cfg, p, [Boot(s), AskRaises(took)], Process(Phase.Serving, false, None, {}))
    ensures Played(cfg, p, [Boot(s), AskRaises(took), Signal, Release], Process(Down, false, None, {}))
  {
    hide Played;
    var serving, closing := Process(Phase.Serving, false, None, {}), Process(Closing, false, None, {});
    Booted(cfg, p, s);
    Plays(cfg, p, [Boot(s)], Process(Booting, false, Some(s), {}), AskRaises(took), serving);
    assert [Boot(s)] + [AskRaises(took)] == [Boot(s), AskRaises(took)];
    Plays(cfg, p, [Boot(s), AskRaises(took)], serving, Signal, closing);
    Plays(cfg, p, [Boot(s), AskRaises(took)] + [Signal], closing, Release, Process(Down, false, None, {}));
    assert [Boot(s), AskRaises(took)] + [Signal] + [Release] == [Boot(s), AskRaises(took), Signal, Release];
  }

  /** A call that raises leaves the process failed, with its session and its workers,
      the call's own one among them if it is alive. */
  lemma FailuresPlay(cfg: Config, p: Process, s: nat, k: nat, alive: bool)
    requires p.phase.Down?
    ensures k < |cfg.starts| ==> Played(cfg, p, [Boot(s), Granted] + seq(k, _ => Start) + [StartRaises(alive)],
      Process(Failed, true, Some(s), Firsts(cfg.starts, if alive then k + 1 else k)))
    ensures k < |cfg.stops| ==> Played(cfg, p, LeaderTo(cfg, s, k) + [StopRaises(alive)],
      Process(Failed, true, Some(s), set x | x in cfg.starts && x !in cfg.stops[..if alive then k else k + 1]))
    ensures Played(cfg, p, LeaderTo(cfg, s, |cfg.stops|) + [Stopped] + [CleanupRaises], Process(Failed, true, Some(s), set x | x in cfg.starts && x !in cfg.stops))
    ensures Played(cfg, p, [Boot(s), Refused, Signal] + [CleanupRaises], Process(Failed, false, Some(s), {}))
  {
    hide Played;
    if k < |cfg.starts| { StartFails(cfg, p, s, k, alive); }
    if k < |cfg.stops| { StopFails(cfg, p, s, k, alive); }
    var m, left := |cfg.stops|, set x | x in cfg.starts && x !in cfg.stops;
    LeaderStopped(cfg, p, s, m);
    assert cfg.stops[..m] == cfg.stops;
    Plays(cfg, p, LeaderTo(cfg, s, m), Process(Stopping(m), true, Some(s), left), Stopped, Process(Closing, true, Some(s), left));
    Plays(cfg, p, LeaderTo(cfg, s, m) + [Stopped], Process(Closing, true, Some(s), left), CleanupRaises, Process(Failed, true, Some(s), left));
    FollowerPlays(cfg, p, s);
    Plays(cfg, p, [Boot(s), Refused, Signal], Process(Closing, false, Some(s), {}), CleanupRaises, Process(Failed, false, Some(s), {}));
  }

  lemma StartFails(cfg: Config, p: Process, s: nat, k: nat, alive: bool)
    requires p.phase.Down? && k < |cfg.starts|
    ensures Played(cfg, p, [Boot(s), Granted] + seq(k, _ => Start) + [StartRaises(alive)],
      Process(Failed, true, Some(s), Firsts(cfg.starts, if alive then k + 1 else k)))
  {
    hide Played;
    LeaderStarted(cfg, p, s, k);
    var before, after := Firsts(cfg.starts, k), Firsts(cfg.starts, if alive then k + 1 else k);
    assert after == before + if alive then {cfg.starts[k]} else {};
    Plays(cfg, p, [Boot(s), Granted] + seq(k, _ => Start), Process(Starting(k), true, Some(s), before), StartRaises(alive),
      Process(Failed, true, Some(s), after));
  }

  lemma StopFails(cfg: Config, p: Process, s: nat, j: nat, alive: bool)
    requires p.phase.Down? && j < |cfg.stops|
    ensures Played(cfg, p, LeaderTo(cfg, s, j) + [StopRaises(alive)],
      Process(Failed, true, Some(s), set x | x in cfg.starts && x !in cfg.stops[..if alive then j else j + 1]))
  {
    hide Played;
    LeaderStopped(cfg, p, s, j);
    var before, after := set x | x in cfg.starts && x !in cfg.stops[..j], set x | x in cfg.starts && x !in cfg.stops[..if alive then j else j + 1];
    assert cfg.stops[..j + 1] == cfg.stops[..j] + [cfg.stops[j]];
    assert after == before - if alive then {} else {cfg.stops[j]};
    Plays(cfg, p, LeaderTo(cfg, s, j), Process(Stopping(j), true, Some(s), before), StopRaises(alive), Process(Failed, true, Some(s), after));
  }

  /** A process that is not down can die at any time, and leaves nothing behind. */
  lemma CrashPlays(cfg: Config, p: Process, events: seq<Event>, mid: Process)
    requires Played(cfg, p, events, mid) && !mid.phase.Down?
    ensures Played(cfg, p, events + [Crash], Process(Down, false, None, {}))
  {
    Plays(cfg, p, events, mid, Crash, Process(Down, false, None, {}));
  }

  // ------------------------------------------------------------- in the world

  ghost function By(pid: int, events: seq<Event>): seq<Step> { seq(|events|, k requires 0 <= k < |events| => At(pid, events[k])) }

  /** What the database can answer: yes only if the lock is free, no only if it is
      held; a question that raises can have taken it only if it was free. */
  ghost predicate Answers(lock: Option<nat>, e: Event) {
    || (e == Granted && lock == None) || (e == Refused && lock != None)
    || e == AskRaises(false) || (e == AskRaises(true) && lock == None)
  }

  ghost predicate AfterAnswer(e: Event) { !e.Boot? && !e.Granted? && !e.Refused? && !e.AskRaises? }

  /** Any life of one process is a run of any world in which it is down, if the
      database can give its answer; the lock is the process's if it was granted or
      taken, and the other processes see no other change. */
  lemma LifeRuns(cfg: Config, w: World, pid: int, answer: Event, rest: seq<Event>, end: Process)
    requires pid in w.procs && Played(cfg, w.procs[pid], [Boot(w.nextSession), answer] + rest, end)
    requires Answers(w.lock, answer) && forall e :: e in rest ==> AfterAnswer(e)
    ensures Run(cfg, w, By(pid, [Boot(w.nextSession), answer] + rest)) == Some(World(w.procs[pid := end],
      if answer == Granted || answer == AskRaises(true) then Some(w.nextSession) else w.lock, w.nextSession + 1))
    decreases |rest|
  {
    hide Run, Move, Next;
    var s := w.nextSession;
    var lock := if answer == Granted || answer == AskRaises(true) then Some(s) else w.lock;
    if rest == [] {
      assert [Boot(s), answer] + [] == [Boot(s), answer];
      LifeBegins(cfg, w, pid, answer, end);
    } else {
      var front, e := Front(rest), Last(rest);
      var events := [Boot(s), answer] + front;
      assert e in rest && forall x :: x in front ==> x in rest;
      assert [Boot(s), answer] + rest == events + [e];
      FrontOfSnoc(events, e);
      var mid := Play(cfg, w.procs[pid], events).value;
      LifeRuns(cfg, w, pid, answer, front, mid);
      LifeMoves(cfg, World(w.procs[pid := mid], lock, s + 1), pid, e, end);
      assert By(pid, events + [e]) == By(pid, events) + [At(pid, e)];
      assert w.procs[pid := mid][pid := end] == w.procs[pid := end];
      Then(cfg, w, By(pid, events), At(pid, e), World(w.procs[pid := mid], lock, s + 1), World(w.procs[pid := end], lock, s + 1));
    }
  }

  lemma PlayedBefore(cfg: Config, p: Process, events: seq<Event>, e: Event)
    requires Play(cfg, p, events + [e]).Some?
    ensures Play(cfg, p, events).Some? && Next(cfg, Play(cfg, p, events).value, e) == Play(cfg, p, events + [e])
  {
    FrontOfSnoc(events, e);
  }

  lemma LifeMoves(cfg: Config, w: World, pid: int, e: Event, end: Process)
    requires pid in w.procs && AfterAnswer(e) && Next(cfg, w.procs[pid], e) == Some(end)
    ensures Move(cfg, w, At(pid, e)) == Some(w.(procs := w.procs[pid := end]))
  {
  }

  lemma LifeBegins(cfg: Config, w: World, pid: int, answer: Event, end: Process)
    requires pid in w.procs && Played(cfg, w.procs[pid], [Boot(w.nextSession), answer], end) && Answers(w.lock, answer)
    ensures Run(cfg, w, By(pid, [Boot(w.nextSession), answer])) == Some(World(w.procs[pid := end],
      if answer == Granted || answer == AskRaises(true) then Some(w.nextSession) else w.lock, w.nextSession + 1))
  {
    hide Run;
    var p, s := w.procs[pid], w.nextSession;
    var mid := Process(Booting, false, Some(s), {});
    assert [Boot(s)] + [answer] == [Boot(s), answer] && [] + [Boot(s)] == [Boot(s)];
    PlayNothing(cfg, p);
    PlayedBefore(cfg, p, [Boot(s)], answer);
    PlayedBefore(cfg, p, [], Boot(s));
    RunNothing(cfg, w);
    var booted := World(w.procs[pid := mid], w.lock, s + 1);
    Then(cfg, w, [], At(pid, Boot(s)), w, booted);
    assert [] + [At(pid, Boot(s))] == [At(pid, Boot(s))];
    assert w.procs[pid := mid][pid := end] == w.procs[pid := end];
    Then(cfg, w, [At(pid, Boot(s))], At(pid, answer), booted, World(w.procs[pid := end],
      if answer == Granted || answer == AskRaises(true) then Some(s) else w.lock, s + 1));
    assert By(pid, [Boot(s), answer]) == [At(pid, Boot(s))] + [At(pid, answer)];
  }

  /** In any world with the lock held a process that is down can boot, be refused,
      and serve without workers; nothing changes for the others or for the lock. */
  lemma RefusedServes(cfg: Config, w: World, pid: int)
    requires pid in w.procs && w.procs[pid].phase.Down? && w.lock.Some?
    ensures Run(cfg, w, [At(pid, Boot(w.nextSession)), At(pid, Refused)])
      == Some(World(w.procs[pid := Process(Phase.Serving, false, Some(w.nextSession), {})], w.lock, w.nextSession + 1))
  {
    var s := w.nextSession;
    FollowerPlays(cfg, w.procs[pid], s);
    assert [Boot(s), Refused] + [] == [Boot(s), Refused];
    LifeRuns(cfg, w, pid, Refused, [], Process(Phase.Serving, false, Some(s), {}));
    assert By(pid, [Boot(s), Refused]) == [At(pid, Boot(s)), At(pid, Refused)];
  }

  /** And in any world with the lock free it can boot, be granted the lock and serve
      with every worker running. */
  lemma GrantedServes(cfg: Config, w: World, pid: int)
    requires pid in w.procs && w.procs[pid].phase.Down? && w.lock.None?
    ensures Run(cfg, w, [At(pid, Boot(w.nextSession)), At(pid, Granted)] + seq(|cfg.starts|, _ => At(pid, Start)) + [At(pid, Event.Serve)])
      == Some(World(w.procs[pid := Process(Phase.Serving, true, Some(w.nextSession), set x | x in cfg.starts)], Some(w.nextSession), w.nextSession + 1))
  {
    hide Run, Played;
    var s, n := w.nextSession, |cfg.starts|;
    var running := set x | x in cfg.starts;
    LeaderStarted(cfg, w.procs[pid], s, n);
    assert Firsts(cfg.starts, n) == running;
    var before, rest := [Boot(s), Granted] + seq(n, _ => Start), seq(n, _ => Start) + [Event.Serve];
    Plays(cfg, w.procs[pid], before, Process(Starting(n), true, Some(s), running), Event.Serve, Process(Phase.Serving, true, Some(s), running));
    assert before + [Event.Serve] == [Boot(s), Granted] + rest;
    LifeRuns(cfg, w, pid, Granted, rest, Process(Phase.Serving, true, Some(s), running));
    assert By(pid, [Boot(s), Granted] + rest) == [At(pid, Boot(s)), At(pid, Granted)] + seq(n, _ => At(pid, Start)) + [At(pid, Event.Serve)];
  }

  /** The answers the database can give a booting process are no others. */
  lemma AnswersAre(cfg: Config, w: World, pid: int, e: Event)
    requires pid in w.procs && w.procs[pid].phase.Booting? && !AfterAnswer(e)
    ensures Move(cfg, w, At(pid, e)).Some? <==> Answers(w.lock, e)
  {
  }

  /** The lock is freed exactly when it is held and no process has its session; the
      processes see nothing of it. */
  lemma FreedIff(cfg: Config, w: World)
    ensures Move(cfg, w, Reap) == if w.lock.Some? && (forall pid :: pid in w.procs ==> w.procs[pid].session != w.lock)
      then Some(World(w.procs, None, w.nextSession)) else None
  {
  }

  // ------------------------------------------------------------ leadership lost

  /** A process that is down can only boot. */
  lemma DownOnlyBoots(cfg: Config, p: Process, e: Event)
    requires p.phase.Down?
    ensures Next(cfg, p, e).Some? <==> e.Boot?
  {
  }

  /** Once no process leads or is asking for the lock, none leads until one boots
      again, and no worker starts. */
  lemma NobodyTakesOver(cfg: Config, w: World, steps: seq<Step>, pid: int)
    requires Inv(cfg, w) && Run(cfg, w, steps).Some? && pid in Run(cfg, w, steps).value.procs
    requires forall q :: q in w.procs ==> !w.procs[q].leader && w.procs[q].phase != Booting
    requires forall s :: s in steps && s.At? ==> !s.event.Boot?
    ensures var p := Run(cfg, w, steps).value.procs[pid];
      !p.leader && (p.running != {} ==> pid in w.procs && w.procs[pid].running != {})
  {
    hide Inv, Run;
    NoFailover(cfg, w, steps);
    assert Active(Run(cfg, w, steps).value, pid) ==> Active(w, pid);
  }

  /** And a boot is enough: then any process that is down can boot, and serve with
      every worker running once the lock is freed. */
  lemma BootTakesOver(cfg: Config, w: World, pid: int)
    requires Inv(cfg, w) && pid in w.procs && w.procs[pid].phase.Down?
    requires forall q :: q in w.procs ==> !w.procs[q].leader && w.procs[q].phase != Booting
    ensures w.lock.Some? ==> Move(cfg, w, Reap) == Some(World(w.procs, None, w.nextSession))
    ensures Run(cfg, World(w.procs, None, w.nextSession), [At(pid, Boot(w.nextSession)), At(pid, Granted)] + seq(|cfg.starts|, _ => At(pid, Start)) + [At(pid, Event.Serve)])
      == Some(World(w.procs[pid := Process(Phase.Serving, true, Some(w.nextSession), set x | x in cfg.starts)], Some(w.nextSession), w.nextSession + 1))
  {
    hide Run;
    LeaderlessLock(cfg, w);
    GrantedServes(cfg, World(w.procs, None, w.nextSession), pid);
  }
}
