/** alembic_event_action_compiler.py: an event action is compiled to a funnel
    whose steps wait and act. This module holds the translation itself: what a
    compiled funnel means, and how much of the action it keeps. */
module FunnelCompiler {
  import opened Common

  /** A slot id: authored text, a random draw (uuid4), or the name-based id
      that uuid5 derives for the wait in front of a slot. */
  datatype Slot = Authored(text: string) | Drawn(n: nat) | WaitFor(slot: Slot)

  type Json = map<string, string>

  datatype Action = Action(kind: Option<string>, config: Option<Json>, delay: Option<int>, slot: Option<Slot>)

  function Delay(a: Action): int { if a.delay.Some? then a.delay.value else 0 }

  function Pause(a: Action): nat { if Delay(a) > 0 then Delay(a) else 0 }

  function Config(a: Action): Json { if a.config.Some? then a.config.value else map[] }

  predicate HasSlot(a: Action) { a.slot.Some? && a.slot.value != Authored("") }

  ghost predicate AllSlotted(actions: seq<Action>) {
    forall a :: a in actions ==> HasSlot(a)
  }

  // ------------------------------------------------------------------- slots

  function FillSlot(a: Action, drawn: nat): Action {
    if HasSlot(a) then a else a.(slot := Some(Drawn(drawn)))
  }

  function Missing(actions: seq<Action>): nat {
    if actions == [] then 0 else Missing(Front(actions)) + (if HasSlot(Last(actions)) then 0 else 1)
  }

  /** Every action without a slot id is given the next random draw. */
  function FillSlots(actions: seq<Action>, drawn: nat): (filled: seq<Action>)
    ensures |filled| == |actions|
  {
    if actions == [] then []
    else FillSlots(Front(actions), drawn) + [FillSlot(Last(actions), drawn + Missing(Front(actions)))]
  }

  /** Filling reaches every action and changes nothing but missing slot ids. */
  lemma {:induction false} FillSlotsFills(actions: seq<Action>, drawn: nat)
    ensures AllSlotted(FillSlots(actions, drawn))
    ensures forall i :: 0 <= i < |actions| ==>
      var a := FillSlots(actions, drawn)[i]; if HasSlot(actions[i]) then a == actions[i] else a == actions[i].(slot := a.slot)
  {
    if actions != [] { FillSlotsFills(Front(actions), drawn); }
  }

  /** Slot ids are stable: a slotted list is left alone. */
  lemma {:induction false} FillSlotsStable(actions: seq<Action>, drawn: nat)
    requires AllSlotted(actions)
    ensures FillSlots(actions, drawn) == actions && Missing(actions) == 0
  {
    if actions != [] {
      assert actions == Front(actions) + [Last(actions)];
      FillSlotsStable(Front(actions), drawn);
    }
  }

  // ---------------------------------------------------------------- emission

  /** One emitted step, before it gets its funnel and position. */
  datatype Step = Wait(seconds: int, slot: Slot) | Act(kind: Option<string>, config: Json, slot: Slot)

  function ActOf(a: Action): Step
    requires HasSlot(a)
  {
    Act(a.kind, Config(a), a.slot.value)
  }

  function EmitOne(a: Action): seq<Step>
    requires HasSlot(a)
  {
    (if Delay(a) > 0 then [Wait(Delay(a), WaitFor(a.slot.value))] else []) + [ActOf(a)]
  }

  function Emit(actions: seq<Action>): seq<Step>
    requires AllSlotted(actions)
  {
    if actions == [] then [] else Emit(Front(actions)) + EmitOne(Last(actions))
  }

  function Delayed(actions: seq<Action>): nat {
    if actions == [] then 0 else Delayed(Front(actions)) + (if Delay(Last(actions)) > 0 then 1 else 0)
  }

  lemma {:induction false} EmitLength(actions: seq<Action>)
    requires AllSlotted(actions)
    ensures |Emit(actions)| == |actions| + Delayed(actions)
  {
    if actions != [] { EmitLength(Front(actions)); }
  }

  // --------------------------------------------------------- timed semantics

  /** An action taking effect. */
  datatype Fire = Fire(time: int, kind: Option<string>, config: Json, slot: Slot)

  /** The seconds that pass before the action at index i is due. */
  function Elapsed(actions: seq<Action>): nat {
    if actions == [] then 0 else Elapsed(Front(actions)) + Pause(Last(actions))
  }

  /** The action list as its author reads it: each action fires after the
      delays up to and including its own. */
  function Timeline(actions: seq<Action>, start: int): (fires: seq<Fire>)
    requires AllSlotted(actions)
    ensures |fires| == |actions|
  {
    if actions == [] then []
    else Timeline(Front(actions), start) + [FireOf(Last(actions), start + Elapsed(actions))]
  }

  function FireOf(a: Action, time: int): Fire
    requires HasSlot(a)
  {
    Fire(time, a.kind, Config(a), a.slot.value)
  }

  /** The action at index i fires after the pauses up to and including its own. */
  lemma {:induction false} TimelineAt(actions: seq<Action>, start: int, i: nat)
    requires AllSlotted(actions) && i < |actions|
    ensures HasSlot(actions[i]) && Timeline(actions, start)[i] == FireOf(actions[i], start + Elapsed(actions[..i + 1]))
  {
    if i < |actions| - 1 {
      TimelineAt(Front(actions), start, i);
      assert Front(actions)[..i + 1] == actions[..i + 1];
    } else {
      assert actions[..i + 1] == actions;
    }
  }

  /** A row of funnel_steps; a schema without slot ids stores none. */
  datatype StepRow = StepRow(funnel: int, position: nat, step: Step, slot: Option<Slot>)

  /** The machine's fetch: the step of this funnel at this position. */
  function Fetch(rows: seq<StepRow>, funnel: int, position: nat): Option<StepRow> {
    First(rows, (r: StepRow) => r.funnel == funnel && r.position == position)
  }

  /** The step machine: a wait advances the clock, an action fires, and the
      position moves on until no step is there. */
  function Execute(rows: seq<StepRow>, funnel: int, position: nat, clock: int, fuel: nat): seq<Fire>
    decreases fuel
  {
    var row := Fetch(rows, funnel, position);
    if fuel == 0 || row.None? then []
    else
      match row.value.step
      case Wait(seconds, _) => Execute(rows, funnel, position + 1, clock + seconds, fuel - 1)
      case Act(kind, config, slot) => [Fire(clock, kind, config, slot)] + Execute(rows, funnel, position + 1, clock, fuel - 1)
  }

  /** The rows hold exactly these steps for the funnel, at positions 0..n-1. */
  ghost predicate Holds(rows: seq<StepRow>, funnel: int, steps: seq<Step>) {
    && (forall r :: r in rows && r.funnel == funnel ==> r.position < |steps| && r.step == steps[r.position])
    && (forall p :: 0 <= p < |steps| ==> Fetch(rows, funnel, p).Some?)
  }

  /** What the machine does from a position on, read off the step list. */
  function Reading(steps: seq<Step>, clock: int): seq<Fire> {
    if steps == [] then []
    else
      match steps[0]
      case Wait(seconds, _) => Reading(steps[1..], clock + seconds)
      case Act(kind, config, slot) => [Fire(clock, kind, config, slot)] + Reading(steps[1..], clock)
  }

  lemma FetchHeld(rows: seq<StepRow>, funnel: int, steps: seq<Step>, position: nat)
    requires Holds(rows, funnel, steps)
    ensures Fetch(rows, funnel, position).Some? <==> position < |steps|
    ensures position < |steps| ==> Fetch(rows, funnel, position).value.step == steps[position]
  {
  }

  lemma {:induction false} ExecuteReads(rows: seq<StepRow>, funnel: int, steps: seq<Step>, position: nat, clock: int, fuel: nat)
    requires Holds(rows, funnel, steps) && position <= |steps| && fuel >= |steps| - position
    ensures Execute(rows, funnel, position, clock, fuel) == Reading(steps[position..], clock)
    decreases fuel
  {
    hide Holds, Fetch;
    FetchHeld(rows, funnel, steps, position);
    if position < |steps| {
      assert steps[position..][1..] == steps[position + 1..];
      var next := if steps[position].Wait? then clock + steps[position].seconds else clock;
      ExecuteReads(rows, funnel, steps, position + 1, next, fuel - 1);
    }
  }

  lemma {:induction false} ReadingAppend(a: seq<Step>, b: seq<Step>, clock: int)
    ensures Reading(a + b, clock) == Reading(a, clock) + Reading(b, clock + Waited(a))
  {
    if a == [] {
      assert a + b == b;
    } else {
      assert (a + b)[1..] == a[1..] + b;
      ReadingAppend(a[1..], b, if a[0].Wait? then clock + a[0].seconds else clock);
    }
  }

  function Waited(steps: seq<Step>): int {
    if steps == [] then 0 else (if steps[0].Wait? then steps[0].seconds else 0) + Waited(steps[1..])
  }

  lemma {:induction false} WaitedAppend(a: seq<Step>, b: seq<Step>)
    ensures Waited(a + b) == Waited(a) + Waited(b)
  {
    if a == [] {
      assert a + b == b;
    } else {
      assert (a + b)[1..] == a[1..] + b;
      WaitedAppend(a[1..], b);
    }
  }

  lemma EmitOneReads(a: Action, clock: int)
    requires HasSlot(a)
    ensures Waited(EmitOne(a)) == Pause(a)
    ensures Reading(EmitOne(a), clock) == [FireOf(a, clock + Pause(a))]
  {
    var act := [ActOf(a)];
    assert act[1..] == [];
    assert Reading(act, clock + Pause(a)) == [FireOf(a, clock + Pause(a))];
    assert Waited(act) == 0;
    if Delay(a) > 0 {
      assert EmitOne(a)[1..] == act;
    } else {
      assert EmitOne(a) == act;
    }
  }

  lemma ReadingNothing(clock: int)
    ensures Reading([], clock) == [] && Waited([]) == 0
  {
  }

  lemma {:induction false} EmitReads(actions: seq<Action>, start: int)
    requires AllSlotted(actions)
    ensures Waited(Emit(actions)) == Elapsed(actions)
    ensures Reading(Emit(actions), start) == Timeline(actions, start)
  {
    hide EmitOne, Reading, Waited, FireOf;
    if actions == [] {
      ReadingNothing(start);
    } else {
      var rest, last := Front(actions), Last(actions);
      EmitReads(rest, start);
      EmitOneReads(last, start + Elapsed(rest));
      ReadingAppend(Emit(rest), EmitOne(last), start);
      WaitedAppend(Emit(rest), EmitOne(last));
    }
  }

  /** The meaning of a compiled funnel: whatever else the step table holds,
      running the funnel's steps fires the source actions in order, each with
      its own type, config and slot, each at its source time. */
  lemma {:induction false} CompiledMeaning(rows: seq<StepRow>, funnel: int, actions: seq<Action>, start: int, fuel: nat)
    requires AllSlotted(actions) && Holds(rows, funnel, Emit(actions))
    requires fuel >= |actions| + Delayed(actions)
    ensures Execute(rows, funnel, 0, start, fuel) == Timeline(actions, start)
  {
    hide Holds, Execute, Reading, Timeline, Emit;
    EmitLength(actions);
    ExecuteReads(rows, funnel, Emit(actions), 0, start, fuel);
    assert Emit(actions)[0..] == Emit(actions);
    EmitReads(actions, start);
  }

  // -------------------------------------------------------------- decompiling

  /** An action up to what compilation forgets: a missing config is an empty
      one, and a delay that is missing or negative is zero. */
  datatype Normal = Normal(kind: Option<string>, config: Json, delay: nat, slot: Slot)

  function NormalOf(a: Action): Normal
    requires HasSlot(a)
  {
    Normal(a.kind, Config(a), Pause(a), a.slot.value)
  }

  function Normalize(actions: seq<Action>): seq<Normal>
    requires AllSlotted(actions)
  {
    if actions == [] then [] else Normalize(Front(actions)) + [NormalOf(Last(actions))]
  }

  function NormalSteps(n: Normal): seq<Step> {
    (if n.delay > 0 then [Wait(n.delay, WaitFor(n.slot))] else []) + [Act(n.kind, n.config, n.slot)]
  }

  function StepsOf(ns: seq<Normal>): seq<Step> {
    if ns == [] then [] else StepsOf(Front(ns)) + NormalSteps(Last(ns))
  }

  /** Reads a step list back from its end, refusing what no compilation emits:
      a wait that is not in front of an action, not positive, or not named
      after that action's slot. */
  function Decompile(steps: seq<Step>): Option<seq<Normal>>
    decreases |steps|
  {
    if steps == [] then Some([])
    else if Last(steps).Wait? then None
    else
      var act, rest := Last(steps), Front(steps);
      var waited := rest != [] && Last(rest).Wait?;
      var before := Decompile(if waited then Front(rest) else rest);
      if before.None? || (waited && (Last(rest).seconds <= 0 || Last(rest).slot != WaitFor(act.slot))) then None
      else Some(before.value + [Normal(act.kind, act.config, if waited then Last(rest).seconds else 0, act.slot)])
  }

  /** Decompiling one more action. */
  lemma DecompileOneMore(before: seq<Step>, ns: seq<Normal>, n: Normal)
    requires Decompile(before) == Some(ns) && (before == [] || Last(before).Act?)
    ensures Decompile(before + NormalSteps(n)) == Some(ns + [n])
  {
    var act := Act(n.kind, n.config, n.slot);
    if n.delay > 0 {
      var wait := Wait(n.delay, WaitFor(n.slot));
      assert before + NormalSteps(n) == before + [wait] + [act];
      FrontOfSnoc(before + [wait], act);
      FrontOfSnoc(before, wait);
    } else {
      assert before + NormalSteps(n) == before + [act];
      FrontOfSnoc(before, act);
    }
  }

  lemma {:induction false} DecompileSteps(ns: seq<Normal>)
    ensures Decompile(StepsOf(ns)) == Some(ns)
    ensures StepsOf(ns) == [] || Last(StepsOf(ns)).Act?
  {
    hide Decompile;
    if ns == [] {
      DecompileNothing();
    } else {
      DecompileSteps(Front(ns));
      DecompileOneMore(StepsOf(Front(ns)), Front(ns), Last(ns));
      assert ns == Front(ns) + [Last(ns)];
    }
  }

  lemma DecompileNothing()
    ensures Decompile([]) == Some([])
  {
  }

  /** What a successful decompilation read last. */
  lemma DecompileLast(steps: seq<Step>, ns: seq<Normal>) returns (start: seq<Step>)
    requires Decompile(steps) == Some(ns) && steps != []
    ensures |start| < |steps| && ns != [] && Decompile(start) == Some(Front(ns))
    ensures steps == start + NormalSteps(Last(ns))
  {
    var act, rest := Last(steps), Front(steps);
    var waited := rest != [] && Last(rest).Wait?;
    start := if waited then Front(rest) else rest;
    FrontOfSnoc(Decompile(start).value, Last(ns));
    assert steps == rest + [act];
    if waited { assert rest == start + [Last(rest)]; }
  }

  /** Decompiling succeeds on exactly the step lists that compiling produces,
      and the list it returns is the only one they can come from. */
  lemma {:induction false} DecompileIff(steps: seq<Step>, ns: seq<Normal>)
    ensures Decompile(steps) == Some(ns) <==> steps == StepsOf(ns)
    decreases |steps|
  {
    hide Decompile;
    DecompileSteps(ns);
    DecompileNothing();
    if Decompile(steps) == Some(ns) && steps != [] {
      var start := DecompileLast(steps, ns);
      DecompileIff(start, Front(ns));
    }
  }

  lemma {:induction false} EmitIsStepsOf(actions: seq<Action>)
    requires AllSlotted(actions)
    ensures Emit(actions) == StepsOf(Normalize(actions))
  {
    if actions != [] {
      EmitIsStepsOf(Front(actions));
      FrontOfSnoc(Normalize(Front(actions)), NormalOf(Last(actions)));
    }
  }

  /** Nothing but the normal form is lost, and nothing of it is. */
  lemma EmitLosesOnlyDefaults(a: seq<Action>, b: seq<Action>)
    requires AllSlotted(a) && AllSlotted(b)
    ensures Decompile(Emit(a)) == Some(Normalize(a))
    ensures Emit(a) == Emit(b) <==> Normalize(a) == Normalize(b)
  {
    EmitIsStepsOf(a);
    EmitIsStepsOf(b);
    DecompileSteps(Normalize(a));
    DecompileSteps(Normalize(b));
  }
}
