/** What compiling an event action does, told in the columns of its tables: the
    slot ids, the funnel row, the step rows, and what running them fires. */
module FunnelFacts {
  import opened Common
  import opened FunnelCompiler
  import opened FunnelStore
  import opened FunnelProtocol

  // -------------------------------------------------------------------- slots

  /** No slot id, or a blank one. */
  function Slotless(): Action -> bool { (a: Action) => a.slot == None || a.slot == Some(Authored("")) }

  lemma SlotIs(a: Action)
    ensures HasSlot(a) <==> !Slotless()(a)
  {
  }

  /** Filling: the n-th action without a slot id gets the n-th next draw, and
      nothing else of any action changes. */
  lemma {:induction false} SlotsAre(list: seq<Action>, drawn: nat, i: nat)
    requires i < |list|
    ensures FillSlots(list, drawn)[i] ==
      if Slotless()(list[i]) then list[i].(slot := Some(Drawn(drawn + |Where(list[..i], Slotless())|))) else list[i]
  {
    hide Where;
    SlotIs(list[i]);
    if i < |list| - 1 {
      SlotsAre(Front(list), drawn, i);
      assert Front(list)[..i] == list[..i];
    } else {
      assert list[..i] == Front(list);
      MissingIs(Front(list));
    }
  }

  lemma {:induction false} MissingIs(list: seq<Action>)
    ensures Missing(list) == |Where(list, Slotless())|
  {
    hide Where;
    if list == [] {
      CountNone(Slotless());
    } else {
      MissingIs(Front(list));
      SlotIs(Last(list));
      WhereSnoc(list, Slotless());
    }
  }

  // -------------------------------------------------------------------- steps

  function Delays(): Action -> bool { (a: Action) => a.delay.Some? && a.delay.value > 0 }

  /** The step acts as the action says; a missing configuration is empty. */
  ghost predicate ActsAs(step: Step, a: Action) {
    && step.Act? && step.kind == a.kind && Some(step.slot) == a.slot
    && (a.config.Some? ==> step.config == a.config.value) && (a.config.None? ==> step.config == map[])
  }

  /** The step list: an action with a positive delay is preceded by a wait of that
      many seconds, named after its slot. */
  lemma {:induction false} StepsAre(list: seq<Action>, i: nat)
    requires AllSlotted(list) && i < |list|
    ensures |Emit(list)| == |list| + |Where(list, Delays())| && list[i].slot.Some?
    ensures var n, steps, a := i + |Where(list[..i], Delays())|, Emit(list), list[i];
      if Delays()(a) then n + 1 < |steps| && steps[n] == Wait(a.delay.value, WaitFor(a.slot.value)) && ActsAs(steps[n + 1], a)
      else n < |steps| && ActsAs(steps[n], a)
  {
    hide Where;
    var front := Front(list);
    WhereSnoc(list, Delays());
    EmitCount(front);
    if i < |list| - 1 {
      assert front[i] == list[i] && front[..i] == list[..i];
      StepsAre(front, i);
    } else {
      assert list[..i] == front && HasSlot(list[i]);
    }
  }

  lemma {:induction false} EmitCount(list: seq<Action>)
    requires AllSlotted(list)
    ensures |Emit(list)| == |list| + |Where(list, Delays())|
  {
    hide Where;
    if list == [] {
      CountNone(Delays());
    } else {
      EmitCount(Front(list));
      WhereSnoc(list, Delays());
    }
  }

  /** The step rows of a compiled event action: the emitted steps in order, from
      position zero, each with its slot where the table has that column. */
  lemma StepRowsAre(st: Store, id: int)
    requires Compiled(st, id)
    ensures var f, steps := FindFunnel(st.funnels, id).value.id, Emit(ActionList(FindAction(st.actions, id).value));
      Where(st.steps, (r: StepRow) => r.funnel == f)
        == seq(|steps|, p requires 0 <= p < |steps| => StepRow(f, p, steps[p], if st.stepSlots then Some(steps[p].slot) else None))
  {
    hide Emit;
  }

  // --------------------------------------------------------------------- time

  /** The positive delays of the first n actions, added up. */
  ghost function DelayUpTo(list: seq<Action>, n: nat): int
    requires n <= |list|
  {
    if n == 0 then 0
    else
      DelayUpTo(list, n - 1) +
      match list[n - 1].delay
      case None => 0
      case Some(d) => if d > 0 then d else 0
  }

  lemma {:induction false} ElapsedIs(list: seq<Action>, n: nat)
    requires n <= |list|
    ensures Elapsed(list[..n]) == DelayUpTo(list, n)
  {
    if n > 0 {
      ElapsedIs(list, n - 1);
      FrontOfPrefix(list, n - 1);
    }
  }

  /** Running the steps of a compiled event action fires its stored actions one by
      one, each with its own type, configuration and slot, at the time that its
      own and the earlier delays add up to. */
  lemma CompiledFires(st: Store, id: int, start: int, fuel: nat)
    requires Compiled(st, id) && fuel >= 2 * |ActionList(FindAction(st.actions, id).value)|
    ensures var list := ActionList(FindAction(st.actions, id).value);
      var fires := Execute(st.steps, FindFunnel(st.funnels, id).value.id, 0, start, fuel);
      && |fires| == |list|
      && forall i :: 0 <= i < |list| ==>
        && fires[i].kind == list[i].kind && Some(fires[i].slot) == list[i].slot && fires[i].time == start + DelayUpTo(list, i + 1)
        && (list[i].config.Some? ==> fires[i].config == list[i].config.value) && (list[i].config.None? ==> fires[i].config == map[])
  {
    hide Emit, Execute, Timeline, Elapsed, Holds, StepsOfFunnel, DelayUpTo;
    var list := ActionList(FindAction(st.actions, id).value);
    DelayedAtMost(list);
    CompiledRuns(st, id, start, fuel);
    forall i | 0 <= i < |list| ensures HasSlot(list[i]) && Timeline(list, start)[i] == FireOf(list[i], start + DelayUpTo(list, i + 1)) {
      TimelineAt(list, start, i);
      ElapsedIs(list, i + 1);
    }
  }

  lemma {:induction false} DelayedAtMost(list: seq<Action>)
    ensures Delayed(list) <= |list|
  {
    if list != [] { DelayedAtMost(Front(list)); }
  }

  // --------------------------------------------------------------- stop rules

  function Stops(): StopCondition -> bool { (c: StopCondition) => c.Condition? && c.event.Some? && c.event.value != "" }

  /** The rules: one for each object condition with an event, in order, with its
      event and its window; a window of zero is none. */
  lemma {:induction false} RulesAre(stops: seq<StopCondition>)
    ensures var kept, rules := Where(stops, Stops()), StopRules(stops);
      |rules| == |kept| && forall k :: 0 <= k < |kept| ==>
        kept[k].Condition? && Some(rules[k].event) == kept[k].event && rules[k].within == (if kept[k].within == Some(0) then None else kept[k].within)
  {
    if stops != [] {
      RulesAre(Front(stops));
      assert stops == Front(stops) + [Last(stops)];
      WhereAppend(Front(stops), [Last(stops)], Stops());
    }
  }

  // --------------------------------------------------------------- the funnel

  /** The event action's own funnel after a compile: the one it had, or a new one
      under the next id. Each column that the table has and the compiler writes
      holds the event action's value. */
  lemma FunnelIs(st: Store, id: int, row: map<string, Cell>)
    requires Valid(st) && FindAction(st.actions, id).Some?
    requires var ea := FindAction(st.actions, id).value; IsRow(row, ea, StopRules(ea.stops))
    ensures var old_, g := FindFunnel(st.funnels, id), FindFunnel(CompileId(st, id).funnels, id);
      && g.Some? && g.value.id == (if old_.Some? then old_.value.id else st.nextFunnel) && g.value.owner == Some(id)
      && forall c :: c in row && c in st.funnelColumns ==> c in g.value.columns && g.value.columns[c] == row[c]
  {
    hide Emit, FillSlots, Rows, Others, SetActions, StopRules, Known, FunnelValues, IsRow;
    var ea := FindAction(st.actions, id).value;
    UpsertFacts(st.funnels, st.nextFunnel, st.funnelColumns, ea);
    WrittenColumns(st.funnels, st.nextFunnel, st.funnelColumns, ea);
    KnownIs(st.funnelColumns, FunnelValues(ea, StopRules(ea.stops)));
    FunnelValuesAre(ea, StopRules(ea.stops));
    OneRow(row, FunnelValues(ea, StopRules(ea.stops)), ea, StopRules(ea.stops));
  }

  lemma OneRow(a: map<string, Cell>, b: map<string, Cell>, ea: EventAction, rules: seq<StopRule>)
    requires IsRow(a, ea, rules) && IsRow(b, ea, rules)
    ensures a == b
  {
  }

  lemma KnownIs(has: set<string>, values: map<string, Cell>)
    ensures forall k :: k in Known(has, values) <==> k in values && k in has
    ensures forall k :: k in Known(has, values) ==> Known(has, values)[k] == values[k]
  {
  }

  /** The eleven columns that the compiler writes. */
  ghost predicate IsRow(row: map<string, Cell>, ea: EventAction, rules: seq<StopRule>) {
    && row.Keys == {
      "project_id", "name", "description", "status", "trigger_type", "trigger_config", "global_exit_config", "source", "is_system",
      "cooldown_seconds", "react_to_delivery"}
    && row["project_id"] == Number(ea.project) && row["name"] == Text("[EventAction] " + ea.name)
    && (ea.description.None? ==> row["description"] == Null) && (ea.description.Some? ==> row["description"] == Text(ea.description.value))
    && (ea.isActive ==> row["status"] == Text("active")) && (!ea.isActive ==> row["status"] == Text("paused"))
    && row["trigger_type"] == Text("event") && row["source"] == Text("event_action") && row["is_system"] == Flag(true)
    && (ea.priority.Some? ==> row["trigger_config"] == Trigger(ea.trigger, ea.conditions, ea.priority.value))
    && (ea.priority.None? ==> row["trigger_config"] == Trigger(ea.trigger, ea.conditions, 0))
    && row["global_exit_config"] == Exit(rules) && row["cooldown_seconds"] == Number(ea.cooldown) && row["react_to_delivery"] == Flag(ea.react)
  }

  lemma FunnelValuesAre(ea: EventAction, rules: seq<StopRule>)
    ensures IsRow(FunnelValues(ea, rules), ea, rules)
  {
  }

  /** Columns that the compiler does not write keep what they held; a new funnel
      has none of them. */
  lemma OtherColumnsStay(st: Store, id: int, name: string)
    requires Valid(st) && FindAction(st.actions, id).Some?
    requires name !in st.funnelColumns || name !in {
      "project_id", "name", "description", "status", "trigger_type", "trigger_config", "global_exit_config", "source", "is_system",
      "cooldown_seconds", "react_to_delivery"}
    ensures var old_, g := FindFunnel(st.funnels, id), FindFunnel(CompileId(st, id).funnels, id);
      && g.Some? && (name in g.value.columns <==> old_.Some? && name in old_.value.columns)
      && (name in g.value.columns && old_.Some? && name in old_.value.columns ==> g.value.columns[name] == old_.value.columns[name])
  {
    hide Emit, FillSlots, Rows, Others, SetActions, StopRules, UpsertFunnel, FindFunnel, Known;
    var ea := FindAction(st.actions, id).value;
    NotWritten(st.funnelColumns, ea, StopRules(ea.stops), name);
    ColumnsKept(st.funnels, st.nextFunnel, st.funnelColumns, ea, name);
  }

  lemma NotWritten(has: set<string>, ea: EventAction, rules: seq<StopRule>, name: string)
    requires name !in has || name !in {
      "project_id", "name", "description", "status", "trigger_type", "trigger_config", "global_exit_config", "source", "is_system",
      "cooldown_seconds", "react_to_delivery"}
    ensures name !in Known(has, FunnelValues(ea, rules))
  {
    hide FunnelValues, Known;
    FunnelValuesAre(ea, rules);
    KnownIs(has, FunnelValues(ea, rules));
  }

  lemma ColumnsKept(funnels: seq<Funnel>, next: int, has: set<string>, ea: EventAction, name: string)
    requires DistinctFunnels(funnels) && (forall f :: f in funnels ==> f.id < next) && name !in Known(has, FunnelValues(ea, StopRules(ea.stops)))
    ensures var old_, g := FindFunnel(funnels, ea.id), FindFunnel(UpsertFunnel(funnels, next, has, ea).0, ea.id);
      && g.Some? && (name in g.value.columns <==> old_.Some? && name in old_.value.columns)
      && (name in g.value.columns && old_.Some? && name in old_.value.columns ==> g.value.columns[name] == old_.value.columns[name])
  {
    hide StopRules, Known, FunnelValues, SetFunnel;
    var found, funnels' := FindFunnel(funnels, ea.id), UpsertFunnel(funnels, next, has, ea).0;
    if found.Some? {
      var k :| 0 <= k < |funnels| && funnels[k] == found.value;
      SetFunnelFacts(funnels, k, ea.id, Known(has, FunnelValues(ea, StopRules(ea.stops))));
      FindFunnelAt(funnels', k, ea.id);
    } else {
      AddedFunnel(funnels, funnels', ea.id);
    }
  }

  // ------------------------------------------------------------ one compile

  ghost predicate Authors(ea: EventAction, list: seq<Action>) {
    if ea.actions.Some? then ea.actions.value == list else list == []
  }

  /** From the authored list to what fires: each action gets its slot id if it had
      none, keeps everything else, and fires with its own type and configuration at
      the time that the delays up to it add up to. Ids are used up one for each slot
      that was missing and one for a funnel that was. */
  lemma CompileIs(st: Store, id: int, list: seq<Action>, start: int, fuel: nat)
    requires Valid(st) && FindAction(st.actions, id).Some? && Authors(FindAction(st.actions, id).value, list) && fuel >= 2 * |list|
    ensures var after := CompileId(st, id); var ea, f := FindAction(after.actions, id), FindFunnel(after.funnels, id);
      && ea.Some? && f.Some? && (|list| > 0 ==> ea.value.actions.Some? && |ea.value.actions.value| == |list|)
      && after.drawn == st.drawn + |Where(list, Slotless())|
      && after.nextFunnel == st.nextFunnel + (if FindFunnel(st.funnels, id).Some? then 0 else 1)
      && var fires := Execute(after.steps, f.value.id, 0, start, fuel);
      && |fires| == |list|
      && forall i :: 0 <= i < |list| ==> Fires(fires[i], ea.value.actions.value[i], list, i, start)
  {
    hide Emit, FillSlots, Rows, Others, SetActions, Execute, CompileId, Fires, Compiled, Valid;
    var ea := FindAction(st.actions, id).value;
    assert ActionList(ea) == list;
    var after := CompileId(st, id);
    CompileCompiles(st, id);
    StoredIs(st, id);
    UsedUp(st, id);
    CompiledIsThere(after, id);
    var now := ActionList(FindAction(after.actions, id).value);
    assert now == if |Where(list, Slotless())| > 0 then FillSlots(list, st.drawn) else list;
    FilledLength(list, st.drawn);
    CompiledFires(after, id, start, fuel);
    var fires := Execute(after.steps, FindFunnel(after.funnels, id).value.id, 0, start, fuel);
    forall i | 0 <= i < |list| ensures Fires(fires[i], now[i], list, i, start) {
      SlotsAre(list, st.drawn, i);
      DelaysKept(list, now, st.drawn, i + 1);
      if |Where(list, Slotless())| == 0 { assert list[i] in list; }
      FiresIs(fires[i], now, list, i, start);
    }
  }

  /** The fired action and the stored one are the authored one with a slot. */
  ghost predicate Fires(fire: Fire, stored: Action, list: seq<Action>, i: nat, start: int)
    requires i < |list|
  {
    var a := list[i];
    && stored == a.(slot := stored.slot) && stored.slot == Some(fire.slot) && (!Slotless()(a) ==> stored == a)
    && fire.kind == a.kind && fire.time == start + DelayUpTo(list, i + 1)
    && (a.config.Some? ==> fire.config == a.config.value) && (a.config.None? ==> fire.config == map[])
  }

  lemma FiresIs(fire: Fire, now: seq<Action>, list: seq<Action>, i: nat, start: int)
    requires i < |now| == |list| && now[i] == list[i].(slot := now[i].slot) && (!Slotless()(list[i]) ==> now[i] == list[i])
    requires fire.kind == now[i].kind && Some(fire.slot) == now[i].slot && fire.time == start + DelayUpTo(list, i + 1)
    requires (now[i].config.Some? ==> fire.config == now[i].config.value) && (now[i].config.None? ==> fire.config == map[])
    ensures Fires(fire, now[i], list, i, start)
  {
  }

  lemma CompiledIsThere(st: Store, id: int)
    requires Compiled(st, id)
    ensures FindAction(st.actions, id).Some? && FindFunnel(st.funnels, id).Some?
  {
  }

  lemma UsedUp(st: Store, id: int)
    requires FindAction(st.actions, id).Some?
    ensures var list := ActionList(FindAction(st.actions, id).value);
      CompileId(st, id).drawn == st.drawn + |Where(list, Slotless())|
    ensures CompileId(st, id).nextFunnel == st.nextFunnel + if FindFunnel(st.funnels, id).Some? then 0 else 1
  {
    hide Emit, FillSlots, Rows, Others, SetActions, FindFunnel, FunnelValues, StopRules, Missing, Known;
    MissingIs(ActionList(FindAction(st.actions, id).value));
  }

  lemma {:induction false} FilledLength(list: seq<Action>, drawn: nat)
    ensures |FillSlots(list, drawn)| == |list|
  {
    if list != [] { FilledLength(Front(list), drawn); }
  }

  lemma {:induction false} DelaysKept(list: seq<Action>, now: seq<Action>, drawn: nat, n: nat)
    requires n <= |list| && (now == list || now == FillSlots(list, drawn))
    ensures |now| == |list| && DelayUpTo(now, n) == DelayUpTo(list, n)
  {
    hide FillSlots;
    FilledLength(list, drawn);
    if n > 0 {
      DelaysKept(list, now, drawn, n - 1);
      SlotsAre(list, drawn, n - 1);
    }
  }

  /** In a history an edit puts its own version in the place of the stored one, and
      changes no funnel, step or other event action. */
  lemma EditIs(st: Store, ops: seq<Op>, ea: EventAction)
    ensures var before, after := PerformAll(st, ops), PerformAll(st, ops + [Edit(ea)]);
      && after == before.(actions := after.actions) && |after.actions| == |before.actions|
      && forall k :: 0 <= k < |before.actions| ==> after.actions[k] == if before.actions[k].id == ea.id then ea else before.actions[k]
  {
    hide PerformAll;
    PerformSnoc(st, ops, Edit(ea));
  }

  lemma PerformSnoc(st: Store, ops: seq<Op>, op: Op)
    ensures PerformAll(st, ops + [op]) == Perform(PerformAll(st, ops), op)
  {
    hide Perform;
    FrontOfSnoc(ops, op);
  }

  // ---------------------------------------------------------------- migration

  /** The actions stored after a compile: the list with its slots filled in, or,
      if none was missing, what was there. */
  lemma StoredIs(st: Store, id: int)
    requires Valid(st) && FindAction(st.actions, id).Some?
    ensures var ea, list := FindAction(st.actions, id).value, ActionList(FindAction(st.actions, id).value);
      FindAction(CompileId(st, id).actions, id) == Some(if |Where(list, Slotless())| > 0 then ea.(actions := Some(FillSlots(list, st.drawn))) else ea)
  {
    hide UpsertFunnel, Emit, FillSlots, Rows, Others, SetActions, Where;
    var ea := FindAction(st.actions, id).value;
    MissingIs(ActionList(ea));
    SetActionsFacts(st.actions, ea, Slotted(st, ea));
  }

  /** Migration 126 takes the event actions that no funnel names, each once, by
      ascending id. */
  lemma OrphansAreThose(st: Store)
    requires DistinctActions(st.actions)
    ensures forall a :: a in Orphans(st) <==> a in st.actions && forall f :: f in st.funnels ==> f.owner != Some(a.id)
    ensures forall i, j :: 0 <= i < j < |Orphans(st)| ==> Orphans(st)[i].id < Orphans(st)[j].id
  {
    var test := (a: EventAction) => FindFunnel(st.funnels, a.id).None?;
    var kept := Where(st.actions, test);
    OrphansAre(st);
    OrderBySorted(kept, ActionOrder);
    assert Distinct(st.actions);
    WhereDistinct(st.actions, test);
    DistinctPermutation(kept, Orphans(st));
    forall i, j | 0 <= i < j < |Orphans(st)| ensures Orphans(st)[i].id < Orphans(st)[j].id {
      var a, b := Orphans(st)[i], Orphans(st)[j];
      assert a in st.actions && b in st.actions;
      if a.id == b.id { SameAction(st.actions, a, b); }
    }
  }

  lemma SameAction(actions: seq<EventAction>, a: EventAction, b: EventAction)
    requires DistinctActions(actions) && a in actions && b in actions && a.id == b.id
    ensures a == b
  {
  }
}
