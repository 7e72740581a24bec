/** The database side of the event-action compiler and the migration that
    compiles orphans (126): one funnel per event action, its steps replaced as
    a whole, slot ids written back before they are used. */
module FunnelStore {
  import opened Common
  import opened FunnelCompiler

  datatype StopCondition = NotAnObject | Condition(event: Option<string>, within: Option<int>)

  datatype StopRule = StopRule(event: string, within: Option<int>)

  datatype EventAction = EventAction(
    id: int, project: int, name: string, description: Option<string>, trigger: string,
    conditions: seq<Json>, actions: Option<seq<Action>>, stops: seq<StopCondition>,
    isActive: bool, priority: Option<int>, cooldown: int, react: bool)

  /** A column value of the funnels table. */
  datatype Cell =
    | Null | Text(text: string) | Number(n: int) | Flag(b: bool)
    | Trigger(event: string, conditions: seq<Json>, priority: int) | Exit(rules: seq<StopRule>)

  datatype Funnel = Funnel(id: int, owner: Option<int>, columns: map<string, Cell>)

  datatype Store = Store(
    actions: seq<EventAction>, funnels: seq<Funnel>, steps: seq<StepRow>, nextFunnel: int, drawn: nat,
    funnelColumns: set<string>, stepSlots: bool)

  // ----------------------------------------------------------- funnel values

  /** Conditions that are objects with an event become rules, in order; a
      missing or zero window becomes null. */
  function StopRules(stops: seq<StopCondition>): seq<StopRule> {
    if stops == [] then []
    else StopRules(Front(stops)) + RuleOf(Last(stops))
  }

  function RuleOf(c: StopCondition): seq<StopRule> {
    if c.NotAnObject? || c.event.None? || c.event.value == "" then []
    else [StopRule(c.event.value, if c.within == Some(0) then None else c.within)]
  }

  /** _known: only columns that the reflected table has are written. */
  function Known(columns: set<string>, values: map<string, Cell>): map<string, Cell> {
    map k | k in values && k in columns :: values[k]
  }

  function FunnelValues(ea: EventAction, rules: seq<StopRule>): map<string, Cell> {
    map[
      "project_id" := Number(ea.project),
      "name" := Text("[EventAction] " + ea.name),
      "description" := if ea.description.Some? then Text(ea.description.value) else Null,
      "status" := Text(if ea.isActive then "active" else "paused"),
      "trigger_type" := Text("event"),
      "trigger_config" := Trigger(ea.trigger, ea.conditions, if ea.priority.Some? then ea.priority.value else 0),
      "global_exit_config" := Exit(rules),
      "source" := Text("event_action"),
      "is_system" := Flag(true),
      "cooldown_seconds" := Number(ea.cooldown),
      "react_to_delivery" := Flag(ea.react)]
  }

  // ----------------------------------------------------------------- look-ups

  function FindAction(actions: seq<EventAction>, id: int): (found: Option<EventAction>)
    ensures found.Some? ==> found.value in actions && found.value.id == id
    ensures found.None? ==> forall a :: a in actions ==> a.id != id
  {
    First(actions, (a: EventAction) => a.id == id)
  }

  function FindFunnel(funnels: seq<Funnel>, id: int): (found: Option<Funnel>)
    ensures found.Some? ==> found.value in funnels && found.value.owner == Some(id)
    ensures found.None? ==> forall f :: f in funnels ==> f.owner != Some(id)
  {
    First(funnels, (f: Funnel) => f.owner == Some(id))
  }

  function ActionList(ea: EventAction): seq<Action> {
    if ea.actions.Some? then ea.actions.value else []
  }

  // ------------------------------------------------------------- one compile

  function SetActions(actions: seq<EventAction>, id: int, list: seq<Action>): seq<EventAction> {
    seq(|actions|, k requires 0 <= k < |actions| =>
      if actions[k].id == id then actions[k].(actions := Some(list)) else actions[k])
  }

  function SetFunnel(funnels: seq<Funnel>, id: int, owner: int, values: map<string, Cell>): seq<Funnel> {
    seq(|funnels|, k requires 0 <= k < |funnels| =>
      if funnels[k].id == id then funnels[k].(owner := Some(owner), columns := funnels[k].columns + values) else funnels[k])
  }

  /** The rows for a step list, numbered from a first position. */
  function Rows(funnel: int, first: nat, steps: seq<Step>, slots: bool): seq<StepRow> {
    seq(|steps|, k requires 0 <= k < |steps| => RowOf(funnel, first + k, steps[k], slots))
  }

  function RowOf(funnel: int, position: nat, step: Step, slots: bool): StepRow {
    StepRow(funnel, position, step, if slots then Some(step.slot) else None)
  }

  function Others(steps: seq<StepRow>, funnel: int): seq<StepRow> {
    Where(steps, (r: StepRow) => r.funnel != funnel)
  }

  function Slotted(st: Store, ea: EventAction): (list: seq<Action>)
    ensures AllSlotted(list)
  {
    FillSlotsFills(ActionList(ea), st.drawn);
    FillSlots(ActionList(ea), st.drawn)
  }

  /** The funnels table, the funnel's id and the next id, after an upsert. */
  function UpsertFunnel(funnels: seq<Funnel>, next: int, columns: set<string>, ea: EventAction): (seq<Funnel>, int, int) {
    var values := Known(columns, FunnelValues(ea, StopRules(ea.stops)));
    var found := FindFunnel(funnels, ea.id);
    if found.Some? then (SetFunnel(funnels, found.value.id, ea.id, values), found.value.id, next)
    else (funnels + [Funnel(next, Some(ea.id), values)], next, next + 1)
  }

  /** The whole effect of compiling one event action. */
  function Compile(st: Store, ea: EventAction): Store {
    var list := Slotted(st, ea);
    var (funnels, f, next) := UpsertFunnel(st.funnels, st.nextFunnel, st.funnelColumns, ea);
    st.(actions := if Missing(ActionList(ea)) > 0 then SetActions(st.actions, ea.id, list) else st.actions,
        drawn := st.drawn + Missing(ActionList(ea)),
        funnels := funnels, nextFunnel := next,
        steps := Others(st.steps, f) + Rows(f, 0, Emit(list), st.stepSlots))
  }

  /** compile_event_action_for_migration; an unknown id is refused by .one(). */
  function CompileId(st: Store, id: int): Store {
    var found := FindAction(st.actions, id);
    if found.Some? then Compile(st, found.value) else st
  }

  function ActionOrder(a: EventAction): SortKey { (a.id, 0, 0) }

  /** Event actions that no funnel belongs to, by id. */
  function Orphans(st: Store): seq<EventAction> {
    OrderBy(Where(st.actions, (a: EventAction) => FindFunnel(st.funnels, a.id).None?), ActionOrder)
  }

  function CompileAll(st: Store, orphans: seq<EventAction>): Store {
    if orphans == [] then st else CompileId(CompileAll(st, Front(orphans)), Last(orphans).id)
  }

  /** Migration 126. */
  function CompileOrphans(st: Store): Store { CompileAll(st, Orphans(st)) }

  // --------------------------------------------------------------- the class

  class Connection {
    var actions: seq<EventAction>
    var funnels: seq<Funnel>
    var steps: seq<StepRow>
    var nextFunnel: int
    var drawn: nat
    const funnelColumns: set<string>
    const stepSlots: bool

    constructor (st: Store)
      ensures State() == st
    {
      actions, funnels, steps, nextFunnel, drawn := st.actions, st.funnels, st.steps, st.nextFunnel, st.drawn;
      funnelColumns, stepSlots := st.funnelColumns, st.stepSlots;
    }

    function State(): Store
      reads this
    {
      Store(actions, funnels, steps, nextFunnel, drawn, funnelColumns, stepSlots)
    }

    /** The loop that fills missing slot ids in place. */
    method FillMissing(list: seq<Action>) returns (filled: seq<Action>, changed: bool)
      modifies this`drawn
      ensures filled == FillSlots(list, old(drawn))
      ensures drawn == old(drawn) + Missing(list)
      ensures changed <==> Missing(list) > 0
    {
      filled, changed := [], false;
      for i := 0 to |list|
        invariant filled == FillSlots(list[..i], old(drawn))
        invariant drawn == old(drawn) + Missing(list[..i])
        invariant changed <==> drawn > old(drawn)
      {
        FrontOfPrefix(list, i);
        if HasSlot(list[i]) {
          filled := filled + [list[i]];
        } else {
          filled := filled + [list[i].(slot := Some(Drawn(drawn)))];
          drawn, changed := drawn + 1, true;
        }
      }
      assert list[..|list|] == list;
    }

    /** The loop over the stop conditions. */
    method CollectRules(stops: seq<StopCondition>) returns (rules: seq<StopRule>)
      ensures rules == StopRules(stops)
    {
      rules := [];
      for i := 0 to |stops|
        invariant rules == StopRules(stops[..i])
      {
        FrontOfPrefix(stops, i);
        var c := stops[i];
        if c.NotAnObject? || c.event.None? || c.event.value == "" {
          continue;
        }
        rules := rules + [StopRule(c.event.value, if c.within == Some(0) then None else c.within)];
      }
      assert stops[..|stops|] == stops;
    }

    /** The rows of one action: its wait, if it has one, then itself. */
    method InsertAction(funnel: int, position: nat, action: Action) returns (next: nat)
      requires HasSlot(action)
      modifies this`steps
      ensures steps == old(steps) + Rows(funnel, position, EmitOne(action), stepSlots)
      ensures next == position + |EmitOne(action)|
    {
      next := position;
      var delay, slot := Delay(action), action.slot.value;
      if delay > 0 {
        steps := steps + [RowOf(funnel, next, Wait(delay, WaitFor(slot)), stepSlots)];
        next := next + 1;
      }
      steps := steps + [RowOf(funnel, next, ActOf(action), stepSlots)];
      next := next + 1;
    }

    /** The loop that inserts the steps with a running position. */
    method InsertSteps(funnel: int, list: seq<Action>)
      requires AllSlotted(list)
      modifies this`steps
      ensures steps == old(steps) + Rows(funnel, 0, Emit(list), stepSlots)
    {
      var position: nat := 0;
      for i := 0 to |list|
        invariant position == |Emit(list[..i])|
        invariant steps == old(steps) + Rows(funnel, 0, Emit(list[..i]), stepSlots)
      {
        hide Rows, EmitOne;
        FrontOfPrefix(list, i);
        RowsAppend(funnel, Emit(list[..i]), EmitOne(list[i]), stepSlots);
        position := InsertAction(funnel, position, list[i]);
      }
      assert list[..|list|] == list;
    }

    /** Inserting the funnel row, or updating the one that is there. */
    method UpsertRow(ea: EventAction) returns (f: int)
      modifies this`funnels, this`nextFunnel
      ensures (funnels, f, nextFunnel) == UpsertFunnel(old(funnels), old(nextFunnel), funnelColumns, ea)
      ensures exists k :: 0 <= k < |funnels| && funnels[k].id == f && funnels[k].owner == Some(ea.id)
    {
      hide Known, FunnelValues;
      var rules := CollectRules(ea.stops);
      var values := Known(funnelColumns, FunnelValues(ea, rules));
      var existing := FindFunnel(funnels, ea.id);
      if existing.None? {
        f := nextFunnel;
        funnels := funnels + [Funnel(f, Some(ea.id), values)];
        nextFunnel := nextFunnel + 1;
        assert funnels[|funnels| - 1].id == f;
      } else {
        f := existing.value.id;
        ghost var k :| 0 <= k < |funnels| && funnels[k] == existing.value;
        funnels := SetFunnel(funnels, f, ea.id, values);
        assert funnels[k].id == f;
      }
    }

    /** compile_event_action_for_migration. */
    method CompileEventAction(id: int) returns (funnel: Option<int>)
      modifies this
      ensures State() == CompileId(old(State()), id)
      ensures funnel.None? <==> FindAction(old(actions), id).None?
      ensures funnel.Some? ==> exists k :: 0 <= k < |funnels| && funnels[k].id == funnel.value && funnels[k].owner == Some(id)
    {
      hide UpsertFunnel, Emit, FillSlots, Others, Rows, SetActions;
      var found := FindAction(actions, id);
      if found.None? {
        return None;
      }
      var ea, st := found.value, State();
      var list, changed := FillMissing(ActionList(ea));
      if changed {
        actions := SetActions(actions, id, list);
      }
      FillSlotsFills(ActionList(ea), st.drawn);
      var f := UpsertRow(ea);
      steps := Others(steps, f);
      InsertSteps(f, list);
      funnel := Some(f);
    }

    /** Migration 126: compile every orphan found before the loop. */
    method Upgrade126()
      modifies this
      ensures State() == CompileOrphans(old(State()))
    {
      var orphans := Orphans(State());
      for i := 0 to |orphans|
        invariant State() == CompileAll(old(State()), orphans[..i])
      {
        FrontOfPrefix(orphans, i);
        var _ := CompileEventAction(orphans[i].id);
      }
      assert orphans[..|orphans|] == orphans;
    }
  }

  lemma RowsAppend(funnel: int, a: seq<Step>, b: seq<Step>, slots: bool)
    ensures Rows(funnel, 0, a + b, slots) == Rows(funnel, 0, a, slots) + Rows(funnel, |a|, b, slots)
  {
  }
}
