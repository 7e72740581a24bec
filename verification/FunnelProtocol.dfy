/** What every sequence of compiles, edits and runs of migration 126 keeps. */
module FunnelProtocol {
  import opened Common
  import opened FunnelCompiler
  import opened FunnelStore

  ghost predicate DistinctActions(actions: seq<EventAction>) {
    forall i, j :: 0 <= i < j < |actions| ==> actions[i].id != actions[j].id
  }

  /** An id names one funnel, and an event action has at most one funnel. */
  ghost predicate DistinctFunnels(funnels: seq<Funnel>) {
    && (forall i, j :: 0 <= i < j < |funnels| ==> funnels[i].id != funnels[j].id)
    && (forall i, j :: 0 <= i < j < |funnels| && funnels[i].owner.Some? ==> funnels[i].owner != funnels[j].owner)
  }

  ghost predicate Valid(st: Store) {
    && DistinctActions(st.actions) && DistinctFunnels(st.funnels)
    && (forall f :: f in st.funnels ==> f.id < st.nextFunnel)
    && (forall r :: r in st.steps ==> r.funnel < st.nextFunnel)
  }

  function StepsOfFunnel(steps: seq<StepRow>, funnel: int): seq<StepRow> {
    Where(steps, (r: StepRow) => r.funnel == funnel)
  }

  /** The event action's slots are all stored, its funnel exists, and the
      funnel's steps are exactly what the stored actions compile to. */
  ghost predicate Compiled(st: Store, id: int) {
    var ea, f := FindAction(st.actions, id), FindFunnel(st.funnels, id);
    && ea.Some? && f.Some? && AllSlotted(ActionList(ea.value))
    && StepsOfFunnel(st.steps, f.value.id) == Rows(f.value.id, 0, Emit(ActionList(ea.value)), st.stepSlots)
  }

  /** Nothing that belongs to this event action differs. */
  ghost predicate SameFor(st: Store, st': Store, id: int) {
    var f := FindFunnel(st.funnels, id);
    && FindAction(st'.actions, id) == FindAction(st.actions, id)
    && FindFunnel(st'.funnels, id) == f
    && (f.Some? ==> StepsOfFunnel(st'.steps, f.value.id) == StepsOfFunnel(st.steps, f.value.id))
    && st'.stepSlots == st.stepSlots
  }

  // ------------------------------------------------------------------ tables

  lemma FindFunnelAt(funnels: seq<Funnel>, k: nat, id: int)
    requires DistinctFunnels(funnels) && k < |funnels| && funnels[k].owner == Some(id)
    ensures FindFunnel(funnels, id) == Some(funnels[k])
  {
    var found := FindFunnel(funnels, id);
    assert funnels[k] in funnels;
    var j :| 0 <= j < |funnels| && funnels[j] == found.value;
  }

  lemma FindActionAt(actions: seq<EventAction>, k: nat)
    requires DistinctActions(actions) && k < |actions|
    ensures FindAction(actions, actions[k].id) == Some(actions[k])
  {
    var found := FindAction(actions, actions[k].id);
    assert actions[k] in actions;
    var j :| 0 <= j < |actions| && actions[j] == found.value;
  }

  /** Rewriting one event action's list leaves the look-ups of the others. */
  lemma SetActionsFacts(actions: seq<EventAction>, ea: EventAction, list: seq<Action>)
    requires DistinctActions(actions) && ea in actions
    ensures DistinctActions(SetActions(actions, ea.id, list))
    ensures FindAction(SetActions(actions, ea.id, list), ea.id) == Some(ea.(actions := Some(list)))
    ensures forall id :: id != ea.id ==> FindAction(SetActions(actions, ea.id, list), id) == FindAction(actions, id)
  {
    var actions' := SetActions(actions, ea.id, list);
    var k :| 0 <= k < |actions| && actions[k] == ea;
    FindActionAt(actions', k);
    forall id | id != ea.id ensures FindAction(actions', id) == FindAction(actions, id) {
      var found := FindAction(actions, id);
      if found.Some? {
        var j :| 0 <= j < |actions| && actions[j] == found.value;
        FindActionAt(actions', j);
      } else {
        forall j | 0 <= j < |actions'| ensures actions'[j].id != id { assert actions[j] in actions; }
      }
    }
  }

  /** Updating a funnel by its id rewrites one row. */
  lemma SetFunnelFacts(funnels: seq<Funnel>, k: nat, owner: int, values: map<string, Cell>)
    requires DistinctFunnels(funnels) && k < |funnels| && funnels[k].owner == Some(owner)
    ensures SetFunnel(funnels, funnels[k].id, owner, values) == funnels[k := funnels[k].(columns := funnels[k].columns + values)]
    ensures DistinctFunnels(SetFunnel(funnels, funnels[k].id, owner, values))
  {
    var funnels' := SetFunnel(funnels, funnels[k].id, owner, values);
    assert forall j :: 0 <= j < |funnels| ==> funnels'[j].id == funnels[j].id && funnels'[j].owner == funnels[j].owner;
  }

  /** The upsert gives the event action a funnel and leaves the others'. */
  lemma UpsertFacts(funnels: seq<Funnel>, next: int, columns: set<string>, ea: EventAction)
    requires DistinctFunnels(funnels) && forall f :: f in funnels ==> f.id < next
    ensures var (funnels', f, next') := UpsertFunnel(funnels, next, columns, ea);
      && DistinctFunnels(funnels') && next <= next' && f < next' && (forall g :: g in funnels' ==> g.id < next')
      && FindFunnel(funnels', ea.id).Some? && FindFunnel(funnels', ea.id).value.id == f
      && (FindFunnel(funnels, ea.id).Some? ==> FindFunnel(funnels, ea.id).value.id == f && next' == next)
      && (forall g :: g in funnels && g.owner != Some(ea.id) ==> g.id != f && g in funnels')
  {
    hide Known, FunnelValues, StopRules, SetFunnel;
    var (funnels', f, next') := UpsertFunnel(funnels, next, columns, ea);
    var found := FindFunnel(funnels, ea.id);
    if found.Some? {
      var k :| 0 <= k < |funnels| && funnels[k] == found.value;
      SetFunnelFacts(funnels, k, ea.id, Known(columns, FunnelValues(ea, StopRules(ea.stops))));
      FindFunnelAt(funnels', k, ea.id);
      KeptRows(funnels, funnels', k, f, ea.id);
    } else {
      AddedFunnel(funnels, funnels', ea.id);
    }
  }

  lemma KeptRows(funnels: seq<Funnel>, funnels': seq<Funnel>, k: nat, f: int, owner: int)
    requires DistinctFunnels(funnels) && k < |funnels| && funnels[k].owner == Some(owner) && funnels[k].id == f
    requires |funnels'| == |funnels| && funnels' == funnels[k := funnels'[k]] && funnels'[k].id == f
    ensures forall g :: g in funnels && g.owner != Some(owner) ==> g.id != f && g in funnels'
    ensures forall g :: g in funnels' ==> exists h :: h in funnels && h.id == g.id
  {
    forall g | g in funnels && g.owner != Some(owner) ensures g.id != f && g in funnels' {
      var j :| 0 <= j < |funnels| && funnels[j] == g;
      assert funnels'[j] == g;
    }
    forall g | g in funnels' ensures exists h :: h in funnels && h.id == g.id {
      var j :| 0 <= j < |funnels'| && funnels'[j] == g;
      assert funnels[j] in funnels && funnels[j].id == g.id;
    }
  }

  lemma AddedFunnel(funnels: seq<Funnel>, funnels': seq<Funnel>, owner: int)
    requires DistinctFunnels(funnels) && FindFunnel(funnels, owner).None?
    requires |funnels'| == |funnels| + 1 && funnels' == funnels + [Last(funnels')] && Last(funnels').owner == Some(owner)
    requires forall f :: f in funnels ==> f.id < Last(funnels').id
    ensures DistinctFunnels(funnels') && FindFunnel(funnels', owner) == Some(Last(funnels'))
  {
    assert forall j :: 0 <= j < |funnels| ==> funnels'[j] == funnels[j] && funnels[j] in funnels;
    FindFunnelAt(funnels', |funnels|, owner);
  }

  /** So the look-up of every other event action's funnel is unchanged. */
  lemma UpsertOthers(funnels: seq<Funnel>, next: int, columns: set<string>, ea: EventAction, id: int)
    requires DistinctFunnels(funnels) && (forall f :: f in funnels ==> f.id < next) && id != ea.id
    ensures var (funnels', f, next') := UpsertFunnel(funnels, next, columns, ea);
      && FindFunnel(funnels', id) == FindFunnel(funnels, id)
      && (FindFunnel(funnels, id).Some? ==> FindFunnel(funnels, id).value.id != f)
  {
    hide UpsertFunnel;
    UpsertFacts(funnels, next, columns, ea);
    var funnels' := UpsertFunnel(funnels, next, columns, ea).0;
    var found := FindFunnel(funnels, id);
    if found.Some? {
      var j :| 0 <= j < |funnels'| && funnels'[j] == found.value;
      FindFunnelAt(funnels', j, id);
    } else {
      UpsertOwners(funnels, next, columns, ea, id);
    }
  }

  lemma UpsertOwners(funnels: seq<Funnel>, next: int, columns: set<string>, ea: EventAction, id: int)
    requires id != ea.id && FindFunnel(funnels, id).None?
    ensures FindFunnel(UpsertFunnel(funnels, next, columns, ea).0, id).None?
  {
    hide Known, FunnelValues, StopRules;
    var funnels' := UpsertFunnel(funnels, next, columns, ea).0;
    forall g | g in funnels' ensures g.owner != Some(id) {
      var j :| 0 <= j < |funnels'| && funnels'[j] == g;
      if j < |funnels| { assert funnels[j] in funnels; }
    }
  }

  /** Replacing one funnel's steps: its own rows are the new ones, the rows of
      every other funnel are the old ones, in the old order. */
  lemma StepsReplaced(steps: seq<StepRow>, f: int, list: seq<Step>, slots: bool, g: int)
    ensures StepsOfFunnel(Others(steps, f) + Rows(f, 0, list, slots), g)
         == if g == f then Rows(f, 0, list, slots) else StepsOfFunnel(steps, g)
  {
    var keep := (r: StepRow) => r.funnel == g;
    WhereAppend(Others(steps, f), Rows(f, 0, list, slots), keep);
    OfOthers(steps, f, g);
    if g == f { WhereAllOf(Rows(f, 0, list, slots), f); } else { WhereNoneOf(Rows(f, 0, list, slots), g); }
  }

  lemma {:induction false} OfOthers(steps: seq<StepRow>, f: int, g: int)
    ensures StepsOfFunnel(Others(steps, f), g) == if g == f then [] else StepsOfFunnel(steps, g)
  {
    if steps != [] {
      var r, rest := steps[0], steps[1..];
      OfOthers(rest, f, g);
      WhereAppend([r], Others(rest, f), (x: StepRow) => x.funnel == g);
      assert Others(steps, f) == if r.funnel != f then [r] + Others(rest, f) else Others(rest, f);
    }
  }

  lemma {:induction false} WhereAllOf(rows: seq<StepRow>, f: int)
    requires forall r :: r in rows ==> r.funnel == f
    ensures StepsOfFunnel(rows, f) == rows
  {
    if rows != [] { WhereAllOf(rows[1..], f); }
  }

  lemma {:induction false} WhereNoneOf(rows: seq<StepRow>, g: int)
    requires forall r :: r in rows ==> r.funnel != g
    ensures StepsOfFunnel(rows, g) == []
  {
    if rows != [] { WhereNoneOf(rows[1..], g); }
  }

  // ------------------------------------------------------------- one compile

  /** Compiling leaves the event action compiled. */
  lemma CompileCompiles(st: Store, id: int)
    requires Valid(st) && FindAction(st.actions, id).Some?
    ensures Valid(CompileId(st, id)) && Compiled(CompileId(st, id), id)
  {
    hide UpsertFunnel, Emit, FillSlots, Rows, Others, StepsOfFunnel, SetActions, Missing;
    var ea := FindAction(st.actions, id).value;
    var st' := CompileId(st, id);
    UpsertFacts(st.funnels, st.nextFunnel, st.funnelColumns, ea);
    SetActionsFacts(st.actions, ea, Slotted(st, ea));
    var f := FindFunnel(st'.funnels, id).value.id;
    StepsReplaced(st.steps, f, Emit(Slotted(st, ea)), st.stepSlots, f);
    StepBounds(st, f, Emit(Slotted(st, ea)));
    if Missing(ActionList(ea)) == 0 { NoneMissing(ActionList(ea), st.drawn); }
  }

  lemma {:induction false} NoneMissing(actions: seq<Action>, drawn: nat)
    requires Missing(actions) == 0
    ensures FillSlots(actions, drawn) == actions
  {
    if actions != [] {
      NoneMissing(Front(actions), drawn);
      assert actions == Front(actions) + [Last(actions)];
    }
  }

  lemma StepBounds(st: Store, f: int, list: seq<Step>)
    requires forall r :: r in st.steps ==> r.funnel < st.nextFunnel
    ensures forall r :: r in Others(st.steps, f) + Rows(f, 0, list, st.stepSlots) ==> r.funnel < st.nextFunnel || r.funnel == f
  {
    var rows := Rows(f, 0, list, st.stepSlots);
    assert forall r :: r in rows ==> r.funnel == f;
  }

  /** Compiling one event action touches nothing of another. */
  lemma CompileLeavesOthers(st: Store, id: int, other: int)
    requires Valid(st) && other != id
    ensures SameFor(st, CompileId(st, id), other)
  {
    hide UpsertFunnel, Emit, FillSlots, Rows, Others, StepsOfFunnel, SetActions, Missing;
    var found := FindAction(st.actions, id);
    if found.Some? {
      var ea := found.value;
      UpsertFacts(st.funnels, st.nextFunnel, st.funnelColumns, ea);
      UpsertOthers(st.funnels, st.nextFunnel, st.funnelColumns, ea, other);
      SetActionsFacts(st.actions, ea, Slotted(st, ea));
      var g := FindFunnel(st.funnels, other);
      if g.Some? {
        StepsReplaced(st.steps, UpsertFunnel(st.funnels, st.nextFunnel, st.funnelColumns, ea).1, Emit(Slotted(st, ea)), st.stepSlots, g.value.id);
      }
    }
  }

  /** Recompiling an unchanged event action keeps its stored actions, its
      funnel id, and every step's type, config, slot and position. */
  lemma RecompileKeepsSteps(st: Store, id: int)
    requires Valid(st) && Compiled(st, id)
    ensures var st' := CompileId(st, id);
      && st'.actions == st.actions && st'.drawn == st.drawn
      && FindFunnel(st'.funnels, id).Some? && FindFunnel(st'.funnels, id).value.id == FindFunnel(st.funnels, id).value.id
      && forall g :: StepsOfFunnel(st'.steps, g) == StepsOfFunnel(st.steps, g)
  {
    hide UpsertFunnel, Emit, FillSlots, Rows, Others, StepsOfFunnel, SetActions, Missing;
    var ea := FindAction(st.actions, id).value;
    FillSlotsStable(ActionList(ea), st.drawn);
    UpsertFacts(st.funnels, st.nextFunnel, st.funnelColumns, ea);
    var f := FindFunnel(st.funnels, id).value.id;
    forall g ensures StepsOfFunnel(CompileId(st, id).steps, g) == StepsOfFunnel(st.steps, g) {
      StepsReplaced(st.steps, f, Emit(ActionList(ea)), st.stepSlots, g);
    }
  }

  /** Compiling twice is compiling once: slots, columns, rows and counters. */
  lemma CompileTwice(st: Store, id: int)
    requires Valid(st)
    ensures CompileId(CompileId(st, id), id) == CompileId(st, id)
  {
    hide UpsertFunnel, Emit, FillSlots, Rows, Others, StepsOfFunnel, SetActions;
    if FindAction(st.actions, id).Some? {
      var ea, st' := FindAction(st.actions, id).value, CompileId(st, id);
      CompileCompiles(st, id);
      SettledActions(st, ea);
      var ea' := FindAction(st'.actions, id).value;
      FillSlotsStable(ActionList(ea'), st'.drawn);
      UpsertTwice(st.funnels, st.nextFunnel, st.funnelColumns, ea, ea'.actions);
      OthersTwice(st.steps, UpsertFunnel(st.funnels, st.nextFunnel, st.funnelColumns, ea).1, Emit(ActionList(ea')), st.stepSlots);
    }
  }

  lemma SettledActions(st: Store, ea: EventAction)
    requires Valid(st) && ea in st.actions
    ensures var found := FindAction(Compile(st, ea).actions, ea.id);
      found.Some? && found.value == ea.(actions := found.value.actions) && ActionList(found.value) == Slotted(st, ea)
  {
    hide UpsertFunnel, Emit, FillSlots, Rows, Others, SetActions;
    SetActionsFacts(st.actions, ea, Slotted(st, ea));
    var k :| 0 <= k < |st.actions| && st.actions[k] == ea;
    FindActionAt(st.actions, k);
    if Missing(ActionList(ea)) == 0 { NoneMissing(ActionList(ea), st.drawn); }
  }

  lemma UpsertTwice(funnels: seq<Funnel>, next: int, columns: set<string>, ea: EventAction, actions: Option<seq<Action>>)
    requires DistinctFunnels(funnels) && forall f :: f in funnels ==> f.id < next
    ensures var (funnels', f, next') := UpsertFunnel(funnels, next, columns, ea);
      UpsertFunnel(funnels', next', columns, ea.(actions := actions)) == (funnels', f, next')
  {
    hide Known, FunnelValues, StopRules, SetFunnel;
    UpsertFacts(funnels, next, columns, ea);
    var (funnels', f, next') := UpsertFunnel(funnels, next, columns, ea);
    SameValues(columns, ea, actions);
    var values := Known(columns, FunnelValues(ea, StopRules(ea.stops)));
    var k :| 0 <= k < |funnels'| && funnels'[k] == FindFunnel(funnels', ea.id).value;
    WrittenColumns(funnels, next, columns, ea);
    SetFunnelFacts(funnels', k, ea.id, values);
    assert funnels'[k].columns + values == funnels'[k].columns;
    assert SetFunnel(funnels', f, ea.id, values) == funnels';
    assert FindFunnel(funnels', ea.(actions := actions).id).value.id == f;
  }

  /** After the upsert the funnel's columns hold the event action's values. */
  lemma WrittenColumns(funnels: seq<Funnel>, next: int, columns: set<string>, ea: EventAction)
    requires DistinctFunnels(funnels) && forall f :: f in funnels ==> f.id < next
    ensures var found, values := FindFunnel(UpsertFunnel(funnels, next, columns, ea).0, ea.id), Known(columns, FunnelValues(ea, StopRules(ea.stops)));
      found.Some? && forall c :: c in values ==> c in found.value.columns && found.value.columns[c] == values[c]
  {
    hide Known, FunnelValues, StopRules, SetFunnel;
    var funnels' := UpsertFunnel(funnels, next, columns, ea).0;
    var found := FindFunnel(funnels, ea.id);
    if found.Some? {
      var k :| 0 <= k < |funnels| && funnels[k] == found.value;
      SetFunnelFacts(funnels, k, ea.id, Known(columns, FunnelValues(ea, StopRules(ea.stops))));
      FindFunnelAt(funnels', k, ea.id);
    } else {
      AddedFunnel(funnels, funnels', ea.id);
    }
  }

  /** The funnel's columns do not depend on the action list. */
  lemma SameValues(columns: set<string>, ea: EventAction, actions: Option<seq<Action>>)
    ensures var ea' := ea.(actions := actions);
      Known(columns, FunnelValues(ea', StopRules(ea'.stops))) == Known(columns, FunnelValues(ea, StopRules(ea.stops)))
  {
  }

  lemma OthersTwice(steps: seq<StepRow>, f: int, list: seq<Step>, slots: bool)
    ensures Others(Others(steps, f) + Rows(f, 0, list, slots), f) == Others(steps, f)
  {
    var rows := Rows(f, 0, list, slots);
    WhereAppend(Others(steps, f), rows, (r: StepRow) => r.funnel != f);
    OthersKeepsAll(Others(steps, f), f);
    OthersKeepsNone(rows, f);
  }

  lemma {:induction false} OthersKeepsAll(rows: seq<StepRow>, f: int)
    requires forall r :: r in rows ==> r.funnel != f
    ensures Others(rows, f) == rows
  {
    if rows != [] { OthersKeepsAll(rows[1..], f); }
  }

  lemma {:induction false} OthersKeepsNone(rows: seq<StepRow>, f: int)
    requires forall r :: r in rows ==> r.funnel == f
    ensures Others(rows, f) == []
  {
    if rows != [] { OthersKeepsNone(rows[1..], f); }
  }

  // --------------------------------------------------------------- sequences

  datatype Op = CompileOp(id: int) | Migrate126 | Edit(ea: EventAction)

  /** An author's edit replaces the stored event action with the same id. */
  function EditAction(actions: seq<EventAction>, ea: EventAction): seq<EventAction> {
    seq(|actions|, k requires 0 <= k < |actions| => if actions[k].id == ea.id then ea else actions[k])
  }

  function Perform(st: Store, op: Op): Store {
    match op
    case CompileOp(id) => CompileId(st, id)
    case Migrate126 => CompileOrphans(st)
    case Edit(ea) => st.(actions := EditAction(st.actions, ea))
  }

  function PerformAll(st: Store, ops: seq<Op>): Store {
    if ops == [] then st else Perform(PerformAll(st, Front(ops)), Last(ops))
  }

  lemma SameForCompiled(st: Store, st': Store, id: int)
    requires SameFor(st, st', id) && Compiled(st, id)
    ensures Compiled(st', id)
  {
  }

  lemma SameForTrans(a: Store, b: Store, c: Store, id: int)
    requires SameFor(a, b, id) && SameFor(b, c, id)
    ensures SameFor(a, c, id)
  {
  }

  /** A batch of compiles: everything listed is compiled, nothing else moves. */
  lemma {:induction false} CompileAllFacts(st: Store, orphans: seq<EventAction>)
    requires Valid(st)
    ensures Valid(CompileAll(st, orphans))
    ensures forall id :: (forall a :: a in orphans ==> a.id != id) ==> SameFor(st, CompileAll(st, orphans), id)
    ensures forall a :: a in orphans && FindAction(st.actions, a.id).Some? ==> Compiled(CompileAll(st, orphans), a.id)
  {
    hide Compiled, SameFor, CompileId, Valid, FindAction;
    if orphans == [] {
      forall id ensures SameFor(st, st, id) { SameForRefl(st, id); }
    } else {
      var mid, last := CompileAll(st, Front(orphans)), Last(orphans).id;
      CompileAllFacts(st, Front(orphans));
      CompileKeepsValid(mid, last);
      forall id | forall a :: a in orphans ==> a.id != id ensures SameFor(st, CompileId(mid, last), id) {
        assert forall a :: a in Front(orphans) ==> a in orphans;
        CompileLeavesOthers(mid, last, id);
        SameForTrans(st, mid, CompileId(mid, last), id);
      }
      forall a | a in orphans && FindAction(st.actions, a.id).Some? ensures Compiled(CompileId(mid, last), a.id) {
        CompileAllKnows(st, Front(orphans), a.id);
        if a.id == last {
          CompileCompiles(mid, last);
        } else {
          CompileLeavesOthers(mid, last, a.id);
          SameForCompiled(mid, CompileId(mid, last), a.id);
        }
      }
    }
  }

  lemma SameForRefl(st: Store, id: int)
    ensures SameFor(st, st, id)
  {
  }

  lemma CompileKeepsValid(st: Store, id: int)
    requires Valid(st)
    ensures Valid(CompileId(st, id))
    ensures forall other :: FindAction(CompileId(st, id).actions, other).Some? <==> FindAction(st.actions, other).Some?
  {
    hide Compile;
    forall other ensures FindAction(CompileId(st, id).actions, other).Some? <==> FindAction(st.actions, other).Some? {
      if other != id { CompileLeavesOthers(st, id, other); }
      else if FindAction(st.actions, id).Some? { CompileCompiles(st, id); }
    }
    if FindAction(st.actions, id).Some? { CompileCompiles(st, id); }
  }

  lemma {:induction false} CompileAllKnows(st: Store, orphans: seq<EventAction>, id: int)
    requires Valid(st)
    ensures Valid(CompileAll(st, orphans))
    ensures FindAction(CompileAll(st, orphans).actions, id).Some? <==> FindAction(st.actions, id).Some?
  {
    hide CompileId, Valid;
    if orphans != [] {
      CompileAllKnows(st, Front(orphans), id);
      CompileKeepsValid(CompileAll(st, Front(orphans)), Last(orphans).id);
    }
  }

  /** Migration 126 leaves no orphan, compiles every event action that was one,
      and touches nothing of an event action that already had a funnel. */
  lemma MigrationFacts(st: Store)
    requires Valid(st)
    ensures Valid(CompileOrphans(st))
    ensures forall a :: a in st.actions ==> FindFunnel(CompileOrphans(st).funnels, a.id).Some?
    ensures forall a :: a in st.actions && FindFunnel(st.funnels, a.id).None? ==> Compiled(CompileOrphans(st), a.id)
    ensures forall id :: FindFunnel(st.funnels, id).Some? ==> SameFor(st, CompileOrphans(st), id)
  {
    hide Compiled, SameFor, Valid, CompileAll, Orphans, FindFunnel;
    var st' := CompileOrphans(st);
    OrphansAre(st);
    CompileAllFacts(st, Orphans(st));
    forall a | a in st.actions && FindFunnel(st.funnels, a.id).None? ensures Compiled(st', a.id) {
      FindsAction(st, a);
    }
    forall id | FindFunnel(st.funnels, id).Some? ensures SameFor(st, st', id) {
      assert forall a :: a in Orphans(st) ==> a.id != id;
    }
    forall a | a in st.actions ensures FindFunnel(st'.funnels, a.id).Some? {
      if FindFunnel(st.funnels, a.id).Some? { SameForFunnel(st, st', a.id); } else { CompiledHasAction(st', a.id); }
    }
  }

  lemma FindsAction(st: Store, a: EventAction)
    requires a in st.actions
    ensures FindAction(st.actions, a.id).Some?
  {
  }

  lemma SameForFunnel(st: Store, st': Store, id: int)
    requires SameFor(st, st', id)
    ensures FindFunnel(st'.funnels, id) == FindFunnel(st.funnels, id)
  {
  }

  lemma OrphansAre(st: Store)
    ensures forall a :: a in Orphans(st) <==> a in st.actions && FindFunnel(st.funnels, a.id).None?
  {
    OrderByMembers(Where(st.actions, (a: EventAction) => FindFunnel(st.funnels, a.id).None?), ActionOrder);
  }

  lemma EditFacts(st: Store, ea: EventAction)
    requires Valid(st)
    ensures Valid(Perform(st, Edit(ea)))
    ensures forall id :: id != ea.id ==> SameFor(st, Perform(st, Edit(ea)), id)
  {
    var actions' := EditAction(st.actions, ea);
    forall id | id != ea.id ensures FindAction(actions', id) == FindAction(st.actions, id) {
      var found := FindAction(st.actions, id);
      if found.Some? {
        var k :| 0 <= k < |st.actions| && st.actions[k] == found.value;
        FindActionAt(actions', k);
      } else {
        forall j | 0 <= j < |actions'| ensures actions'[j].id != id { assert st.actions[j] in st.actions; }
      }
    }
  }

  /** Each operation keeps the invariant, and keeps every event action that is
      compiled compiled, unless an author edits that very one. */
  lemma PerformFacts(st: Store, op: Op, id: int)
    requires Valid(st)
    ensures Valid(Perform(st, op))
    ensures Compiled(st, id) && !(op.Edit? && op.ea.id == id) ==> Compiled(Perform(st, op), id)
  {
    hide Compiled, Valid, SameFor, CompileId, CompileOrphans;
    match op
    case CompileOp(c) =>
      CompileKeepsValid(st, c);
      if Compiled(st, id) {
        if c == id {
          CompiledHasAction(st, id);
          CompileCompiles(st, c);
        } else {
          CompileLeavesOthers(st, c, id);
          SameForCompiled(st, CompileId(st, c), id);
        }
      }
    case Migrate126 =>
      MigrationFacts(st);
      if Compiled(st, id) {
        CompiledHasAction(st, id);
        SameForCompiled(st, CompileOrphans(st), id);
      }
    case Edit(ea) =>
      EditFacts(st, ea);
      if Compiled(st, id) && ea.id != id { SameForCompiled(st, Perform(st, op), id); }
  }

  lemma CompiledHasAction(st: Store, id: int)
    requires Compiled(st, id)
    ensures FindAction(st.actions, id).Some? && FindFunnel(st.funnels, id).Some?
  {
  }

  /** Over any sequence of operations from a valid store: the store stays valid
      (one funnel per event action), and an event action compiled at some point
      and not edited since is compiled at the end. */
  lemma {:induction false} HistoryFacts(st: Store, ops: seq<Op>, i: nat, id: int)
    requires Valid(st) && i <= |ops|
    requires Compiled(PerformAll(st, ops[..i]), id)
    requires forall k :: i <= k < |ops| ==> !(ops[k].Edit? && ops[k].ea.id == id)
    ensures Valid(PerformAll(st, ops)) && Compiled(PerformAll(st, ops), id)
  {
    hide Compiled, Valid, Perform;
    HistoryIsValid(st, ops);
    if i == |ops| {
      assert ops[..i] == ops;
    } else {
      assert Front(ops)[..i] == ops[..i];
      HistoryFacts(st, Front(ops), i, id);
      PerformFacts(PerformAll(st, Front(ops)), Last(ops), id);
    }
  }

  lemma {:induction false} HistoryIsValid(st: Store, ops: seq<Op>)
    requires Valid(st)
    ensures Valid(PerformAll(st, ops))
  {
    hide Valid, Perform;
    if ops != [] {
      HistoryIsValid(st, Front(ops));
      PerformFacts(PerformAll(st, Front(ops)), Last(ops), 0);
    }
  }

  /** What a compiled event action means at run time, in any valid store:
      positions 0..n-1 with n = actions + positive delays, and the machine
      fires the stored actions at their own times. */
  lemma CompiledRuns(st: Store, id: int, start: int, fuel: nat)
    requires Compiled(st, id)
    requires var list := ActionList(FindAction(st.actions, id).value); fuel >= |list| + Delayed(list)
    ensures var list, f := ActionList(FindAction(st.actions, id).value), FindFunnel(st.funnels, id).value.id;
      && |StepsOfFunnel(st.steps, f)| == |list| + Delayed(list)
      && (forall p :: 0 <= p < |StepsOfFunnel(st.steps, f)| ==> StepsOfFunnel(st.steps, f)[p].position == p)
      && Execute(st.steps, f, 0, start, fuel) == Timeline(list, start)
  {
    hide Emit, Execute, Timeline, Holds;
    var list, f := ActionList(FindAction(st.actions, id).value), FindFunnel(st.funnels, id).value.id;
    EmitLength(list);
    RowsHold(st.steps, f, Emit(list), st.stepSlots);
    CompiledMeaning(st.steps, f, list, start, fuel);
  }

  lemma RowsHold(rows: seq<StepRow>, f: int, list: seq<Step>, slots: bool)
    requires StepsOfFunnel(rows, f) == Rows(f, 0, list, slots)
    ensures Holds(rows, f, list)
  {
    var own := StepsOfFunnel(rows, f);
    forall r | r in rows && r.funnel == f ensures r.position < |list| && r.step == list[r.position] {
      assert r in own;
    }
    forall p | 0 <= p < |list| ensures Fetch(rows, f, p).Some? {
      assert own[p] in own && own[p].position == p;
    }
  }
}
