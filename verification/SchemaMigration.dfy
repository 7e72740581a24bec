/** Migration 138 as a guarded schema change: every object it makes carries an
    ownership comment, every step is guarded by what already exists, and the
    downgrade drops only what is marked. Parametric in the names and shapes. */
module SchemaMigration {
  import opened Common

  type Name = string

  datatype Kind = Table | Column | Index | Constraint

  /** What a COMMENT ON statement can name. */
  datatype Obj = Obj(kind: Kind, table: Name, name: Name)

  datatype Def =
    | TableDef
    | ColumnDef(ddl: string)
    | IndexDef(columns: seq<Name>, unique: bool, filter: string)
    | PrimaryDef(columns: seq<Name>)
    | UniqueDef(columns: seq<Name>)
    | ForeignDef(columns: seq<Name>, target: Name, referred: seq<Name>)

  datatype Entry = Entry(def: Def, comment: Option<string>)

  type Schema = map<Obj, Entry>

  const OWNED: Option<string> := Some("versya:alembic:138_campaign_data:owned")

  datatype Error =
    | AlreadyExists | Missing | NotAdopted | Incomplete
    | NotOwned | Duplicates | Referenced | RowsConflict

  function Tab(t: Name): Obj { Obj(Table, t, "") }
  function Col(t: Name, c: Name): Obj { Obj(Column, t, c) }
  function Idx(t: Name, n: Name): Obj { Obj(Index, t, n) }
  function Con(t: Name, n: Name): Obj { Obj(Constraint, t, n) }

  function AsSet(columns: seq<Name>): set<Name> { set c | c in columns }

  function Columns(def: Def): seq<Name> {
    match def
    case TableDef => []
    case ColumnDef(_) => []
    case IndexDef(c, _, _) => c
    case PrimaryDef(c) => c
    case UniqueDef(c) => c
    case ForeignDef(c, _, _) => c
  }

  // ------------------------------------------------------------- inspection

  predicate IsOwned(s: Schema, o: Obj) { o in s && s[o].comment == OWNED }

  /** _constraint_exists: only unique constraints are looked at. */
  predicate HasUnique(s: Schema, t: Name, n: Name) {
    Tab(t) in s && Con(t, n) in s && s[Con(t, n)].def.UniqueDef?
  }

  predicate IsForeign(s: Schema, o: Obj) { o in s && o.kind.Constraint? && s[o].def.ForeignDef? }

  /** _foreign_key_exists: compared by column set and target, not by name. */
  predicate HasForeign(s: Schema, t: Name, columns: seq<Name>, target: Name) {
    Tab(t) in s && exists o :: o in s && IsForeign(s, o) && o.table == t && AsSet(s[o].def.columns) == AsSet(columns) && s[o].def.target == target
  }

  predicate HasColumns(s: Schema, t: Name, columns: seq<Name>) {
    Tab(t) in s && forall c :: c in columns ==> Col(t, c) in s
  }

  // -------------------------------------------------------------------- DDL

  /** Adding one object to an existing table; the database refuses a taken
      name, an unknown column and an unknown target. */
  function Put(s: Schema, o: Obj, def: Def, comment: Option<string>): Result<Schema, Error> {
    if o in s || (o.kind.Index? && exists p :: p in s && p.kind.Index? && p.name == o.name) then Err(AlreadyExists)
    else if !HasColumns(s, o.table, Columns(def)) then Err(Missing)
    else if def.ForeignDef? && !HasColumns(s, def.target, def.referred) then Err(Missing)
    else Ok(s[o := Entry(def, comment)])
  }

  function Remove(s: Schema, o: Obj): Schema { map p | p in s && p != o :: s[p] }

  /** DROP COLUMN takes the table's indexes and constraints on it along. */
  function DropColumn(s: Schema, t: Name, c: Name): Schema {
    map p | p in s && p != Col(t, c) && !(p.table == t && c in Columns(s[p].def)) :: s[p]
  }

  /** DROP TABLE takes everything in the table along, and is refused while
      another table's foreign key points at it. */
  function DropTable(s: Schema, t: Name): Result<Schema, Error> {
    if exists o :: o in s && IsForeign(s, o) && o.table != t && s[o].def.target == t then Err(Referenced)
    else Ok(map p | p in s && p.table != t :: s[p])
  }

  // ------------------------------------------------------------------- plan

  /** A table with its own columns and constraints, and whether an owned but
      incomplete one is accepted and then repaired. */
  datatype TableSpec = TableSpec(
    name: Name, contents: map<Obj, Def>, partial: bool, repairs: seq<Step>, indexes: seq<IndexSpec>)

  datatype IndexSpec = IndexSpec(name: Name, columns: seq<Name>, unique: bool, filter: string)

  datatype LinkSpec = LinkSpec(table: Name, column: Name, fk: Name, target: Name, referred: seq<Name>, index: Name)

  datatype UniqueSpec = UniqueSpec(name: Name, table: Name, columns: seq<Name>)

  datatype ForeignSpec = ForeignSpec(name: Name, table: Name, columns: seq<Name>, target: Name, referred: seq<Name>)

  datatype Plan = Plan(
    tables: seq<TableSpec>, links: seq<LinkSpec>, settings: Name, switches: seq<Name>,
    legacy: UniqueSpec, partials: seq<IndexSpec>, uniques: seq<UniqueSpec>, foreigns: seq<ForeignSpec>)

  /** One guarded unit of the upgrade. */
  datatype Step =
    | NewTable(spec: TableSpec)
    | RepairColumn(table: Name, name: Name, ddl: string)
    | RepairForeign(foreign: ForeignSpec)
    | RepairUnique(unique: UniqueSpec)
    | RepairCheck(table: Name, required: seq<Name>)
    | NewIndex(table: Name, index: IndexSpec)
    | Link(link: LinkSpec)
    | OwnedColumn(table: Name, name: Name)
    | DropLegacy(table: Name, name: Name)
    | EnsureUnique(unique: UniqueSpec)
    | EnsureForeign(foreign: ForeignSpec)

  function IndexOf(i: IndexSpec): Def { IndexDef(i.columns, i.unique, i.filter) }
  function UniqueOf(u: UniqueSpec): Def { UniqueDef(u.columns) }
  function ForeignOf(f: ForeignSpec): Def { ForeignDef(f.columns, f.target, f.referred) }
  function LinkOf(l: LinkSpec): Def { ForeignDef([l.column], l.target, l.referred) }

  const BIGINT: Def := ColumnDef("BIGINT NULL")
  const SWITCH: Def := ColumnDef("BOOLEAN NOT NULL DEFAULT false")

  /** _validate_owned_table_shape. */
  predicate Complete(s: Schema, spec: TableSpec) {
    forall o :: o in spec.contents ==> Present(s, spec.name, o, spec.contents[o])
  }

  predicate Present(s: Schema, t: Name, o: Obj, def: Def) {
    match def
    case ColumnDef(_) => o in s
    case PrimaryDef(c) => exists p :: p in s && p.kind.Constraint? && p.table == t && s[p].def.PrimaryDef? && AsSet(s[p].def.columns) == AsSet(c)
    case UniqueDef(c) => o in s && s[o].def.UniqueDef? && AsSet(s[o].def.columns) == AsSet(c)
    case ForeignDef(c, target, _) => HasForeign(s, t, c, target)
    case TableDef => true
    case IndexDef(_, _, _) => true
  }

  predicate TargetsExist(s: Schema, spec: TableSpec) {
    forall o :: o in spec.contents && spec.contents[o].ForeignDef? ==> spec.contents[o].target == spec.name || Tab(spec.contents[o].target) in s
  }

  function CreateTable(s: Schema, spec: TableSpec): Schema {
    s + (map o | o in spec.contents :: Entry(spec.contents[o], None)) + map[Tab(spec.name) := Entry(TableDef, OWNED)]
  }

  function PutIf(guard: bool, s: Schema, o: Obj, def: Def, comment: Option<string>): Result<Schema, Error> {
    if guard then Put(s, o, def, comment) else Ok(s)
  }

  /** One unit: its guard, its change, its refusals. */
  function Apply(s: Schema, step: Step): Result<Schema, Error> {
    match step
    case NewTable(spec) =>
      if Tab(spec.name) in s then
        if !IsOwned(s, Tab(spec.name)) then Err(NotAdopted)
        else if !spec.partial && !Complete(s, spec) then Err(Incomplete)
        else Ok(s)
      else if !TargetsExist(s, spec) then Err(Missing)
      else Ok(CreateTable(s, spec))
    case RepairColumn(t, c, ddl) => PutIf(Tab(t) in s && Col(t, c) !in s, s, Col(t, c), ColumnDef(ddl), None)
    case RepairForeign(f) =>
      PutIf(Tab(f.table) in s && !HasForeign(s, f.table, f.columns, f.target), s, Con(f.table, f.name), ForeignOf(f), None)
    case RepairUnique(u) => PutIf(Tab(u.table) in s && !HasUnique(s, u.table, u.name), s, Con(u.table, u.name), UniqueOf(u), None)
    case RepairCheck(t, required) => if Tab(t) in s && !HasColumns(s, t, required) then Err(Incomplete) else Ok(s)
    case NewIndex(t, i) => PutIf(Tab(t) in s && Idx(t, i.name) !in s, s, Idx(t, i.name), IndexOf(i), OWNED)
    case Link(l) =>
      if Tab(l.table) !in s || Col(l.table, l.column) in s then Ok(s)
      else Put(s[Col(l.table, l.column) := Entry(BIGINT, OWNED)], Con(l.table, l.fk), LinkOf(l), OWNED)
    case OwnedColumn(t, c) => PutIf(Tab(t) in s && Col(t, c) !in s, s, Col(t, c), SWITCH, OWNED)
    case DropLegacy(t, n) => if HasUnique(s, t, n) then Ok(Remove(s, Con(t, n))) else Ok(s)
    case EnsureUnique(u) =>
      PutIf(HasColumns(s, u.table, u.columns) && !HasUnique(s, u.table, u.name), s, Con(u.table, u.name), UniqueOf(u), OWNED)
    case EnsureForeign(f) =>
      PutIf(HasColumns(s, f.table, f.columns) && HasColumns(s, f.target, f.referred) && !HasForeign(s, f.table, f.columns, f.target),
        s, Con(f.table, f.name), ForeignOf(f), OWNED)
  }

  function Run(s: Schema, steps: seq<Step>): Result<Schema, Error> {
    if steps == [] then Ok(s)
    else
      var mid := Run(s, Front(steps));
      if mid.Err? then mid else Apply(mid.value, Last(steps))
  }

  // ------------------------------------------------------------ program order

  function TableSteps(spec: TableSpec): seq<Step> {
    [NewTable(spec)] + spec.repairs + IndexSteps(spec.name, spec.indexes)
  }

  function IndexSteps(t: Name, indexes: seq<IndexSpec>): seq<Step> {
    seq(|indexes|, k requires 0 <= k < |indexes| => NewIndex(t, indexes[k]))
  }

  function LinkSteps(l: LinkSpec): seq<Step> {
    [Link(l), NewIndex(l.table, IndexSpec(l.index, [l.column], false, ""))]
  }

  function TableStage(plan: Plan): seq<Step> { FlatMap(plan.tables, TableSteps) }

  function LinkStage(plan: Plan): seq<Step> { FlatMap(plan.links, LinkSteps) }

  function SwitchStage(plan: Plan): seq<Step> {
    seq(|plan.switches|, k requires 0 <= k < |plan.switches| => OwnedColumn(plan.settings, plan.switches[k]))
  }

  function LegacyStage(plan: Plan): seq<Step> {
    [DropLegacy(plan.legacy.table, plan.legacy.name)] + IndexSteps(plan.legacy.table, plan.partials)
  }

  function UniqueStage(plan: Plan): seq<Step> {
    seq(|plan.uniques|, k requires 0 <= k < |plan.uniques| => EnsureUnique(plan.uniques[k]))
  }

  function ForeignStage(plan: Plan): seq<Step> {
    seq(|plan.foreigns|, k requires 0 <= k < |plan.foreigns| => EnsureForeign(plan.foreigns[k]))
  }

  function Upgrade(plan: Plan): seq<Step> {
    TableStage(plan) + (LinkStage(plan) + (SwitchStage(plan) + (LegacyStage(plan) + (UniqueStage(plan) + ForeignStage(plan)))))
  }

  // ------------------------------------------------------------------- retry

  /** Running the unit again changes nothing. */
  predicate Settled(s: Schema, step: Step) { Apply(s, step) == Ok(s) }

  predicate Creates(step: Step, t: Name) { step.NewTable? && step.spec.name == t }

  /** A later unit neither supplies what an earlier one found missing nor takes
      away what an earlier one made. */
  predicate Compatible(u: Step, v: Step) {
    match u
    case NewTable(spec) => v.DropLegacy? ==> v.table != spec.name
    case RepairUnique(u) => !Creates(v, u.table) && (v.DropLegacy? ==> v.table != u.table)
    case RepairColumn(t, _, _) => !Creates(v, t)
    case RepairForeign(f) => !Creates(v, f.table)
    case RepairCheck(t, _) => !Creates(v, t)
    case NewIndex(t, _) => !Creates(v, t)
    case Link(l) => !Creates(v, l.table)
    case OwnedColumn(t, _) => !Creates(v, t)
    case DropLegacy(t, n) => v.NewIndex? || (v.EnsureUnique? && (v.unique.table, v.unique.name) != (t, n)) || (v.EnsureForeign? && (v.foreign.table, v.foreign.name) != (t, n))
    case EnsureUnique(_) => v.EnsureUnique? || v.EnsureForeign?
    case EnsureForeign(_) => v.EnsureForeign?
  }

  predicate StepOk(step: Step) { step.NewTable? ==> ContentsOk(step.spec) }

  lemma ApplySettles(s: Schema, step: Step)
    requires StepOk(step) && Apply(s, step).Ok?
    ensures Settled(Apply(s, step).value, step)
  {
    var s' := Apply(s, step).value;
    match step
    case NewTable(spec) =>
      if Tab(spec.name) !in s { CreatedIsComplete(s, spec); }
    case RepairForeign(f) =>
      if s' != s { assert IsForeign(s', Con(f.table, f.name)); }
    case EnsureForeign(f) =>
      if s' != s { assert IsForeign(s', Con(f.table, f.name)); }
    case _ =>
  }

  /** What one unit can change: rows that were there stay, except the legacy
      constraint, and only some units make tables or columns. */
  lemma ApplyGrows(s: Schema, step: Step)
    requires StepOk(step) && Apply(s, step).Ok?
    ensures var s' := Apply(s, step).value;
      && (forall o :: o in s && !(step.DropLegacy? && o == Con(step.table, step.name)) && !(step.NewTable? && o.table == step.spec.name && Tab(o.table) !in s) ==> o in s' && s'[o] == s[o])
      && (forall t :: Tab(t) in s' && Tab(t) !in s ==> Creates(step, t))
  {
  }

  lemma CreatedIsComplete(s: Schema, spec: TableSpec)
    requires ContentsOk(spec)
    ensures Complete(CreateTable(s, spec), spec)
  {
    var s' := CreateTable(s, spec);
    forall o | o in spec.contents ensures Present(s', spec.name, o, spec.contents[o]) {
      assert s'[o] == Entry(spec.contents[o], None);
      if spec.contents[o].ForeignDef? { assert IsForeign(s', o); }
    }
  }

  /** A table's own objects: columns, and constraints over them. */
  predicate ContentsOk(spec: TableSpec) {
    forall o :: o in spec.contents ==>
      o.table == spec.name && o != Tab(spec.name)
      && (if o.kind.Column? then spec.contents[o].ColumnDef? else o.kind.Constraint? && (spec.contents[o].PrimaryDef? || spec.contents[o].UniqueDef? || spec.contents[o].ForeignDef?))
      && forall c :: c in Columns(spec.contents[o]) ==> Col(spec.name, c) in spec.contents
  }

  /** A table whose objects all stay still has what it had. */
  lemma TableStays(s: Schema, s': Schema, t: Name, spec: TableSpec)
    requires forall o :: o in s && o.table == t ==> o in s' && s'[o] == s[o]
    ensures forall columns, target :: HasForeign(s, t, columns, target) ==> HasForeign(s', t, columns, target)
    ensures spec.name == t && ContentsOk(spec) && Complete(s, spec) ==> Complete(s', spec)
  {
    forall columns, target | HasForeign(s, t, columns, target) ensures HasForeign(s', t, columns, target) {
      var o :| o in s && IsForeign(s, o) && o.table == t && AsSet(s[o].def.columns) == AsSet(columns) && s[o].def.target == target;
      assert IsForeign(s', o);
    }
    if spec.name == t && ContentsOk(spec) && Complete(s, spec) {
      forall o | o in spec.contents ensures Present(s', t, o, spec.contents[o]) {
        assert Present(s, t, o, spec.contents[o]);
      }
    }
  }

  predicate Keeps(s: Schema, s': Schema, t: Name) {
    && (Tab(t) in s <==> Tab(t) in s')
    && forall o :: o in s && o.table == t ==> o in s' && s'[o] == s[o]
  }

  lemma KeepsTable(s: Schema, v: Step, t: Name)
    requires StepOk(v) && Apply(s, v).Ok? && !Creates(v, t) && (v.DropLegacy? ==> v.table != t)
    ensures Keeps(s, Apply(s, v).value, t)
  {
    ApplyGrows(s, v);
  }

  lemma ApplyKeepsSettled(s: Schema, u: Step, v: Step)
    requires StepOk(u) && StepOk(v) && Settled(s, u) && Compatible(u, v) && Apply(s, v).Ok?
    ensures Settled(Apply(s, v).value, u)
  {
    var s' := Apply(s, v).value;
    match u
    case NewTable(spec) =>
      assert Tab(spec.name) in s;
      if !Creates(v, spec.name) { KeepsTable(s, v, spec.name); TableStays(s, s', spec.name, spec); }
    case RepairUnique(q) => KeepsTable(s, v, q.table);
    case RepairForeign(_) => ForeignKept(s, u, v);
    case EnsureForeign(_) => ForeignKept(s, u, v);
    case EnsureUnique(q) => KeepsTable(s, v, q.table);
    case DropLegacy(t, n) => ApplyGrows(s, v);
    case _ => ApplyGrows(s, v);
  }

  lemma ForeignsStay(s: Schema, v: Step, t: Name)
    requires StepOk(v) && Apply(s, v).Ok? && (Tab(t) in s || !Creates(v, t))
    ensures forall columns, target :: HasForeign(s, t, columns, target) ==> HasForeign(Apply(s, v).value, t, columns, target)
  {
    ApplyGrows(s, v);
    var s' := Apply(s, v).value;
    forall columns, target | HasForeign(s, t, columns, target) ensures HasForeign(s', t, columns, target) {
      var o :| o in s && IsForeign(s, o) && o.table == t && AsSet(s[o].def.columns) == AsSet(columns) && s[o].def.target == target;
      LegacyIsUnique(s, v, o);
      assert IsForeign(s', o);
    }
  }

  lemma LegacyIsUnique(s: Schema, v: Step, o: Obj)
    requires StepOk(v) && Apply(s, v).Ok? && IsForeign(s, o) && (Tab(o.table) in s || !Creates(v, o.table))
    ensures o in Apply(s, v).value && Apply(s, v).value[o] == s[o]
  {
    ApplyGrows(s, v);
  }

  lemma ForeignKept(s: Schema, u: Step, v: Step)
    requires u.RepairForeign? || u.EnsureForeign?
    requires StepOk(u) && StepOk(v) && Settled(s, u) && Compatible(u, v) && Apply(s, v).Ok?
    ensures Settled(Apply(s, v).value, u)
  {
    hide HasForeign, AsSet, HasColumns;
    var s' := Apply(s, v).value;
    ApplyGrows(s, v);
    if u.RepairForeign? {
      ForeignsStay(s, v, u.foreign.table);
    } else {
      ForeignsStay(s, v, u.foreign.table);
      SameColumns(s, v, u.foreign.table, u.foreign.columns);
      SameColumns(s, v, u.foreign.target, u.foreign.referred);
    }
  }

  /** The two last stages add constraints only. */
  lemma SameColumns(s: Schema, v: Step, t: Name, columns: seq<Name>)
    requires (v.EnsureUnique? || v.EnsureForeign?) && Apply(s, v).Ok?
    ensures HasColumns(Apply(s, v).value, t, columns) <==> HasColumns(s, t, columns)
  {
  }

  predicate AllOk(steps: seq<Step>) { forall u :: u in steps ==> StepOk(u) }

  ghost predicate InOrder(steps: seq<Step>) { forall i, j :: 0 <= i < j < |steps| ==> Compatible(steps[i], steps[j]) }

  predicate AllSettled(s: Schema, steps: seq<Step>) { forall u :: u in steps ==> Settled(s, u) }

  lemma {:induction false} RunSettles(s: Schema, steps: seq<Step>)
    requires AllOk(steps) && InOrder(steps) && Run(s, steps).Ok?
    ensures AllSettled(Run(s, steps).value, steps)
  {
    hide Apply, Compatible, StepOk;
    if steps != [] {
      var front, last := Front(steps), Last(steps);
      assert forall u :: u in front ==> u in steps;
      assert last in steps;
      RunSettles(s, front);
      var mid := Run(s, front).value;
      ApplySettles(mid, last);
      forall u | u in steps ensures Settled(Apply(mid, last).value, u) {
        if u in front {
          var i :| 0 <= i < |front| && front[i] == u;
          assert steps[i] == u && steps[|steps| - 1] == last;
          ApplyKeepsSettled(mid, u, last);
        } else {
          assert u == last;
        }
      }
    }
  }

  lemma {:induction false} SettledRun(s: Schema, steps: seq<Step>)
    requires AllSettled(s, steps)
    ensures Run(s, steps) == Ok(s)
  {
    hide Apply;
    if steps != [] {
      assert forall u :: u in Front(steps) ==> u in steps;
      SettledRun(s, Front(steps));
      assert Last(steps) in steps && Settled(s, Last(steps));
    }
  }

  lemma {:induction false} RunAppend(s: Schema, a: seq<Step>, b: seq<Step>)
    requires Run(s, a).Ok?
    ensures Run(s, a + b) == Run(Run(s, a).value, b)
  {
    hide Apply;
    if b == [] {
      assert a + b == a;
    } else {
      assert Front(a + b) == a + Front(b) && Last(a + b) == Last(b);
      RunAppend(s, a, Front(b));
    }
  }

  lemma PrefixOk(steps: seq<Step>, k: nat)
    requires AllOk(steps) && InOrder(steps) && k <= |steps|
    ensures AllOk(steps[..k]) && InOrder(steps[..k])
  {
    hide Compatible, StepOk;
    forall i, j | 0 <= i < j < k ensures Compatible(steps[..k][i], steps[..k][j]) {
      assert Compatible(steps[i], steps[j]);
    }
  }

  /** Two attempts, the first interrupted after k units and the second after j,
      are together the longer of the two. */
  lemma Attempts(s: Schema, steps: seq<Step>, k: nat, j: nat)
    requires AllOk(steps) && InOrder(steps) && k <= |steps| && j <= |steps|
    requires Run(s, steps[..k]).Ok? 
    ensures Run(Run(s, steps[..k]).value, steps[..j]) == Run(s, steps[..if j <= k then k else j])
  {
    hide Run, InOrder, AllOk;
    var mid := Run(s, steps[..k]).value;
    PrefixOk(steps, k);
    RunSettles(s, steps[..k]);
    if j <= k {
      assert forall u :: u in steps[..j] ==> u in steps[..k];
      SettledRun(mid, steps[..j]);
    } else {
      SettledRun(mid, steps[..k]);
      assert steps[..j] == steps[..k] + steps[k..j];
      RunAppend(mid, steps[..k], steps[k..j]);
      RunAppend(s, steps[..k], steps[k..j]);
    }
  }

  // --------------------------------------------------------- a sensible plan

  function TableNames(plan: Plan): seq<Name> {
    seq(|plan.tables|, k requires 0 <= k < |plan.tables| => plan.tables[k].name)
  }

  predicate IsNew(plan: Plan, t: Name) { exists spec :: spec in plan.tables && spec.name == t }

  predicate IsRepair(r: Step, t: Name) {
    match r
    case RepairColumn(u, _, _) => u == t
    case RepairForeign(f) => f.table == t
    case RepairUnique(q) => q.table == t
    case RepairCheck(u, _) => u == t
    case _ => false
  }

  predicate LegacyFree(plan: Plan, t: Name, n: Name) { (t, n) != (plan.legacy.table, plan.legacy.name) }

  /** What the two directions need of the names: new tables are named once, no
      link, switch or legacy table is one of them, and nothing else is called
      like the legacy constraint. */
  ghost predicate PlanOk(plan: Plan) {
    && Distinct(TableNames(plan))
    && (forall spec :: spec in plan.tables ==> ContentsOk(spec) && forall r :: r in spec.repairs ==> IsRepair(r, spec.name))
    && (forall l :: l in plan.links ==> !IsNew(plan, l.table) && LegacyFree(plan, l.table, l.fk))
    && !IsNew(plan, plan.settings) && !IsNew(plan, plan.legacy.table)
    && (forall u :: u in plan.uniques ==> LegacyFree(plan, u.table, u.name))
    && (forall f :: f in plan.foreigns ==> LegacyFree(plan, f.table, f.name))
  }

  // ---------------------------------------------------- the plan is in order

  lemma InOrderAppend(a: seq<Step>, b: seq<Step>)
    requires InOrder(a) && InOrder(b) && forall u, v :: u in a && v in b ==> Compatible(u, v)
    ensures InOrder(a + b)
  {
    hide Compatible;
    var both := a + b;
    forall i, j | 0 <= i < j < |both| ensures Compatible(both[i], both[j]) {
      if j < |a| { assert Compatible(a[i], a[j]); }
      else if i >= |a| { assert Compatible(b[i - |a|], b[j - |a|]); }
      else { assert both[i] in a && both[j] in b; }
    }
  }

  /** No unit of the list makes a table or removes the legacy constraint. */
  predicate Mild(steps: seq<Step>) { forall v :: v in steps ==> !v.NewTable? && !v.DropLegacy? }

  predicate OnTable(step: Step, t: Name) {
    Creates(step, t) || IsRepair(step, t) || (step.NewIndex? && step.table == t)
  }

  lemma TableStepsInOrder(spec: TableSpec)
    requires forall r :: r in spec.repairs ==> IsRepair(r, spec.name)
    ensures InOrder(TableSteps(spec)) && forall u :: u in TableSteps(spec) ==> OnTable(u, spec.name)
  {
    var rest := spec.repairs + IndexSteps(spec.name, spec.indexes);
    assert TableSteps(spec) == [NewTable(spec)] + rest;
    forall u | u in rest ensures IsRepair(u, spec.name) || (u.NewIndex? && u.table == spec.name) {
      assert u in spec.repairs || u in IndexSteps(spec.name, spec.indexes);
    }
    MildInOrder(rest);
    InOrderAppend([NewTable(spec)], rest);
  }

  lemma {:induction false} TablesInOrder(tables: seq<TableSpec>)
    requires forall spec :: spec in tables ==> forall r :: r in spec.repairs ==> IsRepair(r, spec.name)
    requires forall i, j :: 0 <= i < j < |tables| ==> tables[i].name != tables[j].name
    ensures InOrder(FlatMap(tables, TableSteps))
    ensures forall u :: u in FlatMap(tables, TableSteps) ==> exists spec :: spec in tables && OnTable(u, spec.name)
  {
    if tables != [] {
      var front, last := Front(tables), Last(tables);
      assert forall spec :: spec in front ==> spec in tables;
      assert last in tables;
      TablesInOrder(front);
      TableStepsInOrder(last);
      forall u, v | u in FlatMap(front, TableSteps) && v in TableSteps(last) ensures Compatible(u, v) {
        var spec :| spec in front && OnTable(u, spec.name);
        var i :| 0 <= i < |front| && front[i] == spec;
        assert tables[i].name != tables[|tables| - 1].name;
      }
      InOrderAppend(FlatMap(front, TableSteps), TableSteps(last));
    }
  }

  /** Every unit belongs to the plan. */
  predicate Planned(plan: Plan, u: Step) {
    match u
    case NewTable(spec) => spec in plan.tables
    case RepairColumn(t, _, _) => IsNew(plan, t)
    case RepairForeign(f) => IsNew(plan, f.table)
    case RepairUnique(q) => IsNew(plan, q.table)
    case RepairCheck(t, _) => IsNew(plan, t)
    case NewIndex(t, i) =>
      || IsNew(plan, t)
      || (exists l :: l in plan.links && l.table == t && l.index == i.name && i.columns == [l.column])
      || (t == plan.legacy.table && i in plan.partials)
    case Link(l) => l in plan.links
    case OwnedColumn(t, c) => t == plan.settings && c in plan.switches
    case DropLegacy(t, n) => (t, n) == (plan.legacy.table, plan.legacy.name)
    case EnsureUnique(u) => u in plan.uniques
    case EnsureForeign(f) => f in plan.foreigns
  }

  predicate AllPlanned(plan: Plan, steps: seq<Step>) { forall u :: u in steps ==> Planned(plan, u) }

  lemma TableStagePlanned(plan: Plan)
    requires PlanOk(plan)
    ensures AllPlanned(plan, TableStage(plan)) && InOrder(TableStage(plan))
    ensures forall u :: u in TableStage(plan) ==> !u.Link? && !u.OwnedColumn? && !u.DropLegacy? && !u.EnsureUnique? && !u.EnsureForeign?
    ensures forall u :: u in TableStage(plan) && u.NewIndex? ==> IsNew(plan, u.table)
  {
    FlatMapMembers(plan.tables, TableSteps);
    forall u | u in TableStage(plan) ensures Planned(plan, u) && exists spec :: spec in plan.tables && (u == NewTable(spec) || IsRepair(u, spec.name) || (u.NewIndex? && u.table == spec.name)) {
      var spec :| spec in plan.tables && u in TableSteps(spec);
    }
    assert forall i :: 0 <= i < |plan.tables| ==> TableNames(plan)[i] == plan.tables[i].name;
    TablesInOrder(plan.tables);
  }

  lemma LinkStagePlanned(plan: Plan)
    requires PlanOk(plan)
    ensures AllPlanned(plan, LinkStage(plan)) && Mild(LinkStage(plan)) && InOrder(LinkStage(plan))
    ensures forall u :: u in LinkStage(plan) ==> u.Link? || u.NewIndex?
  {
    FlatMapMembers(plan.links, LinkSteps);
    forall u | u in LinkStage(plan) ensures Planned(plan, u) && (u.Link? || u.NewIndex?) {
      var l :| l in plan.links && u in LinkSteps(l);
      if u.NewIndex? { assert u == NewIndex(l.table, IndexSpec(l.index, [l.column], false, "")); }
    }
    MildInOrder(LinkStage(plan));
  }

  lemma MildInOrder(steps: seq<Step>)
    requires Mild(steps) && forall u :: u in steps ==> !u.EnsureUnique? && !u.EnsureForeign?
    ensures InOrder(steps)
  {
  }

  lemma TailPlanned(plan: Plan)
    requires PlanOk(plan)
    ensures var tail := LegacyStage(plan) + (UniqueStage(plan) + ForeignStage(plan));
      AllPlanned(plan, tail) && InOrder(tail)
      && forall v :: v in tail ==> !v.NewTable? && (v.DropLegacy? ==> v.table == plan.legacy.table)
  {
    var partials := IndexSteps(plan.legacy.table, plan.partials);
    forall v | v in partials ensures Planned(plan, v) && v.NewIndex? {
      var k :| 0 <= k < |plan.partials| && v == NewIndex(plan.legacy.table, plan.partials[k]);
      assert plan.partials[k] in plan.partials;
    }
    assert InOrder(partials);
    InOrderAppend([DropLegacy(plan.legacy.table, plan.legacy.name)], partials);
    InOrderAppend(UniqueStage(plan), ForeignStage(plan));
    InOrderAppend(LegacyStage(plan), UniqueStage(plan) + ForeignStage(plan));
  }

  /** The program order of the migration satisfies every dependency. */
  lemma UpgradeInOrder(plan: Plan)
    requires PlanOk(plan)
    ensures AllOk(Upgrade(plan)) && InOrder(Upgrade(plan)) && AllPlanned(plan, Upgrade(plan))
  {
    hide TableStage, LinkStage, LegacyStage, UniqueStage, ForeignStage;
    TableStagePlanned(plan);
    LinkStagePlanned(plan);
    TailPlanned(plan);
    var tail := LegacyStage(plan) + (UniqueStage(plan) + ForeignStage(plan));
    assert Mild(SwitchStage(plan)) && AllPlanned(plan, SwitchStage(plan));
    MildInOrder(SwitchStage(plan));
    InOrderAppend(SwitchStage(plan), tail);
    InOrderAppend(LinkStage(plan), SwitchStage(plan) + tail);
    forall u, v | u in TableStage(plan) && v in LinkStage(plan) + (SwitchStage(plan) + tail) ensures Compatible(u, v) {
      assert !v.NewTable? && (v.DropLegacy? ==> v.table == plan.legacy.table);
      TableThenRest(plan, u, v);
    }
    InOrderAppend(TableStage(plan), LinkStage(plan) + (SwitchStage(plan) + tail));
    assert forall u :: u in Upgrade(plan) ==> Planned(plan, u);
  }

  lemma TableThenRest(plan: Plan, u: Step, v: Step)
    requires PlanOk(plan) && Planned(plan, u) && !v.NewTable? && (v.DropLegacy? ==> v.table == plan.legacy.table)
    requires u.NewTable? || u.RepairColumn? || u.RepairForeign? || u.RepairUnique? || u.RepairCheck? || u.NewIndex?
    ensures Compatible(u, v)
  {
  }

  /** Retrying after an interruption: a run that stops after any unit, and then
      any number of further attempts stopped anywhere, reach what the longest
      attempt reaches; so a full run after them is one full run, and running
      the whole upgrade again changes nothing. */
  lemma {:induction false} Retry(plan: Plan, s: Schema, cuts: seq<nat>)
    requires PlanOk(plan) && Run(s, Upgrade(plan)).Ok?
    requires forall k :: k in cuts ==> k <= |Upgrade(plan)|
    ensures RunAttempts(s, plan, cuts) == Run(s, Upgrade(plan)[..Furthest(cuts, |Upgrade(plan)|)])
    ensures RunAttempts(s, plan, cuts + [|Upgrade(plan)|]) == Run(s, Upgrade(plan))
  {
    hide Run, InOrder, AllOk, PlanOk, Upgrade;
    var steps := Upgrade(plan);
    UpgradeInOrder(plan);
    AttemptsAreFurthest(plan, s, cuts);
    var all := cuts + [|steps|];
    AttemptsAreFurthest(plan, s, all);
    FrontOfSnoc(cuts, |steps|);
    assert steps[..|steps|] == steps;
  }

  function RunAttempts(s: Schema, plan: Plan, cuts: seq<nat>): Result<Schema, Error>
    requires forall k :: k in cuts ==> k <= |Upgrade(plan)|
  {
    if cuts == [] then Ok(s)
    else
      assert forall k :: k in Front(cuts) ==> k in cuts;
      assert Last(cuts) in cuts;
      var mid := RunAttempts(s, plan, Front(cuts));
      if mid.Err? then mid else Run(mid.value, Upgrade(plan)[..Last(cuts)])
  }

  function Furthest(cuts: seq<nat>, n: nat): (far: nat)
    requires forall k :: k in cuts ==> k <= n
    ensures far <= n
  {
    if cuts == [] then 0
    else
      assert forall k :: k in Front(cuts) ==> k in cuts;
      assert Last(cuts) in cuts;
      var before := Furthest(Front(cuts), n);
      if Last(cuts) <= before then before else Last(cuts)
  }

  lemma {:induction false} PrefixRuns(s: Schema, steps: seq<Step>, k: nat)
    requires k <= |steps| && Run(s, steps).Ok?
    ensures Run(s, steps[..k]).Ok?
  {
    hide Apply;
    if k == |steps| {
      assert steps[..k] == steps;
    } else {
      assert Front(steps)[..k] == steps[..k];
      PrefixRuns(s, Front(steps), k);
    }
  }

  lemma {:induction false} AttemptsAreFurthest(plan: Plan, s: Schema, cuts: seq<nat>)
    requires AllOk(Upgrade(plan)) && InOrder(Upgrade(plan)) && Run(s, Upgrade(plan)).Ok?
    requires forall k :: k in cuts ==> k <= |Upgrade(plan)|
    ensures RunAttempts(s, plan, cuts) == Run(s, Upgrade(plan)[..Furthest(cuts, |Upgrade(plan)|)])
  {
    hide InOrder, AllOk, Upgrade, Apply;
    if cuts != [] {
      var front, steps := Front(cuts), Upgrade(plan);
      assert forall k :: k in front ==> k in cuts;
      assert Last(cuts) in cuts;
      AttemptsAreFurthest(plan, s, front);
      var far := Furthest(front, |steps|);
      PrefixRuns(s, steps, far);
      Attempts(s, steps, far, Last(cuts));
    }
  }
}
