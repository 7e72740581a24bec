/** What migration 138 leaves in a schema, told entry by entry and in literals:
    what it makes, that it makes nothing else, when each unit is refused, and a
    condition under which none is. */
module SchemaFacts {
  import opened Common
  import opened SchemaMigration
  import opened SchemaRoundTrip
  import opened SchemaRefusals

  const MARK: Option<string> := Some("versya:alembic:138_campaign_data:owned")

  // ------------------------------------------------------------ reading a schema

  ghost predicate TableIn(s: Schema, t: Name) { Obj(Table, t, "") in s }

  ghost predicate ColumnIn(s: Schema, t: Name, c: Name) { Obj(Column, t, c) in s }

  ghost predicate ColumnsIn(s: Schema, t: Name, columns: seq<Name>) { TableIn(s, t) && forall c :: c in columns ==> ColumnIn(s, t, c) }

  /** A unique constraint of that name. */
  ghost predicate UniqueIn(s: Schema, t: Name, n: Name) {
    TableIn(s, t) && Obj(Constraint, t, n) in s && s[Obj(Constraint, t, n)].def.UniqueDef?
  }

  ghost predicate SameNames(a: seq<Name>, b: seq<Name>) { forall c :: c in a <==> c in b }

  /** A foreign key over these columns to that table, whatever its name. */
  ghost predicate KeyIn(s: Schema, t: Name, columns: seq<Name>, target: Name) {
    TableIn(s, t) && exists o :: o in s && IsKey(s, o, t, columns, target)
  }

  ghost predicate IsKey(s: Schema, o: Obj, t: Name, columns: seq<Name>, target: Name)
    requires o in s
  {
    o.kind == Constraint && o.table == t && s[o].def.ForeignDef? && SameNames(s[o].def.columns, columns) && s[o].def.target == target
  }

  /** The shape that is asked of a table the revision already owns: its columns,
      a primary key over the right columns, its unique constraints by name and
      columns, its foreign keys by columns and target. */
  ghost predicate Shape(s: Schema, spec: TableSpec) {
    forall o :: o in spec.contents ==>
      match spec.contents[o]
      case ColumnDef(_) => o in s
      case PrimaryDef(cs) => exists p :: p in s && p.kind == Constraint && p.table == spec.name && s[p].def.PrimaryDef? && SameNames(s[p].def.columns, cs)
      case UniqueDef(cs) => o in s && s[o].def.UniqueDef? && SameNames(s[o].def.columns, cs)
      case ForeignDef(cs, target, _) => KeyIn(s, spec.name, cs, target)
      case _ => true
  }

  lemma ColumnsAre(s: Schema, t: Name, columns: seq<Name>)
    ensures HasColumns(s, t, columns) <==> ColumnsIn(s, t, columns)
  {
  }

  lemma UniqueIs(s: Schema, t: Name, n: Name)
    ensures HasUnique(s, t, n) <==> UniqueIn(s, t, n)
  {
  }

  lemma SetsAre(a: seq<Name>, b: seq<Name>)
    ensures AsSet(a) == AsSet(b) <==> SameNames(a, b)
  {
    assert forall c :: (c in a <==> c in AsSet(a)) && (c in b <==> c in AsSet(b));
  }

  lemma KeyIs(s: Schema, t: Name, columns: seq<Name>, target: Name)
    ensures HasForeign(s, t, columns, target) <==> KeyIn(s, t, columns, target)
  {
    hide AsSet, SameNames;
    forall o | IsForeign(s, o) && o.table == t
      ensures (AsSet(s[o].def.columns) == AsSet(columns) && s[o].def.target == target) <==> IsKey(s, o, t, columns, target)
    {
      SetsAre(s[o].def.columns, columns);
    }
    forall o | o in s && IsKey(s, o, t, columns, target) ensures IsForeign(s, o) { }
  }

  lemma ShapeIs(s: Schema, spec: TableSpec)
    ensures Complete(s, spec) <==> Shape(s, spec)
  {
    hide AsSet, SameNames, HasForeign, KeyIn;
    forall a, b ensures AsSet(a) == AsSet(b) <==> SameNames(a, b) { SetsAre(a, b); }
    forall t, cs, target ensures HasForeign(s, t, cs, target) <==> KeyIn(s, t, cs, target) { KeyIs(s, t, cs, target); }
  }

  // ------------------------------------------------------------- what is made

  /** The entries one unit can make, in full. */
  ghost predicate Makes(u: Step, o: Obj, e: Entry) {
    match u
    case NewTable(spec) =>
      (o == Obj(Table, spec.name, "") && e == Entry(TableDef, MARK)) || (o in spec.contents && e == Entry(spec.contents[o], None))
    case RepairColumn(t, c, ddl) => o == Obj(Column, t, c) && e == Entry(ColumnDef(ddl), None)
    case RepairForeign(f) => o == Obj(Constraint, f.table, f.name) && e == Entry(ForeignDef(f.columns, f.target, f.referred), None)
    case RepairUnique(q) => o == Obj(Constraint, q.table, q.name) && e == Entry(UniqueDef(q.columns), None)
    case RepairCheck(_, _) => false
    case NewIndex(t, i) => o == Obj(Index, t, i.name) && e == Entry(IndexDef(i.columns, i.unique, i.filter), MARK)
    case Link(l) =>
      || (o == Obj(Column, l.table, l.column) && e == Entry(ColumnDef("BIGINT NULL"), MARK))
      || (o == Obj(Constraint, l.table, l.fk) && e == Entry(ForeignDef([l.column], l.target, l.referred), MARK))
    case OwnedColumn(t, c) => o == Obj(Column, t, c) && e == Entry(ColumnDef("BOOLEAN NOT NULL DEFAULT false"), MARK)
    case DropLegacy(_, _) => false
    case EnsureUnique(q) => o == Obj(Constraint, q.table, q.name) && e == Entry(UniqueDef(q.columns), MARK)
    case EnsureForeign(f) => o == Obj(Constraint, f.table, f.name) && e == Entry(ForeignDef(f.columns, f.target, f.referred), MARK)
  }

  /** A unit leaves every entry as it was or makes it as above. */
  lemma UnitMakes(s: Schema, u: Step)
    requires Apply(s, u).Ok?
    ensures var s' := Apply(s, u).value; forall o :: o in s' ==> (o in s && s'[o] == s[o]) || Makes(u, o, s'[o])
  {
  }

  lemma {:induction false} RunMakes(s: Schema, steps: seq<Step>)
    requires Run(s, steps).Ok?
    ensures var s' := Run(s, steps).value; forall o :: o in s' ==> (o in s && s'[o] == s[o]) || exists u :: u in steps && Makes(u, o, s'[o])
  {
    hide Apply, Makes;
    if steps != [] {
      RunMakes(s, Front(steps));
      UnitMakes(Run(s, Front(steps)).value, Last(steps));
      assert forall u :: u in Front(steps) ==> u in steps;
      assert Last(steps) in steps;
    }
  }

  /** Every entry that the plan is there to make: the tables with their contents
      and indexes, the repairs, the links with their key and index, the switches,
      the two indexes that replace the legacy constraint, the composite unique
      constraints and foreign keys. */
  ghost predicate Due(plan: Plan, o: Obj, e: Entry) {
    || DueInTable(plan, o, e)
    || (exists l :: l in plan.links && DueForLink(l, o, e))
    || (exists c :: c in plan.switches && o == Obj(Column, plan.settings, c) && e == Entry(ColumnDef("BOOLEAN NOT NULL DEFAULT false"), MARK))
    || (exists i :: i in plan.partials && o == Obj(Index, plan.legacy.table, i.name) && e == Entry(IndexDef(i.columns, i.unique, i.filter), MARK))
    || (exists q :: q in plan.uniques && o == Obj(Constraint, q.table, q.name) && e == Entry(UniqueDef(q.columns), MARK))
    || (exists f :: f in plan.foreigns && o == Obj(Constraint, f.table, f.name) && e == Entry(ForeignDef(f.columns, f.target, f.referred), MARK))
  }

  ghost predicate DueInTable(plan: Plan, o: Obj, e: Entry) {
    exists spec :: spec in plan.tables &&
      (|| (o == Obj(Table, spec.name, "") && e == Entry(TableDef, MARK))
       || (o in spec.contents && e == Entry(spec.contents[o], None))
       || (exists r :: r in spec.repairs && Makes(r, o, e))
       || (exists i :: i in spec.indexes && o == Obj(Index, spec.name, i.name) && e == Entry(IndexDef(i.columns, i.unique, i.filter), MARK)))
  }

  ghost predicate DueForLink(l: LinkSpec, o: Obj, e: Entry) {
    || (o == Obj(Column, l.table, l.column) && e == Entry(ColumnDef("BIGINT NULL"), MARK))
    || (o == Obj(Constraint, l.table, l.fk) && e == Entry(ForeignDef([l.column], l.target, l.referred), MARK))
    || (o == Obj(Index, l.table, l.index) && e == Entry(IndexDef([l.column], false, ""), MARK))
  }

  /** The units of the upgrade, by the part of the plan they come from. */
  ghost predicate InTables(plan: Plan, u: Step) {
    exists spec :: spec in plan.tables &&
      (u == NewTable(spec) || u in spec.repairs || exists i :: i in spec.indexes && u == NewIndex(spec.name, i))
  }

  ghost predicate InLinks(plan: Plan, u: Step) {
    exists l :: l in plan.links && (u == Link(l) || u == NewIndex(l.table, IndexSpec(l.index, [l.column], false, "")))
  }

  ghost predicate InRest(plan: Plan, u: Step) {
    || (exists c :: c in plan.switches && u == OwnedColumn(plan.settings, c))
    || u == DropLegacy(plan.legacy.table, plan.legacy.name)
    || (exists i :: i in plan.partials && u == NewIndex(plan.legacy.table, i))
    || (exists q :: q in plan.uniques && u == EnsureUnique(q))
    || (exists f :: f in plan.foreigns && u == EnsureForeign(f))
  }

  lemma TableUnits(plan: Plan, u: Step)
    ensures u in TableStage(plan) <==> InTables(plan, u)
  {
    FlatMapMembers(plan.tables, TableSteps);
    forall spec ensures u in TableSteps(spec) <==> u == NewTable(spec) || u in spec.repairs || exists i :: i in spec.indexes && u == NewIndex(spec.name, i) {
      IndexUnits(spec.name, spec.indexes, u);
    }
  }

  lemma IndexUnits(t: Name, indexes: seq<IndexSpec>, u: Step)
    ensures u in IndexSteps(t, indexes) <==> exists i :: i in indexes && u == NewIndex(t, i)
  {
    if i :| i in indexes && u == NewIndex(t, i) {
      var k :| 0 <= k < |indexes| && indexes[k] == i;
      assert IndexSteps(t, indexes)[k] == u;
    }
  }

  lemma LinkUnits(plan: Plan, u: Step)
    ensures u in LinkStage(plan) <==> InLinks(plan, u)
  {
    FlatMapMembers(plan.links, LinkSteps);
  }

  lemma RestUnits(plan: Plan, u: Step)
    ensures u in SwitchStage(plan) || u in LegacyStage(plan) || u in UniqueStage(plan) || u in ForeignStage(plan) <==> InRest(plan, u)
  {
    IndexUnits(plan.legacy.table, plan.partials, u);
    if c :| c in plan.switches && u == OwnedColumn(plan.settings, c) {
      var k :| 0 <= k < |plan.switches| && plan.switches[k] == c;
      assert SwitchStage(plan)[k] == u;
    }
    if q :| q in plan.uniques && u == EnsureUnique(q) {
      var k :| 0 <= k < |plan.uniques| && plan.uniques[k] == q;
      assert UniqueStage(plan)[k] == u;
    }
    if f :| f in plan.foreigns && u == EnsureForeign(f) {
      var k :| 0 <= k < |plan.foreigns| && plan.foreigns[k] == f;
      assert ForeignStage(plan)[k] == u;
    }
  }

  lemma UpgradeUnits(plan: Plan, u: Step)
    ensures u in Upgrade(plan) <==> InTables(plan, u) || InLinks(plan, u) || InRest(plan, u)
  {
    hide TableStage, LinkStage, SwitchStage, LegacyStage, UniqueStage, ForeignStage, InTables, InLinks, InRest;
    TableUnits(plan, u);
    LinkUnits(plan, u);
    RestUnits(plan, u);
  }

  lemma MadeIsDue(plan: Plan, u: Step, o: Obj, e: Entry)
    requires u in Upgrade(plan) && Makes(u, o, e)
    ensures Due(plan, o, e)
  {
    hide Upgrade;
    UpgradeUnits(plan, u);
    if InTables(plan, u) {
      var spec :| spec in plan.tables && (u == NewTable(spec) || u in spec.repairs || exists i :: i in spec.indexes && u == NewIndex(spec.name, i));
      assert DueInTable(plan, o, e);
    } else if InLinks(plan, u) {
      var l :| l in plan.links && (u == Link(l) || u == NewIndex(l.table, IndexSpec(l.index, [l.column], false, "")));
      assert DueForLink(l, o, e);
    }
  }

  /** Nothing else: from any schema, each entry that the upgrade leaves was there,
      or is one of those, down to its definition and its comment. */
  lemma OnlyDue(plan: Plan, s0: Schema, o: Obj)
    requires Run(s0, Upgrade(plan)).Ok? && o in Run(s0, Upgrade(plan)).value
    ensures var s1 := Run(s0, Upgrade(plan)).value; (o in s0 && s1[o] == s0[o]) || Due(plan, o, s1[o])
  {
    hide Run, Upgrade, Makes, Due;
    var s1 := Run(s0, Upgrade(plan)).value;
    RunMakes(s0, Upgrade(plan));
    if !(o in s0 && s1[o] == s0[o]) {
      var u :| u in Upgrade(plan) && Makes(u, o, s1[o]);
      MadeIsDue(plan, u, o, s1[o]);
    }
  }

  // -------------------------------------------------------- what is then there

  /** What a unit that has nothing left to do finds in the schema. */
  ghost predicate Finds(s: Schema, u: Step) {
    match u
    case NewTable(spec) => TableIn(s, spec.name) && s[Obj(Table, spec.name, "")].comment == MARK && (!spec.partial ==> Shape(s, spec))
    case RepairColumn(t, c, _) => TableIn(s, t) ==> ColumnIn(s, t, c)
    case RepairForeign(f) => TableIn(s, f.table) ==> KeyIn(s, f.table, f.columns, f.target)
    case RepairUnique(q) => TableIn(s, q.table) ==> UniqueIn(s, q.table, q.name)
    case RepairCheck(t, required) => TableIn(s, t) ==> ColumnsIn(s, t, required)
    case NewIndex(t, i) => TableIn(s, t) ==> Obj(Index, t, i.name) in s
    case Link(l) => TableIn(s, l.table) ==> ColumnIn(s, l.table, l.column)
    case OwnedColumn(t, c) => TableIn(s, t) ==> ColumnIn(s, t, c)
    case DropLegacy(t, n) => !UniqueIn(s, t, n)
    case EnsureUnique(q) => ColumnsIn(s, q.table, q.columns) ==> UniqueIn(s, q.table, q.name)
    case EnsureForeign(f) => ColumnsIn(s, f.table, f.columns) && ColumnsIn(s, f.target, f.referred) ==> KeyIn(s, f.table, f.columns, f.target)
  }

  lemma SettledFinds(s: Schema, u: Step)
    requires Settled(s, u)
    ensures Finds(s, u)
  {
    hide HasForeign, KeyIn, HasColumns, ColumnsIn, Complete, Shape, HasUnique, UniqueIn;
    forall t, cs ensures HasColumns(s, t, cs) <==> ColumnsIn(s, t, cs) { ColumnsAre(s, t, cs); }
    forall t, cs, target ensures HasForeign(s, t, cs, target) <==> KeyIn(s, t, cs, target) { KeyIs(s, t, cs, target); }
    forall t, n ensures HasUnique(s, t, n) <==> UniqueIn(s, t, n) { UniqueIs(s, t, n); }
    match u
    case NewTable(spec) => ShapeIs(s, spec);
    case DropLegacy(t, n) => LegacyFinds(s, t, n);
    case _ =>
  }

  lemma LegacyFinds(s: Schema, t: Name, n: Name)
    requires Settled(s, DropLegacy(t, n))
    ensures !UniqueIn(s, t, n)
  {
    assert Con(t, n) !in Remove(s, Con(t, n));
  }

  /** After a successful upgrade, from any schema, everything planned is there:
      each new table, marked and of full shape, with its indexes; and wherever the
      table that carries it is there, each link column with its index, each
      switch, both partial indexes, each composite unique constraint and foreign
      key whose columns exist; and the legacy unique constraint is gone. */
  lemma AllThere(plan: Plan, s0: Schema)
    requires PlanOk(plan) && Run(s0, Upgrade(plan)).Ok?
    ensures var s1 := Run(s0, Upgrade(plan)).value;
      && (forall spec :: spec in plan.tables ==>
            && TableIn(s1, spec.name) && s1[Obj(Table, spec.name, "")].comment == MARK && (!spec.partial ==> Shape(s1, spec))
            && forall i :: i in spec.indexes ==> Obj(Index, spec.name, i.name) in s1)
      && (forall l :: l in plan.links && TableIn(s1, l.table) ==> ColumnIn(s1, l.table, l.column) && Obj(Index, l.table, l.index) in s1)
      && (forall c :: c in plan.switches && TableIn(s1, plan.settings) ==> ColumnIn(s1, plan.settings, c))
      && (forall i :: i in plan.partials && TableIn(s1, plan.legacy.table) ==> Obj(Index, plan.legacy.table, i.name) in s1)
      && (forall q :: q in plan.uniques && ColumnsIn(s1, q.table, q.columns) ==> UniqueIn(s1, q.table, q.name))
      && (forall f :: f in plan.foreigns && ColumnsIn(s1, f.table, f.columns) && ColumnsIn(s1, f.target, f.referred) ==> KeyIn(s1, f.table, f.columns, f.target))
      && !UniqueIn(s1, plan.legacy.table, plan.legacy.name)
  {
    hide Run, Upgrade, Settled, PlanOk, Finds, Shape, TableIn, ColumnIn, ColumnsIn, UniqueIn, KeyIn, InTables, InLinks, InRest;
    var s1 := Run(s0, Upgrade(plan)).value;
    UpgradeInOrder(plan);
    RunSettles(s0, Upgrade(plan));
    forall u | InTables(plan, u) || InLinks(plan, u) || InRest(plan, u) ensures Finds(s1, u) {
      UpgradeUnits(plan, u);
      SettledFinds(s1, u);
    }
    TablesThere(plan, s1);
    LinksThere(plan, s1);
    RestThere(plan, s1);
  }

  lemma TablesThere(plan: Plan, s1: Schema)
    requires forall u :: InTables(plan, u) ==> Finds(s1, u)
    ensures forall spec :: spec in plan.tables ==>
      && TableIn(s1, spec.name) && s1[Obj(Table, spec.name, "")].comment == MARK && (!spec.partial ==> Shape(s1, spec))
      && forall i :: i in spec.indexes ==> Obj(Index, spec.name, i.name) in s1
  {
    hide InTables, Shape;
    forall spec | spec in plan.tables ensures InTables(plan, NewTable(spec)) && forall i :: i in spec.indexes ==> InTables(plan, NewIndex(spec.name, i)) { TablePart(plan, spec); }
  }

  lemma LinksThere(plan: Plan, s1: Schema)
    requires forall u :: InLinks(plan, u) ==> Finds(s1, u)
    ensures forall l :: l in plan.links && TableIn(s1, l.table) ==> ColumnIn(s1, l.table, l.column) && Obj(Index, l.table, l.index) in s1
  {
    hide InLinks;
    forall l | l in plan.links ensures InLinks(plan, Link(l)) && InLinks(plan, NewIndex(l.table, IndexSpec(l.index, [l.column], false, ""))) { LinkPart(plan, l); }
  }

  lemma RestThere(plan: Plan, s1: Schema)
    requires forall u :: InRest(plan, u) ==> Finds(s1, u)
    ensures forall c :: c in plan.switches && TableIn(s1, plan.settings) ==> ColumnIn(s1, plan.settings, c)
    ensures forall i :: i in plan.partials && TableIn(s1, plan.legacy.table) ==> Obj(Index, plan.legacy.table, i.name) in s1
    ensures forall q :: q in plan.uniques && ColumnsIn(s1, q.table, q.columns) ==> UniqueIn(s1, q.table, q.name)
    ensures forall f :: f in plan.foreigns && ColumnsIn(s1, f.table, f.columns) && ColumnsIn(s1, f.target, f.referred) ==> KeyIn(s1, f.table, f.columns, f.target)
    ensures !UniqueIn(s1, plan.legacy.table, plan.legacy.name)
  {
    hide InRest, ColumnsIn, UniqueIn, KeyIn;
    RestPart(plan);
  }

  lemma TablePart(plan: Plan, spec: TableSpec)
    requires spec in plan.tables
    ensures InTables(plan, NewTable(spec)) && (forall i :: i in spec.indexes ==> InTables(plan, NewIndex(spec.name, i)))
    ensures forall r :: r in spec.repairs ==> InTables(plan, r)
  {
  }

  lemma LinkPart(plan: Plan, l: LinkSpec)
    requires l in plan.links
    ensures InLinks(plan, Link(l)) && InLinks(plan, NewIndex(l.table, IndexSpec(l.index, [l.column], false, "")))
  {
  }

  lemma RestPart(plan: Plan)
    ensures forall c :: c in plan.switches ==> InRest(plan, OwnedColumn(plan.settings, c))
    ensures forall i :: i in plan.partials ==> InRest(plan, NewIndex(plan.legacy.table, i))
    ensures forall q :: q in plan.uniques ==> InRest(plan, EnsureUnique(q))
    ensures forall f :: f in plan.foreigns ==> InRest(plan, EnsureForeign(f))
    ensures InRest(plan, DropLegacy(plan.legacy.table, plan.legacy.name))
  {
  }

  /** An index of a new table that was not there is then as planned, in full, and
      marked. */
  lemma IndexIs(plan: Plan, s0: Schema, spec: TableSpec, i: IndexSpec)
    requires PlanOk(plan) && Run(s0, Upgrade(plan)).Ok? && spec in plan.tables && i in spec.indexes && Obj(Index, spec.name, i.name) !in s0
    requires forall j :: j in spec.indexes && j.name == i.name ==> j == i
    ensures var s1, o := Run(s0, Upgrade(plan)).value, Obj(Index, spec.name, i.name);
      o in s1 && s1[o] == Entry(IndexDef(i.columns, i.unique, i.filter), MARK)
  {
    hide Run, Upgrade, Shape, UniqueIn, KeyIn, ColumnsIn;
    AllThere(plan, s0);
    OnlyDue(plan, s0, Obj(Index, spec.name, i.name));
    OneSpec(plan, spec);
    assert IsNew(plan, spec.name);
    DueIndex(plan, spec, i, Run(s0, Upgrade(plan)).value[Obj(Index, spec.name, i.name)]);
  }

  lemma OneSpec(plan: Plan, spec: TableSpec)
    requires PlanOk(plan) && spec in plan.tables
    ensures forall other :: other in plan.tables && other.name == spec.name ==> other == spec
  {
    var k :| 0 <= k < |plan.tables| && plan.tables[k] == spec;
    forall other | other in plan.tables && other.name == spec.name ensures other == spec {
      var j :| 0 <= j < |plan.tables| && plan.tables[j] == other;
      assert TableNames(plan)[j] == TableNames(plan)[k];
    }
  }

  lemma DueIndex(plan: Plan, spec: TableSpec, i: IndexSpec, e: Entry)
    requires PlanOk(plan) && spec in plan.tables && Due(plan, Obj(Index, spec.name, i.name), e) && IsNew(plan, spec.name)
    requires forall other :: other in plan.tables && other.name == spec.name ==> other == spec
    requires forall j :: j in spec.indexes && j.name == i.name ==> j == i
    ensures e == Entry(IndexDef(i.columns, i.unique, i.filter), MARK)
  {
    hide DueInTable, Makes;
    IndexInTable(plan, Obj(Index, spec.name, i.name), e);
  }

  /** Within the new tables only their own indexes are due. */
  lemma IndexInTable(plan: Plan, o: Obj, e: Entry)
    requires PlanOk(plan) && o.kind == Index
    ensures DueInTable(plan, o, e) ==>
      exists spec, i :: spec in plan.tables && i in spec.indexes && o == Obj(Index, spec.name, i.name) && e == Entry(IndexDef(i.columns, i.unique, i.filter), MARK)
  {
  }

  /** And so is each index that replaces the legacy constraint, where its table is
      there. */
  lemma PartialIs(plan: Plan, s0: Schema, i: IndexSpec)
    requires PlanOk(plan) && Run(s0, Upgrade(plan)).Ok? && i in plan.partials && TableIn(s0, plan.legacy.table)
    requires Obj(Index, plan.legacy.table, i.name) !in s0
    requires (forall j :: j in plan.partials && j.name == i.name ==> j == i) && forall l :: l in plan.links && l.table == plan.legacy.table ==> l.index != i.name
    ensures var s1, o := Run(s0, Upgrade(plan)).value, Obj(Index, plan.legacy.table, i.name);
      o in s1 && s1[o] == Entry(IndexDef(i.columns, i.unique, i.filter), MARK)
  {
    hide Run, Upgrade, Shape, UniqueIn, KeyIn, ColumnsIn, InOrder, AllOk;
    UpgradeInOrder(plan);
    EntryStays(s0, Upgrade(plan), Tab(plan.legacy.table));
    AllThere(plan, s0);
    OnlyDue(plan, s0, Obj(Index, plan.legacy.table, i.name));
    DuePartial(plan, i, Run(s0, Upgrade(plan)).value[Obj(Index, plan.legacy.table, i.name)]);
  }

  lemma DuePartial(plan: Plan, i: IndexSpec, e: Entry)
    requires PlanOk(plan) && Due(plan, Obj(Index, plan.legacy.table, i.name), e)
    requires (forall j :: j in plan.partials && j.name == i.name ==> j == i) && forall l :: l in plan.links && l.table == plan.legacy.table ==> l.index != i.name
    ensures e == Entry(IndexDef(i.columns, i.unique, i.filter), MARK)
  {
    hide DueInTable, Makes;
    IndexInTable(plan, Obj(Index, plan.legacy.table, i.name), e);
    assert forall spec :: spec in plan.tables ==> spec.name != plan.legacy.table by { LegacyNotNew(plan); }
  }

  lemma LegacyNotNew(plan: Plan)
    requires PlanOk(plan)
    ensures forall spec :: spec in plan.tables ==> spec.name != plan.legacy.table
  {
    assert !IsNew(plan, plan.legacy.table);
  }

  // ---------------------------------------------------------------- refusals

  /** An index of that name, on whatever table. */
  ghost predicate IndexNamed(s: Schema, n: Name) { exists p :: p in s && p.kind == Index && p.name == n }

  /** The database takes a foreign key of that name there. */
  ghost predicate KeyFits(s: Schema, t: Name, n: Name, columns: seq<Name>, target: Name, referred: seq<Name>) {
    Obj(Constraint, t, n) !in s && ColumnsIn(s, t, columns) && ColumnsIn(s, target, referred)
  }

  /** When a unit goes through. */
  ghost predicate Passes(s: Schema, u: Step) {
    match u
    case NewTable(spec) =>
      if TableIn(s, spec.name) then s[Obj(Table, spec.name, "")].comment == MARK && (spec.partial || Shape(s, spec))
      else forall o :: o in spec.contents && spec.contents[o].ForeignDef? ==> spec.contents[o].target == spec.name || TableIn(s, spec.contents[o].target)
    case RepairColumn(_, _, _) => true
    case RepairForeign(f) => !TableIn(s, f.table) || KeyIn(s, f.table, f.columns, f.target) || KeyFits(s, f.table, f.name, f.columns, f.target, f.referred)
    case RepairUnique(q) => !TableIn(s, q.table) || UniqueIn(s, q.table, q.name) || (Obj(Constraint, q.table, q.name) !in s && ColumnsIn(s, q.table, q.columns))
    case RepairCheck(t, required) => !TableIn(s, t) || ColumnsIn(s, t, required)
    case NewIndex(t, i) => !TableIn(s, t) || Obj(Index, t, i.name) in s || (!IndexNamed(s, i.name) && ColumnsIn(s, t, i.columns))
    case Link(l) =>
      || !TableIn(s, l.table) || ColumnIn(s, l.table, l.column)
      || (Obj(Constraint, l.table, l.fk) !in s && TableIn(s, l.target)
          && forall c :: c in l.referred ==> ColumnIn(s, l.target, c) || (l.target == l.table && c == l.column))
    case OwnedColumn(_, _) => true
    case DropLegacy(_, _) => true
    case EnsureUnique(q) => !ColumnsIn(s, q.table, q.columns) || UniqueIn(s, q.table, q.name) || Obj(Constraint, q.table, q.name) !in s
    case EnsureForeign(f) =>
      || !ColumnsIn(s, f.table, f.columns) || !ColumnsIn(s, f.target, f.referred) || KeyIn(s, f.table, f.columns, f.target)
      || Obj(Constraint, f.table, f.name) !in s
  }

  /** A unit is refused exactly when it does not pass. */
  lemma UnitPassesIff(s: Schema, u: Step)
    ensures Apply(s, u).Ok? <==> Passes(s, u)
  {
    hide HasForeign, KeyIn, Complete, Shape, HasUnique, UniqueIn;
    forall t, cs ensures HasColumns(s, t, cs) <==> ColumnsIn(s, t, cs) { ColumnsAre(s, t, cs); }
    forall t, cs, target ensures HasForeign(s, t, cs, target) <==> KeyIn(s, t, cs, target) { KeyIs(s, t, cs, target); }
    forall t, n ensures HasUnique(s, t, n) <==> UniqueIn(s, t, n) { UniqueIs(s, t, n); }
    match u
    case NewTable(spec) => ShapeIs(s, spec);
    case _ =>
  }

  /** The upgrade goes through only if each table of the revision's names is not
      there yet, or carries the mark and, but for the repaired one, is of full
      shape. */
  lemma UpgradeAsks(plan: Plan, s0: Schema, spec: TableSpec)
    requires PlanOk(plan) && Run(s0, Upgrade(plan)).Ok? && spec in plan.tables && TableIn(s0, spec.name)
    ensures s0[Obj(Table, spec.name, "")].comment == MARK && (spec.partial || Shape(s0, spec))
  {
    hide Run, Upgrade, PlanOk, Complete, Shape;
    UpgradeNeeds(plan, s0);
    ShapeIs(s0, spec);
  }

  // ---------------------------------------------- an upgrade that goes through

  /** The unit gives the table the column, if the table is there. */
  ghost predicate Gives(u: Step, t: Name, c: Name) {
    || (u.NewTable? && u.spec.name == t && Obj(Column, t, c) in u.spec.contents)
    || (u.Link? && u.link.table == t && u.link.column == c)
    || (u.OwnedColumn? && u.table == t && u.name == c)
  }

  ghost predicate Given(s0: Schema, steps: seq<Step>, i: nat, t: Name, c: Name)
    requires i <= |steps|
  {
    ColumnIn(s0, t, c) || exists j :: 0 <= j < i && Gives(steps[j], t, c)
  }

  ghost predicate Standing(s0: Schema, steps: seq<Step>, i: nat, t: Name)
    requires i <= |steps|
  {
    TableIn(s0, t) || exists j :: 0 <= j < i && Creates(steps[j], t)
  }

  /** A constraint of that name is there or is made earlier. */
  ghost predicate Taken(s0: Schema, steps: seq<Step>, i: nat, t: Name, n: Name)
    requires i <= |steps|
  {
    Obj(Constraint, t, n) in s0 || exists j :: 0 <= j < i && Names(steps[j], Obj(Constraint, t, n))
  }

  ghost predicate Names(u: Step, o: Obj) { exists e :: Makes(u, o, e) }

  ghost predicate HasKey(spec: TableSpec, columns: seq<Name>, target: Name) {
    exists o :: o in spec.contents && spec.contents[o].ForeignDef? && SameNames(spec.contents[o].columns, columns) && spec.contents[o].target == target
  }

  /** The unit at a place has what it needs from the schema and the earlier units:
      a new table is new and its targets stand; a repair repeats what the table
      is made with; an index has a name of its own and columns; a link has a
      target; an added constraint has a name of its own. */
  ghost predicate ReadyAt(s0: Schema, steps: seq<Step>, i: nat)
    requires i < |steps|
  {
    match steps[i]
    case NewTable(spec) =>
      && (forall o :: o in s0 ==> o.table != spec.name) && (forall j :: 0 <= j < i ==> !Creates(steps[j], spec.name))
      && forall o :: o in spec.contents && spec.contents[o].ForeignDef? ==> spec.contents[o].target == spec.name || Standing(s0, steps, i, spec.contents[o].target)
    case RepairForeign(f) => exists j :: 0 <= j < i && Creates(steps[j], f.table) && HasKey(steps[j].spec, f.columns, f.target)
    case RepairUnique(q) =>
      exists j :: 0 <= j < i && Creates(steps[j], q.table) && Obj(Constraint, q.table, q.name) in steps[j].spec.contents
        && steps[j].spec.contents[Obj(Constraint, q.table, q.name)].UniqueDef?
    case RepairCheck(t, required) => forall c :: c in required ==> Given(s0, steps, i, t, c)
    case NewIndex(t, x) =>
      && !IndexNamed(s0, x.name) && (forall j :: 0 <= j < i && steps[j].NewIndex? ==> steps[j].index.name != x.name)
      && forall c :: c in x.columns ==> Given(s0, steps, i, t, c)
    case Link(l) =>
      && !Taken(s0, steps, i, l.table, l.fk) && Standing(s0, steps, i, l.target)
      && forall c :: c in l.referred ==> Given(s0, steps, i, l.target, c)
    case EnsureUnique(q) => !Taken(s0, steps, i, q.table, q.name)
    case EnsureForeign(f) => !Taken(s0, steps, i, f.table, f.name)
    case _ => true
  }

  ghost predicate Ready(s0: Schema, steps: seq<Step>) { forall i :: 0 <= i < |steps| ==> ReadyAt(s0, steps, i) }

  /** A table with everything it is made with. */
  ghost predicate Built(s: Schema, spec: TableSpec) {
    TableIn(s, spec.name) && forall o :: o in spec.contents ==> o in s && s[o].def == spec.contents[o]
  }

  ghost predicate AllBuilt(s: Schema, steps: seq<Step>) { forall u :: u in steps && u.NewTable? ==> Built(s, u.spec) }

  ghost predicate OldStands(s0: Schema, s: Schema) { forall o :: o in s0 && o.kind != Constraint ==> o in s }

  ghost predicate NothingElse(s0: Schema, steps: seq<Step>, s: Schema) {
    forall o :: o in s ==> o in s0 || exists u :: u in steps && Names(u, o)
  }

  ghost predicate AllFound(s: Schema, steps: seq<Step>) { forall u :: u in steps ==> Finds(s, u) }

  ghost predicate Stage(s0: Schema, steps: seq<Step>, s: Schema) {
    AllBuilt(s, steps) && OldStands(s0, s) && NothingElse(s0, steps, s) && AllFound(s, steps)
  }

  lemma EarlierIs(steps: seq<Step>, i: nat, j: nat)
    requires j < i <= |steps|
    ensures steps[j] in steps[..i]
  {
    assert steps[..i][j] == steps[j];
  }

  lemma GivenIsThere(s0: Schema, steps: seq<Step>, i: nat, s: Schema, t: Name, c: Name)
    requires i <= |steps| && Stage(s0, steps[..i], s) && TableIn(s, t) && Given(s0, steps, i, t, c)
    ensures ColumnIn(s, t, c)
  {
    hide NothingElse;
    if !ColumnIn(s0, t, c) {
      var j :| 0 <= j < i && Gives(steps[j], t, c);
      EarlierIs(steps, i, j);
      assert Finds(s, steps[j]);
    }
  }

  lemma StandingIsThere(s0: Schema, steps: seq<Step>, i: nat, s: Schema, t: Name)
    requires i <= |steps| && Stage(s0, steps[..i], s) && Standing(s0, steps, i, t)
    ensures TableIn(s, t)
  {
    hide NothingElse, AllFound;
    if !TableIn(s0, t) {
      var j :| 0 <= j < i && Creates(steps[j], t);
      EarlierIs(steps, i, j);
    }
  }

  lemma FreeIsFree(s0: Schema, steps: seq<Step>, i: nat, s: Schema, t: Name, n: Name)
    requires i <= |steps| && NothingElse(s0, steps[..i], s) && !Taken(s0, steps, i, t, n)
    ensures Obj(Constraint, t, n) !in s
  {
    forall u | u in steps[..i] ensures !Names(u, Obj(Constraint, t, n)) {
      var j :| 0 <= j < i && steps[..i][j] == u;
    }
  }

  lemma NewNameIsFree(s0: Schema, steps: seq<Step>, i: nat, s: Schema, n: Name)
    requires i <= |steps| && NothingElse(s0, steps[..i], s) && AllOk(steps) && !IndexNamed(s0, n)
    requires forall j :: 0 <= j < i && steps[j].NewIndex? ==> steps[j].index.name != n
    ensures !IndexNamed(s, n)
  {
    if p :| p in s && p.kind == Index && p.name == n {
      var u :| u in steps[..i] && Names(u, p);
      var j :| 0 <= j < i && steps[..i][j] == u;
      assert u == steps[j] && u in steps;
      OnlyIndexes(u, p);
    }
  }

  lemma OnlyIndexes(u: Step, p: Obj)
    requires StepOk(u) && Names(u, p)
    ensures p.kind == Index ==> u.NewIndex? && p.name == u.index.name
    ensures p.kind == Table ==> Creates(u, p.table)
  {
  }

  lemma NewTableIsNew(s0: Schema, steps: seq<Step>, i: nat, s: Schema, t: Name)
    requires i <= |steps| && NothingElse(s0, steps[..i], s) && AllOk(steps)
    requires (forall o :: o in s0 ==> o.table != t) && forall j :: 0 <= j < i ==> !Creates(steps[j], t)
    ensures !TableIn(s, t)
  {
    var o := Obj(Table, t, "");
    if o in s {
      var u :| u in steps[..i] && Names(u, o);
      var j :| 0 <= j < i && steps[..i][j] == u;
      assert u == steps[j] && u in steps;
      OnlyIndexes(u, o);
    }
  }

  lemma BuiltHasKey(s: Schema, spec: TableSpec, columns: seq<Name>, target: Name)
    requires Built(s, spec) && ContentsOk(spec) && HasKey(spec, columns, target)
    ensures KeyIn(s, spec.name, columns, target)
  {
    var o :| o in spec.contents && spec.contents[o].ForeignDef? && SameNames(spec.contents[o].columns, columns) && spec.contents[o].target == target;
    assert IsKey(s, o, spec.name, columns, target);
  }

  /** A unit that is ready passes when its turn comes. */
  lemma ReadyPasses(s0: Schema, steps: seq<Step>, i: nat, s: Schema)
    requires i < |steps| && AllOk(steps) && Stage(s0, steps[..i], s) && ReadyAt(s0, steps, i)
    ensures Passes(s, steps[i])
  {
    hide Stage, TableIn, ColumnIn, KeyIn, Given, Standing, Taken, IndexNamed, StepOk, Shape, UniqueIn, HasKey, Built;
    assert AllBuilt(s, steps[..i]) && NothingElse(s0, steps[..i], s) by { StageParts(s0, steps[..i], s); }
    forall t, c | TableIn(s, t) && Given(s0, steps, i, t, c) ensures ColumnIn(s, t, c) { GivenIsThere(s0, steps, i, s, t, c); }
    forall t | Standing(s0, steps, i, t) ensures TableIn(s, t) { StandingIsThere(s0, steps, i, s, t); }
    match steps[i]
    case NewTable(spec) => NewTableIsNew(s0, steps, i, s, spec.name);
    case RepairForeign(f) =>
      var j :| 0 <= j < i && Creates(steps[j], f.table) && HasKey(steps[j].spec, f.columns, f.target);
      EarlierIs(steps, i, j);
      SpecOk(steps, j);
      BuiltHasKey(s, steps[j].spec, f.columns, f.target);
    case RepairUnique(q) =>
      var j :| 0 <= j < i && Creates(steps[j], q.table) && Obj(Constraint, q.table, q.name) in steps[j].spec.contents
        && steps[j].spec.contents[Obj(Constraint, q.table, q.name)].UniqueDef?;
      EarlierIs(steps, i, j);
      BuiltHasUnique(s, steps[j].spec, q);
    case NewIndex(t, x) => NewNameIsFree(s0, steps, i, s, x.name);
    case Link(l) => FreeIsFree(s0, steps, i, s, l.table, l.fk);
    case EnsureUnique(q) => FreeIsFree(s0, steps, i, s, q.table, q.name);
    case EnsureForeign(f) => FreeIsFree(s0, steps, i, s, f.table, f.name);
    case _ =>
  }

  lemma StageParts(s0: Schema, steps: seq<Step>, s: Schema)
    requires Stage(s0, steps, s)
    ensures AllBuilt(s, steps) && OldStands(s0, s) && NothingElse(s0, steps, s) && AllFound(s, steps)
  {
  }

  lemma SpecOk(steps: seq<Step>, j: nat)
    requires AllOk(steps) && j < |steps| && steps[j].NewTable?
    ensures ContentsOk(steps[j].spec)
  {
    assert StepOk(steps[j]);
  }

  lemma BuiltHasUnique(s: Schema, spec: TableSpec, q: UniqueSpec)
    requires Built(s, spec) && spec.name == q.table && Obj(Constraint, q.table, q.name) in spec.contents
    requires spec.contents[Obj(Constraint, q.table, q.name)].UniqueDef?
    ensures UniqueIn(s, q.table, q.name)
  {
  }

  /** No unit removes a constraint of a table that the upgrade makes. */
  ghost predicate DropsOld(steps: seq<Step>) {
    forall u, v :: u in steps && v in steps && u.DropLegacy? ==> !Creates(v, u.table)
  }

  /** What stands keeps standing. */
  lemma StageNext(s0: Schema, steps: seq<Step>, i: nat, s: Schema)
    requires i < |steps| && AllOk(steps) && DropsOld(steps) && AllBuilt(s, steps[..i]) && OldStands(s0, s) && NothingElse(s0, steps[..i], s)
    requires ReadyAt(s0, steps, i) && Apply(s, steps[i]).Ok?
    ensures AllBuilt(Apply(s, steps[i]).value, steps[..i + 1]) && OldStands(s0, Apply(s, steps[i]).value)
  {
    hide NothingElse, Given, Standing, Taken, IndexNamed, HasKey, ContentsOk;
    var u, s' := steps[i], Apply(s, steps[i]).value;
    assert u in steps && steps[..i + 1] == steps[..i] + [u];
    assert StepOk(u);
    ApplyGrows(s, u);
    if u.NewTable? { NewTableIsNew(s0, steps, i, s, u.spec.name); }
    forall v | v in steps[..i + 1] && v.NewTable? ensures Built(s', v.spec) {
      if v in steps[..i] {
        assert v in steps && ContentsOk(v.spec) && Built(s, v.spec);
        var j :| 0 <= j < i && steps[..i][j] == v;
        assert Creates(steps[j], v.spec.name);
        StaysBuilt(s, u, v.spec);
      } else {
        NowBuilt(s, u.spec);
      }
    }
  }

  lemma NowBuilt(s: Schema, spec: TableSpec)
    requires !TableIn(s, spec.name) && ContentsOk(spec) && Apply(s, NewTable(spec)).Ok?
    ensures Built(Apply(s, NewTable(spec)).value, spec)
  {
  }

  lemma StaysBuilt(s: Schema, u: Step, spec: TableSpec)
    requires StepOk(u) && ContentsOk(spec) && Built(s, spec) && Apply(s, u).Ok? && !Creates(u, spec.name) && (u.DropLegacy? ==> u.table != spec.name)
    ensures Built(Apply(s, u).value, spec)
  {
    ApplyGrows(s, u);
  }

  lemma {:induction false} ReadyRuns(s0: Schema, steps: seq<Step>, i: nat)
    requires i <= |steps| && AllOk(steps) && InOrder(steps) && DropsOld(steps) && Ready(s0, steps)
    ensures Run(s0, steps[..i]).Ok?
    ensures var s := Run(s0, steps[..i]).value; AllBuilt(s, steps[..i]) && OldStands(s0, s)
  {
    hide ReadyAt, Apply, Passes, InOrder, AllOk, DropsOld, Built;
    if i > 0 {
      ReadyRuns(s0, steps, i - 1);
      var s := Run(s0, steps[..i - 1]).value;
      StageAt(s0, steps, i - 1);
      ReadyPasses(s0, steps, i - 1, s);
      UnitPassesIff(s, steps[i - 1]);
      StageParts(s0, steps[..i - 1], s);
      StageNext(s0, steps, i - 1, s);
      FrontOfPrefix(steps, i - 1);
    }
  }

  lemma StageAt(s0: Schema, steps: seq<Step>, i: nat)
    requires i <= |steps| && AllOk(steps) && InOrder(steps) && Run(s0, steps[..i]).Ok?
    requires var s := Run(s0, steps[..i]).value; AllBuilt(s, steps[..i]) && OldStands(s0, s)
    ensures Stage(s0, steps[..i], Run(s0, steps[..i]).value)
  {
    hide Run, InOrder, AllOk, Built, Makes, Finds, Settled;
    var s := Run(s0, steps[..i]).value;
    PrefixOk(steps, i);
    RunSettles(s0, steps[..i]);
    forall u | u in steps[..i] ensures Finds(s, u) { SettledFinds(s, u); }
    RunMakes(s0, steps[..i]);
  }

  /** The upgrade goes through from every schema in which each of its units is
      ready, which the schema and the plan show. */
  lemma UpgradeSucceeds(plan: Plan, s0: Schema)
    requires PlanOk(plan) && Ready(s0, Upgrade(plan))
    ensures Run(s0, Upgrade(plan)).Ok?
  {
    hide Ready, Run, InOrder, AllOk, Upgrade, DropsOld;
    var steps := Upgrade(plan);
    UpgradeInOrder(plan);
    assert DropsOld(steps) by { LegacyIsOld(plan); }
    ReadyRuns(s0, steps, |steps|);
    assert steps[..|steps|] == steps;
  }

  lemma LegacyIsOld(plan: Plan)
    requires PlanOk(plan)
    ensures DropsOld(Upgrade(plan))
  {
    hide Upgrade, InOrder, AllOk;
    UpgradeInOrder(plan);
    forall u, v | u in Upgrade(plan) && v in Upgrade(plan) && u.DropLegacy? ensures !Creates(v, u.table) {
      assert Planned(plan, u) && Planned(plan, v);
    }
  }

  // ------------------------------------------------------------ keys and names

  /** Entries stay, but for those of a table made anew and the legacy constraint. */
  lemma {:induction false} EntryStays(s: Schema, steps: seq<Step>, o: Obj)
    requires AllOk(steps) && Run(s, steps).Ok? && o in s
    requires forall u :: u in steps ==> !(u.DropLegacy? && o == Con(u.table, u.name)) && (u.NewTable? && u.spec.name == o.table ==> Tab(o.table) in s)
    ensures o in Run(s, steps).value && Run(s, steps).value[o] == s[o] && (Tab(o.table) in s ==> Tab(o.table) in Run(s, steps).value)
  {
    hide Apply, StepOk;
    if steps != [] {
      assert forall u :: u in Front(steps) ==> u in steps;
      assert Last(steps) in steps;
      EntryStays(s, Front(steps), o);
      ApplyGrows(Run(s, Front(steps)).value, Last(steps));
    }
  }

  /** A link that adds its column adds its foreign key with it. */
  lemma LinkKeyIs(plan: Plan, s0: Schema, l: LinkSpec)
    requires PlanOk(plan) && Run(s0, Upgrade(plan)).Ok? && l in plan.links && TableIn(s0, l.table) && !ColumnIn(s0, l.table, l.column)
    requires forall m :: m in plan.links && m.table == l.table && m.column == l.column ==> m == l
    ensures var s1, column, key := Run(s0, Upgrade(plan)).value, Obj(Column, l.table, l.column), Obj(Constraint, l.table, l.fk);
      && column in s1 && s1[column] == Entry(ColumnDef("BIGINT NULL"), MARK)
      && key in s1 && s1[key] == Entry(ForeignDef([l.column], l.target, l.referred), MARK)
  {
    hide Run, PlanOk, Apply, StepOk, AllOk, InOrder, Planned;
    var steps := Upgrade(plan);
    UpgradeInOrder(plan);
    var k := LinkPlace(plan, l);
    var before := steps[..k];
    assert steps == before + ([Link(l)] + steps[k + 1..]);
    PrefixRuns(s0, steps, k);
    PrefixRuns(s0, steps, k + 1);
    assert steps[..k + 1] == before + [Link(l)];
    RunAppend(s0, before, [Link(l)] + steps[k + 1..]);
    PrefixOk(steps, k);
    TailOk(steps, k);
    var s := Run(s0, before).value;
    LinkFirst(plan, s0, l, before);
    OneStep(s, Link(l), steps[k + 1..]);
    RunAppend(s0, before, [Link(l)]);
    SingleStep(s, Link(l));
    var s' := Apply(s, Link(l)).value;
    LinkAdds(s, l);
    KeptByPlan(plan, l, steps[k + 1..]);
    EntryStays(s', steps[k + 1..], Col(l.table, l.column));
    EntryStays(s', steps[k + 1..], Con(l.table, l.fk));
  }

  lemma TailOk(steps: seq<Step>, k: nat)
    requires AllOk(steps) && k < |steps|
    ensures AllOk(steps[k + 1..])
  {
  }

  lemma SingleStep(s: Schema, u: Step)
    ensures Run(s, [u]) == Apply(s, u)
  {
    hide Apply;
    assert Front([u]) == [] && Last([u]) == u;
  }

  lemma OneStep(s: Schema, u: Step, rest: seq<Step>)
    requires Run(s, [u] + rest).Ok?
    ensures Apply(s, u).Ok? && Run(s, [u] + rest) == Run(Apply(s, u).value, rest)
  {
    hide Apply;
    PrefixRuns(s, [u] + rest, 1);
    assert ([u] + rest)[..1] == [u];
    SingleStep(s, u);
    RunAppend(s, [u], rest);
  }

  lemma LinkAdds(s: Schema, l: LinkSpec)
    requires TableIn(s, l.table) && !ColumnIn(s, l.table, l.column) && Apply(s, Link(l)).Ok?
    ensures var s', column, key := Apply(s, Link(l)).value, Col(l.table, l.column), Con(l.table, l.fk);
      && column in s' && s'[column] == Entry(ColumnDef("BIGINT NULL"), MARK) && Tab(l.table) in s'
      && key in s' && s'[key] == Entry(ForeignDef([l.column], l.target, l.referred), MARK)
  {
  }

  /** A place of the link in the upgrade, before which it does not occur and no
      switch is made. */
  lemma LinkPlace(plan: Plan, l: LinkSpec) returns (k: nat)
    requires l in plan.links
    ensures k < |Upgrade(plan)| && Upgrade(plan)[k] == Link(l)
    ensures forall u :: u in Upgrade(plan)[..k] ==> u != Link(l) && (InTables(plan, u) || InLinks(plan, u))
  {
    hide TableStage, LinkStage, SwitchStage, LegacyStage, UniqueStage, ForeignStage, InTables, InLinks;
    var steps := Upgrade(plan);
    LinkPart(plan, l);
    LinkUnits(plan, Link(l));
    var n := |TableStage(plan)|;
    var j :| 0 <= j < |LinkStage(plan)| && LinkStage(plan)[j] == Link(l);
    assert steps[n + j] == Link(l);
    k := FirstPlace(steps, Link(l), n + j);
    forall u | u in steps[..k] ensures InTables(plan, u) || InLinks(plan, u) {
      var i :| 0 <= i < k && steps[i] == u;
      if i < n {
        assert TableStage(plan)[i] == u;
        TableUnits(plan, u);
      } else {
        assert LinkStage(plan)[i - n] == u;
        LinkUnits(plan, u);
      }
    }
  }

  lemma FirstPlace(steps: seq<Step>, u: Step, j: nat) returns (k: nat)
    requires j < |steps| && steps[j] == u
    ensures k <= j && steps[k] == u && forall v :: v in steps[..k] ==> v != u
  {
    k := 0;
    while steps[k] != u
      invariant k <= j && forall i :: 0 <= i < k ==> steps[i] != u
      decreases j - k
    {
      k := k + 1;
    }
  }

  lemma LinkFirst(plan: Plan, s0: Schema, l: LinkSpec, before: seq<Step>)
    requires PlanOk(plan) && AllOk(before) && Run(s0, before).Ok? && l in plan.links
    requires TableIn(s0, l.table) && !ColumnIn(s0, l.table, l.column)
    requires forall m :: m in plan.links && m.table == l.table && m.column == l.column ==> m == l
    requires forall u :: u in before ==> u != Link(l) && (InTables(plan, u) || InLinks(plan, u))
    ensures TableIn(Run(s0, before).value, l.table) && !ColumnIn(Run(s0, before).value, l.table, l.column)
  {
    hide Run, StepOk;
    var s, column := Run(s0, before).value, Obj(Column, l.table, l.column);
    forall u | u in before ensures !(u.DropLegacy? && Tab(l.table) == Con(u.table, u.name)) { }
    EntryStays(s0, before, Tab(l.table));
    RunMakes(s0, before);
    forall u | u in before ensures !Names(u, column) { NotThisColumn(plan, l, u); }
  }

  lemma NotThisColumn(plan: Plan, l: LinkSpec, u: Step)
    requires PlanOk(plan) && l in plan.links && u != Link(l) && (InTables(plan, u) || InLinks(plan, u))
    requires forall m :: m in plan.links && m.table == l.table && m.column == l.column ==> m == l
    ensures !Names(u, Obj(Column, l.table, l.column))
  {
    assert !IsNew(plan, l.table);
    if InTables(plan, u) {
      var spec :| spec in plan.tables && (u == NewTable(spec) || u in spec.repairs || exists i :: i in spec.indexes && u == NewIndex(spec.name, i));
      assert spec.name != l.table && ContentsOk(spec);
    }
  }

  lemma KeptByPlan(plan: Plan, l: LinkSpec, rest: seq<Step>)
    requires PlanOk(plan) && l in plan.links && forall u :: u in rest ==> Planned(plan, u)
    ensures forall u :: u in rest ==> !(u.DropLegacy? && Con(l.table, l.fk) == Con(u.table, u.name)) && !(u.NewTable? && u.spec.name == l.table)
  {
  }

  /** Index names are unique in a schema, as the database demands, and stay so. */
  ghost predicate IndexNamesApart(s: Schema) {
    forall p, q :: p in s && q in s && p.kind == Index && q.kind == Index && p.name == q.name ==> p == q
  }

  lemma UnitKeepsIndexNames(s: Schema, u: Step)
    requires StepOk(u) && IndexNamesApart(s) && Apply(s, u).Ok?
    ensures IndexNamesApart(Apply(s, u).value)
  {
    hide Apply;
    var s' := Apply(s, u).value;
    UnitMakes(s, u);
    UnitPassesIff(s, u);
    forall p, q | p in s' && q in s' && p.kind == Index && q.kind == Index && p.name == q.name ensures p == q {
      if p !in s || q !in s { NewIndexIsAlone(s, u, if p !in s then p else q, if p !in s then q else p); }
    }
  }

  lemma NewIndexIsAlone(s: Schema, u: Step, p: Obj, q: Obj)
    requires StepOk(u) && Apply(s, u).Ok? && p in Apply(s, u).value && q in Apply(s, u).value && p !in s
    requires p.kind == Index && q.kind == Index && p.name == q.name
    ensures p == q
  {
  }

  lemma {:induction false} RunKeepsIndexNames(s: Schema, steps: seq<Step>)
    requires AllOk(steps) && IndexNamesApart(s) && Run(s, steps).Ok?
    ensures IndexNamesApart(Run(s, steps).value)
  {
    hide Apply, IndexNamesApart, StepOk;
    if steps != [] {
      assert forall u :: u in Front(steps) ==> u in steps;
      assert Last(steps) in steps;
      RunKeepsIndexNames(s, Front(steps));
      UnitKeepsIndexNames(Run(s, Front(steps)).value, Last(steps));
    }
  }

  /** Every foreign key that the upgrade adds and marks leans on columns that are
      there. */
  ghost predicate KeysLean(s0: Schema, s: Schema) {
    forall o :: o in s && s[o].def.ForeignDef? && s[o].comment == MARK && !(o in s0 && s0[o] == s[o]) ==> ColumnsIn(s, s[o].def.target, s[o].def.referred)
  }

  lemma UnitKeepsLean(s0: Schema, s: Schema, u: Step)
    requires StepOk(u) && KeysLean(s0, s) && Apply(s, u).Ok?
    ensures KeysLean(s0, Apply(s, u).value)
  {
    hide Apply, HasForeign, KeyIn;
    var s' := Apply(s, u).value;
    UnitMakes(s, u);
    ApplyGrows(s, u);
    forall o | o in s' && s'[o].def.ForeignDef? && s'[o].comment == MARK && !(o in s0 && s0[o] == s'[o]) ensures ColumnsIn(s', s'[o].def.target, s'[o].def.referred) {
      if o in s && s[o] == s'[o] {
        assert ColumnsIn(s, s[o].def.target, s[o].def.referred);
      } else {
        NewKeyLeans(s, u, o);
      }
    }
  }

  lemma NewKeyLeans(s: Schema, u: Step, o: Obj)
    requires StepOk(u) && Apply(s, u).Ok? && o in Apply(s, u).value && !(o in s && s[o] == Apply(s, u).value[o])
    requires Apply(s, u).value[o].def.ForeignDef? && Apply(s, u).value[o].comment == MARK
    ensures var s' := Apply(s, u).value; ColumnsIn(s', s'[o].def.target, s'[o].def.referred)
  {
    hide HasForeign;
  }

  lemma {:induction false} RunKeepsLean(s0: Schema, steps: seq<Step>)
    requires AllOk(steps) && Run(s0, steps).Ok?
    ensures KeysLean(s0, Run(s0, steps).value)
  {
    hide Apply, StepOk, ColumnsIn;
    if steps != [] {
      hide KeysLean;
      assert forall u :: u in Front(steps) ==> u in steps;
      assert Last(steps) in steps;
      RunKeepsLean(s0, Front(steps));
      UnitKeepsLean(s0, Run(s0, Front(steps)).value, Last(steps));
    }
  }

  /** So after every successful upgrade. */
  lemma UpgradeIsClean(plan: Plan, s0: Schema)
    requires PlanOk(plan) && Run(s0, Upgrade(plan)).Ok?
    ensures KeysLean(s0, Run(s0, Upgrade(plan)).value)
    ensures IndexNamesApart(s0) ==> IndexNamesApart(Run(s0, Upgrade(plan)).value)
  {
    hide Run, Upgrade, KeysLean, IndexNamesApart, InOrder, PlanOk;
    UpgradeInOrder(plan);
    RunKeepsLean(s0, Upgrade(plan));
    if IndexNamesApart(s0) { RunKeepsIndexNames(s0, Upgrade(plan)); }
  }

  // ------------------------------------------------------------- the downgrade

  /** A foreign key from elsewhere that nobody marked, and whose table and columns
      nobody marked, blocks the downgrade while it points at a marked table. */
  lemma OutsideKeyBlocks(plan: Plan, s: Schema, keys: seq<RowKey>, o: Obj, spec: TableSpec)
    requires spec in plan.tables && TableIn(s, spec.name) && s[Obj(Table, spec.name, "")] == Entry(TableDef, MARK)
    requires o in s && o.kind == Constraint && s[o].def.ForeignDef? && s[o].def.target == spec.name && o.table != spec.name
    requires s[o].comment != MARK && (TableIn(s, o.table) ==> s[Obj(Table, o.table, "")].comment != MARK)
    requires forall c :: c in s[o].def.columns && ColumnIn(s, o.table, c) ==> s[Obj(Column, o.table, c)].comment != MARK
    ensures Downgrade(plan, s, keys).Err?
  {
    hide RunUndo, Undos, Lawful, HasDuplicates, UnownedTable;
    if Downgrade(plan, s, keys).Ok? {
      DowngradeRuns(plan, s, keys);
      var undos := Undos(plan);
      var k := UndoPlace(plan, spec);
      assert undos == undos[..k] + undos[k..] && undos == undos[..k + 1] + undos[k + 1..];
      if RunUndo(s, undos[..k], keys).Err? { ErrStays(s, undos[..k], undos[k..], keys); }
      if RunUndo(s, undos[..k + 1], keys).Err? { ErrStays(s, undos[..k + 1], undos[k + 1..], keys); }
      var mid := RunUndo(s, undos[..k], keys).value;
      RunLawful(s, undos[..k], keys);
      NotLicensed(s, mid, o);
      MarkedTableStays(s, undos[..k], keys, spec.name);
      LastUndo(s, undos, k, keys);
      KeyBlocks(mid, o, spec.name, keys);
    }
  }

  lemma LastUndo(s: Schema, undos: seq<Undo>, k: nat, keys: seq<RowKey>)
    requires k < |undos| && RunUndo(s, undos[..k], keys).Ok?
    ensures RunUndo(s, undos[..k + 1], keys) == Revert(RunUndo(s, undos[..k], keys).value, undos[k], keys)
  {
    hide Revert;
    FrontOfPrefix(undos, k);
  }

  lemma UndoPlace(plan: Plan, spec: TableSpec) returns (k: nat)
    requires spec in plan.tables
    ensures k < |Undos(plan)| && Undos(plan)[k] == UndoTable(spec.name) && UndoTable(spec.name) !in Undos(plan)[..k]
  {
    hide FirstUndos, ColumnUndos, TableUndos, UniqueUndos;
    HasTableUndo(plan, spec);
    assert UndoTable(spec.name) in Undos(plan);
    k := 0;
    while Undos(plan)[k] != UndoTable(spec.name)
      invariant k < |Undos(plan)| && UndoTable(spec.name) in Undos(plan)[k..]
      invariant UndoTable(spec.name) !in Undos(plan)[..k]
      decreases |Undos(plan)| - k
    {
      k := k + 1;
    }
  }

  lemma NotLicensed(s: Schema, s': Schema, o: Obj)
    requires Lawful(s, s') && o in s && s[o].def.ForeignDef? && s[o].comment != MARK
    requires TableIn(s, o.table) ==> s[Obj(Table, o.table, "")].comment != MARK
    requires forall c :: c in s[o].def.columns && ColumnIn(s, o.table, c) ==> s[Obj(Column, o.table, c)].comment != MARK
    ensures o in s' && s'[o] == s[o]
  {
  }

  lemma {:induction false} MarkedTableStays(s: Schema, undos: seq<Undo>, keys: seq<RowKey>, t: Name)
    requires RunUndo(s, undos, keys).Ok? && UndoTable(t) !in undos && TableIn(s, t) && s[Obj(Table, t, "")] == Entry(TableDef, MARK)
    ensures var s' := RunUndo(s, undos, keys).value; TableIn(s', t) && s'[Obj(Table, t, "")] == Entry(TableDef, MARK)
  {
    hide Revert;
    if undos != [] {
      assert Last(undos) in undos;
      MarkedTableStays(s, Front(undos), keys, t);
      OneKeepsTable(RunUndo(s, Front(undos), keys).value, Last(undos), keys, t);
    }
  }

  lemma OneKeepsTable(s: Schema, undo: Undo, keys: seq<RowKey>, t: Name)
    requires Revert(s, undo, keys).Ok? && undo != UndoTable(t) && TableIn(s, t) && s[Obj(Table, t, "")] == Entry(TableDef, MARK)
    ensures var s' := Revert(s, undo, keys).value; TableIn(s', t) && s'[Obj(Table, t, "")] == Entry(TableDef, MARK)
  {
    hide HasDuplicates;
  }

  lemma KeyBlocks(s: Schema, o: Obj, t: Name, keys: seq<RowKey>)
    requires o in s && o.kind == Constraint && s[o].def.ForeignDef? && s[o].def.target == t && o.table != t
    requires TableIn(s, t) && s[Obj(Table, t, "")] == Entry(TableDef, MARK)
    ensures Revert(s, UndoTable(t), keys).Err?
  {
    assert IsForeign(s, o);
  }
}
