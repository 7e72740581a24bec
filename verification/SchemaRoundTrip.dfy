/** The downgrade of migration 138, and what upgrade followed by downgrade does
    to an arbitrary earlier schema. */
module SchemaRoundTrip {
  import opened Common
  import opened SchemaMigration

  /** project, user and verification type of one verification state. */
  type RowKey = (int, int, string)

  /** One guarded unit of the downgrade. */
  datatype Undo =
    | UndoForeign(table: Name, name: Name)
    | UndoIndex(table: Name, name: Name)
    | Unlink(link: LinkSpec)
    | RestoreLegacy(unique: UniqueSpec)
    | UndoColumn(table: Name, name: Name)
    | UndoTable(table: Name)
    | UndoUnique(table: Name, name: Name)

  function RemoveIf(guard: bool, s: Schema, o: Obj): Schema { if guard then Remove(s, o) else s }

  function DropForeign(s: Schema, t: Name, n: Name): Schema {
    RemoveIf(IsForeign(s, Con(t, n)) && IsOwned(s, Con(t, n)), s, Con(t, n))
  }

  function DropIndex(s: Schema, t: Name, n: Name): Schema { RemoveIf(IsOwned(s, Idx(t, n)), s, Idx(t, n)) }

  function DropOwnedColumn(s: Schema, t: Name, c: Name): Schema {
    if IsOwned(s, Col(t, c)) then DropColumn(s, t, c) else s
  }

  function Revert(s: Schema, undo: Undo, keys: seq<RowKey>): Result<Schema, Error> {
    match undo
    case UndoForeign(t, n) => Ok(if Tab(t) in s then DropForeign(s, t, n) else s)
    case UndoIndex(t, n) => Ok(if Tab(t) in s then DropIndex(s, t, n) else s)
    case Unlink(l) =>
      if Tab(l.table) in s && Col(l.table, l.column) in s
      then Ok(DropOwnedColumn(DropIndex(DropForeign(s, l.table, l.fk), l.table, l.index), l.table, l.column))
      else Ok(s)
    case RestoreLegacy(u) =>
      if Tab(u.table) !in s || HasUnique(s, u.table, u.name) then Ok(s)
      else if HasDuplicates(keys) then Err(RowsConflict)
      else Put(s, Con(u.table, u.name), UniqueDef(u.columns), None)
    case UndoColumn(t, c) => Ok(if Tab(t) in s then DropOwnedColumn(s, t, c) else s)
    case UndoTable(t) => if IsOwned(s, Tab(t)) then DropTable(s, t) else Ok(s)
    case UndoUnique(t, n) => Ok(RemoveIf(HasUnique(s, t, n) && IsOwned(s, Con(t, n)), s, Con(t, n)))
  }

  function RunUndo(s: Schema, undos: seq<Undo>, keys: seq<RowKey>): Result<Schema, Error> {
    if undos == [] then Ok(s)
    else
      var mid := RunUndo(s, Front(undos), keys);
      if mid.Err? then mid else Revert(mid.value, Last(undos), keys)
  }

  // ------------------------------------------------------------ program order

  function ForeignUndos(plan: Plan): seq<Undo> {
    var fs := Reverse(plan.foreigns);
    seq(|fs|, k requires 0 <= k < |fs| => UndoForeign(fs[k].table, fs[k].name))
  }

  function PartialUndos(plan: Plan): seq<Undo> {
    seq(|plan.partials|, k requires 0 <= k < |plan.partials| => UndoIndex(plan.legacy.table, plan.partials[k].name))
  }

  function LinkUndos(plan: Plan, l: LinkSpec): seq<Undo> {
    (if l.table == plan.legacy.table then PartialUndos(plan) else []) + [Unlink(l)]
  }

  function AllLinkUndos(plan: Plan): seq<Undo> { FlatMap(Reverse(plan.links), (l: LinkSpec) => LinkUndos(plan, l)) }

  function ColumnUndos(plan: Plan): seq<Undo> {
    var cs := Reverse(plan.switches);
    seq(|cs|, k requires 0 <= k < |cs| => UndoColumn(plan.settings, cs[k]))
  }

  function TableUndos(plan: Plan): seq<Undo> {
    var ts := Reverse(plan.tables);
    seq(|ts|, k requires 0 <= k < |ts| => UndoTable(ts[k].name))
  }

  function UniqueUndos(plan: Plan): seq<Undo> {
    var us := Reverse(plan.uniques);
    seq(|us|, k requires 0 <= k < |us| => UndoUnique(us[k].table, us[k].name))
  }

  /** Everything up to the restored constraint. */
  function FirstUndos(plan: Plan): seq<Undo> { ForeignUndos(plan) + AllLinkUndos(plan) }

  function Undos(plan: Plan): seq<Undo> {
    FirstUndos(plan) + [RestoreLegacy(plan.legacy)] + ColumnUndos(plan) + TableUndos(plan) + UniqueUndos(plan)
  }

  // --------------------------------------------------------------- preflight

  function Self(k: RowKey): RowKey { k }

  /** GROUP BY key HAVING count(*) > 1 returns a row. */
  predicate HasDuplicates(keys: seq<RowKey>) {
    exists k :: k in keys && |Having(keys, Self, k)| > 1
  }

  predicate UnownedTable(plan: Plan, s: Schema) {
    exists spec :: spec in plan.tables && Tab(spec.name) in s && !IsOwned(s, Tab(spec.name))
  }

  /** Every refusal comes before the first change. */
  function Downgrade(plan: Plan, s: Schema, keys: seq<RowKey>): Result<Schema, Error> {
    if UnownedTable(plan, s) then Err(NotOwned)
    else if Tab(plan.legacy.table) in s && HasDuplicates(keys) then Err(Duplicates)
    else RunUndo(s, Undos(plan), keys)
  }

  /** The preflight query finds a row exactly when the restored unique
      constraint would be violated. */
  lemma DuplicatesIff(keys: seq<RowKey>)
    ensures HasDuplicates(keys) <==> !Distinct(keys)
  {
    if i, j :| 0 <= i < j < |keys| && keys[i] == keys[j] {
      CountTwo(keys, i, j);
      assert keys[i] in keys;
    }
    if Distinct(keys) {
      forall k | k in keys ensures |Having(keys, Self, k)| <= 1 { CountOne(keys, k); }
    }
  }

  lemma {:induction false} CountTwo(keys: seq<RowKey>, i: nat, j: nat)
    requires i < j < |keys| && keys[i] == keys[j]
    ensures |Having(keys, Self, keys[i])| > 1
  {
    if i > 0 {
      CountTwo(keys[1..], i - 1, j - 1);
    } else {
      assert keys[1..][j - 1] == keys[j];
      assert keys[j] in keys[1..];
      assert keys[j] in Having(keys[1..], Self, keys[i]);
    }
  }

  lemma {:induction false} CountOne(keys: seq<RowKey>, k: RowKey)
    requires Distinct(keys)
    ensures |Having(keys, Self, k)| <= 1
  {
    if keys != [] {
      CountOne(keys[1..], k);
      var rest := Having(keys[1..], Self, k);
      assert rest == [] || rest[0] in keys[1..];
    }
  }

  // --------------------------------------------------------------- invariant

  /** The constraint the upgrade drops and the downgrade restores. */
  function Legacy(plan: Plan): Obj { Con(plan.legacy.table, plan.legacy.name) }

  function Rank(plan: Plan, t: Name): int { RankIn(plan.tables, t) }

  function RankIn(tables: seq<TableSpec>, t: Name): (r: int)
    ensures -1 <= r < |tables|
    ensures r >= 0 ==> tables[r].name == t
    ensures r < 0 ==> forall spec :: spec in tables ==> spec.name != t
  {
    if tables == [] then -1
    else if Last(tables).name == t then |tables| - 1
    else RankIn(Front(tables), t)
  }

  /** New tables point back at earlier ones, at themselves, or outside. */
  predicate PointsBack(plan: Plan, t: Name, def: Def) {
    def.ForeignDef? ==> Rank(plan, def.target) <= Rank(plan, t)
  }

  ghost predicate RoundTripOk(plan: Plan) {
    && PlanOk(plan)
    && (exists l :: l in plan.links && l.table == plan.legacy.table)
    && plan.settings != plan.legacy.table
    && (forall spec, o :: spec in plan.tables && o in spec.contents ==> PointsBack(plan, spec.name, spec.contents[o]))
    && (forall spec, r :: spec in plan.tables && r in spec.repairs && r.RepairForeign? ==> PointsBack(plan, spec.name, ForeignOf(r.foreign)))
  }

  /** What the upgrade can have made outside the new tables. */
  predicate Outside(plan: Plan, o: Obj, def: Def) {
    match o.kind
    case Table => false
    case Column => (o.table == plan.settings && o.name in plan.switches) || exists l :: l in plan.links && o == Col(l.table, l.column)
    case Index =>
      || (exists l :: l in plan.links && o == Idx(l.table, l.index) && l.column in Columns(def))
      || (o.table == plan.legacy.table && exists p :: p in plan.partials && p.name == o.name)
    case Constraint =>
      || (exists l :: l in plan.links && o == Con(l.table, l.fk) && def.ForeignDef? && l.column in Columns(def))
      || (exists u :: u in plan.uniques && o == Con(u.table, u.name) && def.UniqueDef?)
      || (exists f :: f in plan.foreigns && o == Con(f.table, f.name) && def.ForeignDef?)
  }

  predicate Inside(plan: Plan, o: Obj, e: Entry) {
    IsNew(plan, o.table) && (if o.kind.Table? then e.comment == OWNED else PointsBack(plan, o.table, e.def))
  }

  predicate MadeHere(plan: Plan, o: Obj, e: Entry) {
    Inside(plan, o, e) || (e.comment == OWNED && Outside(plan, o, e.def))
  }

  /** Nothing hangs in the air. */
  predicate Grounded(s: Schema, o: Obj) {
    o in s ==>
      && (o.kind.Table? ==> o == Tab(o.table) && s[o].def.TableDef?)
      && (o.kind.Column? ==> s[o].def.ColumnDef?)
      && HasColumns(s, o.table, Columns(s[o].def))
      && (IsForeign(s, o) ==> Tab(s[o].def.target) in s)
  }

  ghost predicate Sound(s: Schema) { forall o :: o in s ==> Grounded(s, o) }

  /** A schema from before the revision: none of its tables, no such comment. */
  ghost predicate Base(plan: Plan, s0: Schema) {
    && Sound(s0)
    && (forall o :: o in s0 ==> s0[o].comment != OWNED)
    && (forall o :: o in s0 ==> !IsNew(plan, o.table))
  }

  ghost predicate Inv(plan: Plan, s0: Schema, s: Schema) {
    && Sound(s)
    && (forall o :: o in s0 && o != Legacy(plan) ==> o in s && s[o] == s0[o])
    && (forall o :: o in s && o !in s0 && o != Legacy(plan) ==> MadeHere(plan, o, s[o]))
  }

  // ------------------------------------------------------------ upgrade keeps

  lemma PutShape(s: Schema, o: Obj, def: Def, comment: Option<string>)
    requires Put(s, o, def, comment).Ok?
    ensures Put(s, o, def, comment).value == s[o := Entry(def, comment)] && o !in s
    ensures HasColumns(s, o.table, Columns(def)) && (def.ForeignDef? ==> Tab(def.target) in s)
  {
  }

  lemma PutInv(plan: Plan, s0: Schema, s: Schema, o: Obj, def: Def, comment: Option<string>)
    requires Base(plan, s0) && Inv(plan, s0, s) && Put(s, o, def, comment).Ok?
    requires o != Legacy(plan) && o.kind != Table && (o.kind.Column? <==> def.ColumnDef?) && !def.TableDef?
    requires MadeHere(plan, o, Entry(def, comment))
    ensures Inv(plan, s0, Put(s, o, def, comment).value)
  {
    hide MadeHere, Legacy, IsNew, Put;
    PutShape(s, o, def, comment);
    var s' := Put(s, o, def, comment).value;
    forall p | p in s' ensures Grounded(s', p) { assert p != o ==> Grounded(s, p); }
  }

  /** What a unit puts into the schema, and where. */
  function Addition(u: Step): Option<(Obj, Def, Option<string>)> {
    match u
    case RepairColumn(t, c, ddl) => Some((Col(t, c), ColumnDef(ddl), None))
    case RepairForeign(f) => Some((Con(f.table, f.name), ForeignOf(f), None))
    case RepairUnique(q) => Some((Con(q.table, q.name), UniqueOf(q), None))
    case NewIndex(t, i) => Some((Idx(t, i.name), IndexOf(i), OWNED))
    case OwnedColumn(t, c) => Some((Col(t, c), SWITCH, OWNED))
    case EnsureUnique(q) => Some((Con(q.table, q.name), UniqueOf(q), OWNED))
    case EnsureForeign(f) => Some((Con(f.table, f.name), ForeignOf(f), OWNED))
    case _ => None
  }

  /** The repairs' foreign keys point back as well. */
  ghost predicate RepairOk(plan: Plan, u: Step) {
    u.RepairForeign? ==> PointsBack(plan, u.foreign.table, ForeignOf(u.foreign))
  }

  lemma AdditionIsMadeHere(plan: Plan, u: Step)
    requires RoundTripOk(plan) && Planned(plan, u) && RepairOk(plan, u) && Addition(u).Some?
    ensures var (o, def, comment) := Addition(u).value;
      && MadeHere(plan, o, Entry(def, comment)) && o != Legacy(plan)
      && o.kind != Table && (o.kind.Column? <==> def.ColumnDef?) && !def.TableDef?
  {
  }

  /** Each unit of the plan keeps what the earlier schema had and adds only
      objects the downgrade will recognise. */
  lemma ApplyInv(plan: Plan, s0: Schema, s: Schema, u: Step)
    requires RoundTripOk(plan) && Base(plan, s0) && Inv(plan, s0, s)
    requires Planned(plan, u) && StepOk(u) && RepairOk(plan, u) && Apply(s, u).Ok?
    ensures Inv(plan, s0, Apply(s, u).value)
  {
    hide MadeHere, Base, Inv, Sound, Put, RoundTripOk;
    if Addition(u).Some? {
      var (o, def, comment) := Addition(u).value;
      AdditionIsMadeHere(plan, u);
      if Apply(s, u).value != s { PutInv(plan, s0, s, o, def, comment); }
    } else if u.NewTable? {
      if Tab(u.spec.name) !in s { NewTableInv(plan, s0, s, u.spec); }
    } else if u.Link? {
      LinkInv(plan, s0, s, u.link);
    } else if u.DropLegacy? {
      DropLegacyInv(plan, s0, s);
    }
  }

  lemma NewTableInv(plan: Plan, s0: Schema, s: Schema, spec: TableSpec)
    requires RoundTripOk(plan) && Base(plan, s0) && Inv(plan, s0, s) && spec in plan.tables
    requires Tab(spec.name) !in s && TargetsExist(s, spec)
    ensures Inv(plan, s0, CreateTable(s, spec))
  {
    hide RoundTripOk, Grounded, MadeHere, CreateTable, TargetsExist;
    assert ContentsOk(spec) by { OwnContents(plan, spec); }
    CreatedKeeps(s, spec);
    CreatedGrounded(s, spec);
    CreatedMade(plan, s, spec);
  }

  lemma OwnContents(plan: Plan, spec: TableSpec)
    requires RoundTripOk(plan) && spec in plan.tables
    ensures ContentsOk(spec)
  {
  }

  /** A sound schema has nothing of a table that is not there. */
  lemma CreatedKeeps(s: Schema, spec: TableSpec)
    requires Sound(s) && ContentsOk(spec) && Tab(spec.name) !in s
    ensures forall o :: o in s ==> o in CreateTable(s, spec) && CreateTable(s, spec)[o] == s[o]
  {
    forall o | o in s ensures o.table != spec.name { assert Grounded(s, o); }
  }

  lemma CreatedGrounded(s: Schema, spec: TableSpec)
    requires Sound(s) && ContentsOk(spec) && Tab(spec.name) !in s && TargetsExist(s, spec)
    ensures Sound(CreateTable(s, spec))
  {
    var s' := CreateTable(s, spec);
    CreatedKeeps(s, spec);
    forall o | o in s' ensures Grounded(s', o) { assert o in s ==> Grounded(s, o); }
  }

  lemma CreatedMade(plan: Plan, s: Schema, spec: TableSpec)
    requires RoundTripOk(plan) && spec in plan.tables
    ensures var s' := CreateTable(s, spec); forall o :: o in s' && o !in s ==> MadeHere(plan, o, s'[o])
  {
    hide Outside;
    var s' := CreateTable(s, spec);
    forall o | o in s' && o !in s ensures MadeHere(plan, o, s'[o]) {
      assert o == Tab(spec.name) || (o in spec.contents && s'[o] == Entry(spec.contents[o], None));
      assert IsNew(plan, o.table);
    }
  }

  lemma LinkInv(plan: Plan, s0: Schema, s: Schema, l: LinkSpec)
    requires RoundTripOk(plan) && Base(plan, s0) && Inv(plan, s0, s) && l in plan.links && Apply(s, Link(l)).Ok?
    ensures Inv(plan, s0, Apply(s, Link(l)).value)
  {
    hide Inv, Base, Put, RoundTripOk, Legacy;
    var col := Col(l.table, l.column);
    if Tab(l.table) in s && col !in s {
      var mid := s[col := Entry(BIGINT, OWNED)];
      LinkColumnInv(plan, s0, s, l);
      LinkIsMadeHere(plan, l);
      PutInv(plan, s0, mid, Con(l.table, l.fk), LinkOf(l), OWNED);
    }
  }

  lemma LinkIsMadeHere(plan: Plan, l: LinkSpec)
    requires RoundTripOk(plan) && l in plan.links
    ensures Con(l.table, l.fk) != Legacy(plan)
    ensures MadeHere(plan, Con(l.table, l.fk), Entry(LinkOf(l), OWNED)) && MadeHere(plan, Col(l.table, l.column), Entry(BIGINT, OWNED))
  {
    hide IsNew, PointsBack;
    assert Outside(plan, Col(l.table, l.column), BIGINT) && Outside(plan, Con(l.table, l.fk), LinkOf(l));
  }

  lemma LinkColumnInv(plan: Plan, s0: Schema, s: Schema, l: LinkSpec)
    requires RoundTripOk(plan) && Base(plan, s0) && Inv(plan, s0, s) && l in plan.links
    requires Tab(l.table) in s && Col(l.table, l.column) !in s
    ensures Inv(plan, s0, s[Col(l.table, l.column) := Entry(BIGINT, OWNED)])
  {
    hide MadeHere, RoundTripOk;
    var mid := s[Col(l.table, l.column) := Entry(BIGINT, OWNED)];
    LinkIsMadeHere(plan, l);
    forall o | o in mid ensures Grounded(mid, o) { assert o in s ==> Grounded(s, o); }
  }

  lemma DropLegacyInv(plan: Plan, s0: Schema, s: Schema)
    requires Base(plan, s0) && Inv(plan, s0, s)
    ensures Inv(plan, s0, Remove(s, Legacy(plan)))
  {
    var s' := Remove(s, Legacy(plan));
    forall o | o in s' ensures Grounded(s', o) { assert Grounded(s, o); }
  }

  lemma {:induction false} RunInv(plan: Plan, s0: Schema, steps: seq<Step>)
    requires RoundTripOk(plan) && Base(plan, s0) && Run(s0, steps).Ok?
    requires forall u :: u in steps ==> Planned(plan, u) && StepOk(u) && RepairOk(plan, u)
    ensures Inv(plan, s0, Run(s0, steps).value)
  {
    hide RoundTripOk, Apply, Planned, RepairOk, StepOk;
    if steps != [] {
      assert forall u :: u in Front(steps) ==> u in steps;
      assert Last(steps) in steps;
      RunInv(plan, s0, Front(steps));
      hide Inv, Base;
      ApplyInv(plan, s0, Run(s0, Front(steps)).value, Last(steps));
    }
  }

  // ---------------------------------------------------------- downgrade keeps

  /** The objects a downgrade unit is there to remove. */
  predicate Hits(plan: Plan, undo: Undo, o: Obj, e: Entry) {
    match undo
    case UndoForeign(t, n) => o == Con(t, n) && e.def.ForeignDef? && e.comment == OWNED
    case UndoIndex(t, n) => o == Idx(t, n) && e.comment == OWNED
    case Unlink(l) =>
      e.comment == OWNED &&
      ((o == Con(l.table, l.fk) && e.def.ForeignDef? && l.column in Columns(e.def))
       || (o == Idx(l.table, l.index) && l.column in Columns(e.def)) || o == Col(l.table, l.column))
    case RestoreLegacy(_) => false
    case UndoColumn(t, c) => o == Col(t, c) && e.comment == OWNED
    case UndoTable(t) => o.table == t
    case UndoUnique(t, n) => o == Con(t, n) && e.def.UniqueDef? && e.comment == OWNED
  }

  /** The units of a downgrade leave the legacy constraint to one of them. */
  predicate UndoOk(plan: Plan, undo: Undo) {
    match undo
    case UndoForeign(t, n) => Con(t, n) != Legacy(plan)
    case UndoIndex(_, _) => true
    case Unlink(l) => Con(l.table, l.fk) != Legacy(plan)
    case RestoreLegacy(u) => u == plan.legacy
    case UndoColumn(t, _) => t != plan.legacy.table
    case UndoTable(t) => IsNew(plan, t)
    case UndoUnique(t, n) => Con(t, n) != Legacy(plan)
  }

  /** The later schema only lost objects, and none of the base schema's except
      perhaps the legacy constraint. */
  ghost predicate Shrinks(plan: Plan, s0: Schema, s: Schema, s': Schema) {
    && (forall o :: o in s' ==> o in s && s'[o] == s[o])
    && (forall o :: o in s0 && o in s && o != Legacy(plan) ==> o in s')
  }

  /** An object with the ownership comment was not in the earlier schema. */
  lemma OwnedIsExtra(plan: Plan, s0: Schema, s: Schema, o: Obj)
    requires Base(plan, s0) && Inv(plan, s0, s) && IsOwned(s, o) && o != Legacy(plan)
    ensures o !in s0
  {
  }

  lemma RemoveInv(plan: Plan, s0: Schema, s: Schema, o: Obj)
    requires Base(plan, s0) && Inv(plan, s0, s) && IsOwned(s, o) && o != Legacy(plan) && (o.kind.Index? || o.kind.Constraint?)
    ensures Inv(plan, s0, Remove(s, o)) && Shrinks(plan, s0, s, Remove(s, o))
  {
    hide MadeHere, Legacy;
    OwnedIsExtra(plan, s0, s, o);
    forall p | p in Remove(s, o) ensures Grounded(Remove(s, o), p) { assert Grounded(s, p); }
  }

  lemma DropColumnInv(plan: Plan, s0: Schema, s: Schema, t: Name, c: Name)
    requires Base(plan, s0) && Inv(plan, s0, s) && IsOwned(s, Col(t, c))
    ensures var s' := DropColumn(s, t, c);
      Inv(plan, s0, s') && Shrinks(plan, s0, s, s')
  {
    hide MadeHere;
    var s' := DropColumn(s, t, c);
    OwnedIsExtra(plan, s0, s, Col(t, c));
    forall p | p in s' ensures Grounded(s', p) { assert Grounded(s, p); }
    forall o | o in s0 && o in s && o != Legacy(plan) ensures o in s' { assert Grounded(s0, o); }
  }

  lemma DropTableInv(plan: Plan, s0: Schema, s: Schema, t: Name)
    requires Base(plan, s0) && Inv(plan, s0, s) && IsOwned(s, Tab(t)) && DropTable(s, t).Ok?
    ensures var s' := DropTable(s, t).value;
      Inv(plan, s0, s') && Shrinks(plan, s0, s, s')
  {
    hide MadeHere;
    var s' := DropTable(s, t).value;
    OwnedIsExtra(plan, s0, s, Tab(t));
    forall p | p in s' ensures Grounded(s', p) { assert Grounded(s, p); }
    forall o | o in s0 && o in s && o != Legacy(plan) ensures o in s' { assert Grounded(s0, o); }
  }

  lemma ShrinksTrans(plan: Plan, s0: Schema, a: Schema, b: Schema, c: Schema)
    requires Shrinks(plan, s0, a, b) && Shrinks(plan, s0, b, c)
    ensures Shrinks(plan, s0, a, c)
  {
    hide Legacy;
  }

  lemma DropForeignInv(plan: Plan, s0: Schema, s: Schema, t: Name, n: Name)
    requires Base(plan, s0) && Inv(plan, s0, s) && Con(t, n) != Legacy(plan)
    ensures var s' := DropForeign(s, t, n);
      Inv(plan, s0, s') && Shrinks(plan, s0, s, s') && (forall c :: Col(t, c) in s ==> Col(t, c) in s')
  {
    hide Inv, Base, Legacy, Shrinks;
    if DropForeign(s, t, n) == s { ShrinksRefl(plan, s0, s); } else { RemoveInv(plan, s0, s, Con(t, n)); }
  }

  lemma ShrinksRefl(plan: Plan, s0: Schema, s: Schema)
    ensures Shrinks(plan, s0, s, s)
  {
  }

  lemma DropIndexInv(plan: Plan, s0: Schema, s: Schema, t: Name, n: Name)
    requires Base(plan, s0) && Inv(plan, s0, s)
    ensures var s' := DropIndex(s, t, n);
      Inv(plan, s0, s') && Shrinks(plan, s0, s, s')
  {
    hide Inv, Base, Shrinks;
    if DropIndex(s, t, n) == s { ShrinksRefl(plan, s0, s); } else { RemoveInv(plan, s0, s, Idx(t, n)); }
  }

  lemma DropOwnedColumnInv(plan: Plan, s0: Schema, s: Schema, t: Name, c: Name)
    requires Base(plan, s0) && Inv(plan, s0, s)
    ensures var s' := DropOwnedColumn(s, t, c);
      Inv(plan, s0, s') && Shrinks(plan, s0, s, s')
  {
    hide Inv, Base, Shrinks;
    if IsOwned(s, Col(t, c)) { DropColumnInv(plan, s0, s, t, c); } else { ShrinksRefl(plan, s0, s); }
  }

  /** A downgrade unit, other than the restoration, only takes away, and only
      what the base schema did not have. */
  lemma RevertInv(plan: Plan, s0: Schema, s: Schema, undo: Undo, keys: seq<RowKey>)
    requires Base(plan, s0) && Inv(plan, s0, s) && UndoOk(plan, undo) && !undo.RestoreLegacy? && Revert(s, undo, keys).Ok?
    ensures var s' := Revert(s, undo, keys).value;
      Inv(plan, s0, s') && Shrinks(plan, s0, s, s')
  {
    hide Inv, Base, Shrinks, DropForeign, DropIndex, DropOwnedColumn, DropTable;
    ShrinksRefl(plan, s0, s);
    match undo
    case UndoForeign(t, n) => DropForeignInv(plan, s0, s, t, n);
    case UndoIndex(t, n) => DropIndexInv(plan, s0, s, t, n);
    case Unlink(l) => UnlinkInv(plan, s0, s, l);
    case UndoColumn(t, c) => DropOwnedColumnInv(plan, s0, s, t, c);
    case UndoTable(t) => if IsOwned(s, Tab(t)) { DropTableInv(plan, s0, s, t); }
    case UndoUnique(t, n) => if HasUnique(s, t, n) && IsOwned(s, Con(t, n)) { RemoveInv(plan, s0, s, Con(t, n)); }
  }

  lemma UnlinkInv(plan: Plan, s0: Schema, s: Schema, l: LinkSpec)
    requires Base(plan, s0) && Inv(plan, s0, s) && Con(l.table, l.fk) != Legacy(plan)
    ensures var s' := DropOwnedColumn(DropIndex(DropForeign(s, l.table, l.fk), l.table, l.index), l.table, l.column);
      Inv(plan, s0, s') && Shrinks(plan, s0, s, s')
  {
    hide Inv, Base, Shrinks, DropForeign, DropIndex, DropOwnedColumn, Legacy;
    var s1 := DropForeign(s, l.table, l.fk);
    var s2 := DropIndex(s1, l.table, l.index);
    var s3 := DropOwnedColumn(s2, l.table, l.column);
    DropForeignInv(plan, s0, s, l.table, l.fk);
    DropIndexInv(plan, s0, s1, l.table, l.index);
    DropOwnedColumnInv(plan, s0, s2, l.table, l.column);
    ShrinksTrans(plan, s0, s, s1, s2);
    ShrinksTrans(plan, s0, s, s2, s3);
  }

  /** The unit removes whatever it is there to remove. */
  lemma RevertHits(plan: Plan, s0: Schema, s: Schema, undo: Undo, keys: seq<RowKey>, o: Obj)
    requires RoundTripOk(plan) && Base(plan, s0) && Inv(plan, s0, s) && UndoOk(plan, undo) && Revert(s, undo, keys).Ok?
    requires o in s && o !in s0 && o != Legacy(plan) && Hits(plan, undo, o, s[o])
    ensures o !in Revert(s, undo, keys).value
  {
    assert Grounded(s, o);
    match undo
    case UndoTable(t) =>
      TableIsOwned(plan, s0, s, o);
    case _ =>
  }

  /** The table of a new object in a new table is itself new and marked. */
  lemma TableIsOwned(plan: Plan, s0: Schema, s: Schema, o: Obj)
    requires RoundTripOk(plan) && Base(plan, s0) && Inv(plan, s0, s) && o in s && IsNew(plan, o.table)
    ensures IsOwned(s, Tab(o.table))
  {
    assert Grounded(s, o);
    assert Tab(o.table) !in s0;
  }

  // ------------------------------------------------------ runs of the downgrade

  ghost predicate Plain(plan: Plan, undos: seq<Undo>) { forall u :: u in undos ==> UndoOk(plan, u) && !u.RestoreLegacy? }

  /** No object left over from the upgrade is one these units remove. */
  ghost predicate Clear(plan: Plan, s0: Schema, s: Schema, undos: seq<Undo>) {
    forall o, u :: o in s && o !in s0 && o != Legacy(plan) && u in undos ==> !Hits(plan, u, o, s[o])
  }

  /** A run of units other than the restoration: nothing of the base schema is
      lost, and nothing that a unit of the run is there to remove is left. */
  lemma {:induction false} RunUndoFacts(plan: Plan, s0: Schema, s: Schema, undos: seq<Undo>, keys: seq<RowKey>)
    requires RoundTripOk(plan) && Base(plan, s0) && Inv(plan, s0, s) && Plain(plan, undos) && RunUndo(s, undos, keys).Ok?
    ensures var s' := RunUndo(s, undos, keys).value;
      Inv(plan, s0, s') && Shrinks(plan, s0, s, s') && Clear(plan, s0, s', undos)
  {
    hide Inv, Base, RoundTripOk, UndoOk, Revert, Hits, Legacy;
    if undos == [] {
      ShrinksRefl(plan, s0, s);
    } else {
      var mid, last := RunUndo(s, Front(undos), keys).value, Last(undos);
      assert forall u :: u in Front(undos) ==> u in undos;
      assert last in undos;
      RunUndoFacts(plan, s0, s, Front(undos), keys);
      RevertInv(plan, s0, mid, last, keys);
      var s' := Revert(mid, last, keys).value;
      ShrinksTrans(plan, s0, s, mid, s');
      forall o, u | o in s' && o !in s0 && o != Legacy(plan) && u in undos ensures !Hits(plan, u, o, s'[o]) {
        assert o in mid && s'[o] == mid[o];
        if Hits(plan, last, o, mid[o]) { RevertHits(plan, s0, mid, last, keys, o); }
        assert u in Front(undos) || u == last;
      }
    }
  }

  lemma {:induction false} RunUndoAppend(s: Schema, a: seq<Undo>, b: seq<Undo>, keys: seq<RowKey>)
    ensures RunUndo(s, a, keys).Ok? ==> RunUndo(s, a + b, keys) == RunUndo(RunUndo(s, a, keys).value, b, keys)
    ensures RunUndo(s, a, keys).Err? ==> RunUndo(s, a + b, keys).Err?
  {
    hide Revert;
    if b == [] {
      assert a + b == a;
    } else {
      assert Front(a + b) == a + Front(b) && Last(a + b) == Last(b);
      RunUndoAppend(s, a, Front(b), keys);
    }
  }

  /** Only the restoration and the table drops can be refused. */
  lemma {:induction false} SafeRuns(s: Schema, undos: seq<Undo>, keys: seq<RowKey>)
    requires forall u :: u in undos ==> !u.RestoreLegacy? && !u.UndoTable?
    ensures RunUndo(s, undos, keys).Ok?
  {
    if undos != [] {
      assert forall u :: u in Front(undos) ==> u in undos;
      assert Last(undos) in undos;
      SafeRuns(s, Front(undos), keys);
    }
  }

  /** The units before and after the restoration. */
  function LastUndos(plan: Plan): seq<Undo> { ColumnUndos(plan) + TableUndos(plan) + UniqueUndos(plan) }

  lemma UndosPlain(plan: Plan)
    requires RoundTripOk(plan)
    ensures Plain(plan, FirstUndos(plan)) && Plain(plan, ColumnUndos(plan)) && Plain(plan, TableUndos(plan)) && Plain(plan, UniqueUndos(plan))
    ensures forall u :: u in FirstUndos(plan) ==> !u.UndoTable?
  {
    hide RoundTripOk, PlanOk, UndoOk, ForeignUndos, AllLinkUndos, ColumnUndos, TableUndos, UniqueUndos;
    FirstPlain(plan);
    RestPlain(plan);
  }

  lemma FirstPlain(plan: Plan)
    requires RoundTripOk(plan)
    ensures forall u :: u in ForeignUndos(plan) || u in AllLinkUndos(plan) ==> UndoOk(plan, u) && !u.RestoreLegacy? && !u.UndoTable?
  {
    ReverseMembers(plan.foreigns);
    ReverseMembers(plan.links);
    FlatMapMembers(Reverse(plan.links), (l: LinkSpec) => LinkUndos(plan, l));
    forall u | u in AllLinkUndos(plan) ensures UndoOk(plan, u) && !u.RestoreLegacy? && !u.UndoTable? {
      var l :| l in Reverse(plan.links) && u in LinkUndos(plan, l);
    }
    forall u | u in ForeignUndos(plan) ensures UndoOk(plan, u) && !u.RestoreLegacy? && !u.UndoTable? {
      var fs := Reverse(plan.foreigns);
      var k :| 0 <= k < |fs| && u == UndoForeign(fs[k].table, fs[k].name);
      assert fs[k] in fs;
    }
  }

  lemma RestPlain(plan: Plan)
    requires RoundTripOk(plan)
    ensures Plain(plan, ColumnUndos(plan)) && Plain(plan, TableUndos(plan)) && Plain(plan, UniqueUndos(plan))
  {
    ReverseMembers(plan.tables);
    ReverseMembers(plan.uniques);
    forall u | u in TableUndos(plan) ensures UndoOk(plan, u) {
      var ts := Reverse(plan.tables);
      var k :| 0 <= k < |ts| && u == UndoTable(ts[k].name);
      assert ts[k] in ts;
    }
    forall u | u in UniqueUndos(plan) ensures UndoOk(plan, u) {
      var us := Reverse(plan.uniques);
      var k :| 0 <= k < |us| && u == UndoUnique(us[k].table, us[k].name);
      assert us[k] in us;
    }
  }

  /** Everything the upgrade can make is some unit's to remove. */
  lemma Covered(plan: Plan, o: Obj, e: Entry)
    requires RoundTripOk(plan) && MadeHere(plan, o, e)
    ensures exists u :: (u in FirstUndos(plan) || u in LastUndos(plan)) && Hits(plan, u, o, e)
  {
    hide RoundTripOk;
    if IsNew(plan, o.table) {
      var spec :| spec in plan.tables && spec.name == o.table;
      HasTableUndo(plan, spec);
      assert Hits(plan, UndoTable(o.table), o, e);
    } else {
      match o.kind
      case Column =>
        if o.table == plan.settings && o.name in plan.switches {
          HasColumnUndo(plan, o.name);
          assert Hits(plan, UndoColumn(plan.settings, o.name), o, e);
        } else {
          var l :| l in plan.links && o == Col(l.table, l.column);
          HasUnlink(plan, l);
          assert Hits(plan, Unlink(l), o, e);
        }
      case Index =>
        if l :| l in plan.links && o == Idx(l.table, l.index) && l.column in Columns(e.def) {
          HasUnlink(plan, l);
          assert Hits(plan, Unlink(l), o, e);
        } else {
          var p :| p in plan.partials && p.name == o.name;
          HasPartialUndo(plan, p);
          assert Hits(plan, UndoIndex(plan.legacy.table, p.name), o, e);
        }
      case Constraint =>
        if l :| l in plan.links && o == Con(l.table, l.fk) && e.def.ForeignDef? && l.column in Columns(e.def) {
          HasUnlink(plan, l);
          assert Hits(plan, Unlink(l), o, e);
        } else if u :| u in plan.uniques && o == Con(u.table, u.name) && e.def.UniqueDef? {
          HasUniqueUndo(plan, u);
          assert Hits(plan, UndoUnique(u.table, u.name), o, e);
        } else {
          var f :| f in plan.foreigns && o == Con(f.table, f.name) && e.def.ForeignDef?;
          HasForeignUndo(plan, f);
          assert Hits(plan, UndoForeign(f.table, f.name), o, e);
        }
      case Table =>
    }
  }

  lemma HasTableUndo(plan: Plan, spec: TableSpec)
    requires spec in plan.tables
    ensures UndoTable(spec.name) in TableUndos(plan) && UndoTable(spec.name) in LastUndos(plan)
  {
    ReverseMembers(plan.tables);
    var k :| 0 <= k < |plan.tables| && Reverse(plan.tables)[k] == spec;
    assert TableUndos(plan)[k] == UndoTable(spec.name);
  }

  lemma HasColumnUndo(plan: Plan, c: Name)
    requires c in plan.switches
    ensures UndoColumn(plan.settings, c) in LastUndos(plan)
  {
    ReverseMembers(plan.switches);
    var k :| 0 <= k < |plan.switches| && Reverse(plan.switches)[k] == c;
    assert ColumnUndos(plan)[k] == UndoColumn(plan.settings, c);
  }

  lemma HasUniqueUndo(plan: Plan, u: UniqueSpec)
    requires u in plan.uniques
    ensures UndoUnique(u.table, u.name) in LastUndos(plan)
  {
    ReverseMembers(plan.uniques);
    var k :| 0 <= k < |plan.uniques| && Reverse(plan.uniques)[k] == u;
    assert UniqueUndos(plan)[k] == UndoUnique(u.table, u.name);
  }

  lemma HasForeignUndo(plan: Plan, f: ForeignSpec)
    requires f in plan.foreigns
    ensures UndoForeign(f.table, f.name) in FirstUndos(plan)
  {
    ReverseMembers(plan.foreigns);
    var k :| 0 <= k < |plan.foreigns| && Reverse(plan.foreigns)[k] == f;
    assert ForeignUndos(plan)[k] == UndoForeign(f.table, f.name);
  }

  lemma HasUnlink(plan: Plan, l: LinkSpec)
    requires l in plan.links
    ensures forall u :: u in LinkUndos(plan, l) ==> u in FirstUndos(plan)
    ensures Unlink(l) in FirstUndos(plan)
  {
    ReverseMembers(plan.links);
    FlatMapMembers(Reverse(plan.links), (q: LinkSpec) => LinkUndos(plan, q));
    assert Unlink(l) in LinkUndos(plan, l);
  }

  lemma HasPartialUndo(plan: Plan, p: IndexSpec)
    requires RoundTripOk(plan) && p in plan.partials
    ensures UndoIndex(plan.legacy.table, p.name) in FirstUndos(plan)
  {
    var l :| l in plan.links && l.table == plan.legacy.table;
    HasUnlink(plan, l);
    var k :| 0 <= k < |plan.partials| && plan.partials[k] == p;
    assert PartialUndos(plan)[k] == UndoIndex(plan.legacy.table, p.name);
    assert UndoIndex(plan.legacy.table, p.name) in LinkUndos(plan, l);
  }

  // --------------------------------------------------------------- round trip

  /** The base schema with the constraint of revision 137 on the states. */
  function Restored(plan: Plan, s0: Schema): Schema {
    if Tab(plan.legacy.table) in s0 then s0[Legacy(plan) := Entry(UniqueOf(plan.legacy), None)] else s0
  }

  lemma ClearShrinks(plan: Plan, s0: Schema, s: Schema, s': Schema, undos: seq<Undo>)
    requires Clear(plan, s0, s, undos) && Shrinks(plan, s0, s, s')
    ensures Clear(plan, s0, s', undos)
  {
    hide Hits, Legacy;
  }

  /** The legacy table is there exactly when it was there at the start. */
  lemma LegacyTableKept(plan: Plan, s0: Schema, s: Schema)
    requires RoundTripOk(plan) && Base(plan, s0) && Inv(plan, s0, s)
    ensures Tab(plan.legacy.table) in s <==> Tab(plan.legacy.table) in s0
  {
    assert !IsNew(plan, plan.legacy.table);
  }

  lemma RestoreInv(plan: Plan, s0: Schema, s: Schema, keys: seq<RowKey>)
    requires Inv(plan, s0, s) && Revert(s, RestoreLegacy(plan.legacy), keys).Ok?
    ensures var s' := Revert(s, RestoreLegacy(plan.legacy), keys).value;
      Inv(plan, s0, s') && (forall o :: o in s' && o != Legacy(plan) ==> o in s && s'[o] == s[o])
  {
    hide MadeHere, HasDuplicates, HasUnique, Put;
    var s' := Revert(s, RestoreLegacy(plan.legacy), keys).value;
    if s' != s { PutShape(s, Legacy(plan), UniqueOf(plan.legacy), None); }
    forall o | o in s' ensures Grounded(s', o) { assert o in s ==> Grounded(s, o); }
  }

  lemma {:induction false} LegacyStays(plan: Plan, s: Schema, undos: seq<Undo>, keys: seq<RowKey>)
    requires RoundTripOk(plan) && Plain(plan, undos) && (forall u :: u in undos ==> !u.Unlink?) && RunUndo(s, undos, keys).Ok?
    requires Legacy(plan) in s
    ensures Legacy(plan) in RunUndo(s, undos, keys).value && RunUndo(s, undos, keys).value[Legacy(plan)] == s[Legacy(plan)]
  {
    if undos != [] {
      assert forall u :: u in Front(undos) ==> u in undos;
      assert Last(undos) in undos && UndoOk(plan, Last(undos));
      LegacyStays(plan, s, Front(undos), keys);
    }
  }

  /** The three parts of a downgrade run. */
  lemma SplitRun(plan: Plan, s: Schema, keys: seq<RowKey>)
    ensures RunUndo(s, FirstUndos(plan), keys).Ok?
    ensures var a := RunUndo(s, FirstUndos(plan), keys).value; var b := Revert(a, RestoreLegacy(plan.legacy), keys);
      RunUndo(s, Undos(plan), keys) == if b.Err? then b else RunUndo(b.value, LastUndos(plan), keys)
  {
    hide Revert;
    var first, rest := FirstUndos(plan), LastUndos(plan);
    FirstRuns(plan, s, keys);
    var restore := [RestoreLegacy(plan.legacy)];
    assert Undos(plan) == first + (restore + rest);
    RunUndoAppend(s, first, restore + rest, keys);
    var a := RunUndo(s, first, keys).value;
    assert Front(restore) == [] && RunUndo(a, restore, keys) == Revert(a, Last(restore), keys);
    if RunUndo(a, restore, keys).Ok? {
      RunUndoAppend(a, restore, rest, keys);
    } else {
      ErrStays(a, restore, rest, keys);
    }
  }

  lemma {:induction false} ErrStays(s: Schema, a: seq<Undo>, b: seq<Undo>, keys: seq<RowKey>)
    requires RunUndo(s, a, keys).Err?
    ensures RunUndo(s, a + b, keys) == RunUndo(s, a, keys)
  {
    hide Revert;
    if b == [] {
      assert a + b == a;
    } else {
      assert Front(a + b) == a + Front(b);
      ErrStays(s, a, Front(b), keys);
    }
  }

  lemma FirstRuns(plan: Plan, s: Schema, keys: seq<RowKey>)
    ensures RunUndo(s, FirstUndos(plan), keys).Ok?
  {
    FlatMapMembers(Reverse(plan.links), (l: LinkSpec) => LinkUndos(plan, l));
    SafeRuns(s, FirstUndos(plan), keys);
  }

  lemma LastPlain(plan: Plan)
    requires RoundTripOk(plan)
    ensures Plain(plan, LastUndos(plan)) && forall u :: u in LastUndos(plan) ==> !u.Unlink?
  {
    UndosPlain(plan);
  }

  /** A successful downgrade restores exactly the base schema, up to the
      legacy constraint, which is then as revision 137 made it. */
  lemma DowngradeRestores(plan: Plan, s0: Schema, s1: Schema, keys: seq<RowKey>)
    requires RoundTripOk(plan) && Base(plan, s0) && Inv(plan, s0, s1)
    requires !HasUnique(s1, plan.legacy.table, plan.legacy.name) && Downgrade(plan, s1, keys).Ok?
    ensures Downgrade(plan, s1, keys).value == Restored(plan, s0) && Sound(Restored(plan, s0))
  {
    hide Inv, Base, Hits, MadeHere, RoundTripOk, FirstUndos, LastUndos, Undos;
    SplitRun(plan, s1, keys);
    UndosPlain(plan);
    LastPlain(plan);
    var first, rest := FirstUndos(plan), LastUndos(plan);
    var a := RunUndo(s1, first, keys).value;
    RunUndoFacts(plan, s0, s1, first, keys);
    LegacyTableKept(plan, s0, a);
    var b := Revert(a, RestoreLegacy(plan.legacy), keys).value;
    RestoreInv(plan, s0, a, keys);
    var c := RunUndo(b, rest, keys).value;
    RunUndoFacts(plan, s0, b, rest, keys);
    assert Clear(plan, s0, b, first);
    ClearShrinks(plan, s0, b, c, first);
    if Tab(plan.legacy.table) in s0 { LegacyStays(plan, b, rest, keys); }
    NothingLeft(plan, s0, c);
    IsSound(plan, s0, c);
  }

  lemma IsSound(plan: Plan, s0: Schema, s: Schema)
    requires Inv(plan, s0, s)
    ensures Sound(s)
  {
  }

  lemma NothingLeft(plan: Plan, s0: Schema, c: Schema)
    requires RoundTripOk(plan) && Base(plan, s0) && Inv(plan, s0, c)
    requires Clear(plan, s0, c, FirstUndos(plan)) && Clear(plan, s0, c, LastUndos(plan))
    requires Tab(plan.legacy.table) in s0 ==> Legacy(plan) in c && c[Legacy(plan)] == Entry(UniqueOf(plan.legacy), None)
    ensures c == Restored(plan, s0)
  {
    hide Hits, MadeHere, FirstUndos, LastUndos;
    LegacyTableKept(plan, s0, c);
    forall o | o in c && o != Legacy(plan) ensures o in s0 {
      if o !in s0 { Covered(plan, o, c[o]); }
    }
    assert Legacy(plan) in c ==> Grounded(c, Legacy(plan));
    assert Legacy(plan) in s0 ==> Grounded(s0, Legacy(plan));
  }

  // ------------------------------------------------------------ it goes through

  lemma RankIs(plan: Plan, k: nat)
    requires k < |plan.tables| && Distinct(TableNames(plan))
    ensures Rank(plan, plan.tables[k].name) == k
  {
    var t := plan.tables[k].name;
    assert plan.tables[k] in plan.tables;
    var r := Rank(plan, t);
    assert TableNames(plan)[r] == TableNames(plan)[k];
  }

  /** When its turn comes, no other table points at a new table any more. */
  lemma {:induction false} TablesDrop(plan: Plan, s0: Schema, s: Schema, k: nat, keys: seq<RowKey>)
    requires RoundTripOk(plan) && Base(plan, s0) && Inv(plan, s0, s) && Clear(plan, s0, s, FirstUndos(plan))
    requires Legacy(plan) in s ==> !s[Legacy(plan)].def.ForeignDef?
    requires k <= |plan.tables|
    ensures RunUndo(s, TableUndos(plan)[..k], keys).Ok?
  {
    hide Inv, Base, Clear, Plain, Shrinks, Legacy, MadeHere, RoundTripOk, FirstUndos, TableUndos, DropTable;
    if k > 0 {
      var undos := TableUndos(plan);
      TableUndoAt(plan, k);
      FrontOfPrefix(undos, k - 1);
      TablesDrop(plan, s0, s, k - 1, keys);
      RunUndoFacts(plan, s0, s, undos[..k - 1], keys);
      var mid := RunUndo(s, undos[..k - 1], keys).value;
      ClearShrinks(plan, s0, s, mid, FirstUndos(plan));
      StillNotForeign(plan, s0, s, mid);
      TableFree(plan, s0, mid, k);
    }
  }

  lemma TableUndoAt(plan: Plan, k: nat)
    requires RoundTripOk(plan) && 0 < k <= |plan.tables|
    ensures |TableUndos(plan)| == |plan.tables| && Plain(plan, TableUndos(plan)[..k - 1])
    ensures TableUndos(plan)[k - 1] == UndoTable(plan.tables[|plan.tables| - k].name)
  {
    hide RoundTripOk;
    UndosPlain(plan);
    assert forall u :: u in TableUndos(plan)[..k - 1] ==> u in TableUndos(plan);
  }

  lemma StillNotForeign(plan: Plan, s0: Schema, s: Schema, s': Schema)
    requires Shrinks(plan, s0, s, s') && (Legacy(plan) in s ==> !s[Legacy(plan)].def.ForeignDef?)
    ensures Legacy(plan) in s' ==> !s'[Legacy(plan)].def.ForeignDef?
  {
  }

  lemma TableFree(plan: Plan, s0: Schema, s: Schema, k: nat)
    requires RoundTripOk(plan) && Base(plan, s0) && Inv(plan, s0, s) && Clear(plan, s0, s, FirstUndos(plan))
    requires Legacy(plan) in s ==> !s[Legacy(plan)].def.ForeignDef?
    requires 0 < k <= |plan.tables| && Clear(plan, s0, s, TableUndos(plan)[..k - 1])
    ensures DropTable(s, plan.tables[|plan.tables| - k].name).Ok?
  {
    hide MadeHere, Hits, RoundTripOk, Rank;
    var at := |plan.tables| - k;
    var t := plan.tables[at].name;
    forall o | o in s && IsForeign(s, o) && o.table != t ensures s[o].def.target != t {
      if o in s0 {
        assert Grounded(s0, o);
        TargetIsOld(plan, s0, t, at);
      } else if s[o].def.target == t {
        NotOutside(plan, s0, s, o);
        InsidePointsBack(plan, s0, s, o, k);
      }
    }
  }

  lemma TargetIsOld(plan: Plan, s0: Schema, t: Name, at: nat)
    requires Base(plan, s0) && at < |plan.tables| && plan.tables[at].name == t
    ensures Tab(t) !in s0
  {
    assert plan.tables[at] in plan.tables && IsNew(plan, t);
  }

  /** A left-over foreign key is not one of the first units' any more. */
  lemma NotOutside(plan: Plan, s0: Schema, s: Schema, o: Obj)
    requires RoundTripOk(plan) && Inv(plan, s0, s) && Clear(plan, s0, s, FirstUndos(plan))
    requires o in s && o !in s0 && o != Legacy(plan) && IsForeign(s, o)
    ensures Inside(plan, o, s[o])
  {
    hide RoundTripOk, FirstUndos;
    var e := s[o];
    forall l | l in plan.links ensures !(o == Con(l.table, l.fk) && l.column in Columns(e.def) && e.comment == OWNED) {
      HasUnlink(plan, l);
      assert !Hits(plan, Unlink(l), o, e);
    }
    forall f | f in plan.foreigns ensures !(o == Con(f.table, f.name) && e.comment == OWNED) {
      HasForeignUndo(plan, f);
      assert !Hits(plan, UndoForeign(f.table, f.name), o, e);
    }
  }

  /** And one inside a later new table went with that table. */
  lemma InsidePointsBack(plan: Plan, s0: Schema, s: Schema, o: Obj, k: nat)
    requires RoundTripOk(plan) && 0 < k <= |plan.tables| && Clear(plan, s0, s, TableUndos(plan)[..k - 1])
    requires o in s && o !in s0 && o != Legacy(plan) && IsForeign(s, o) && Inside(plan, o, s[o])
    ensures s[o].def.target == plan.tables[|plan.tables| - k].name ==> o.table == s[o].def.target
  {
    var n, undos := |plan.tables|, TableUndos(plan);
    forall r | n - k < r < n ensures plan.tables[r].name != o.table {
      assert undos[n - 1 - r] == UndoTable(plan.tables[r].name);
      assert undos[..k - 1][n - 1 - r] in undos[..k - 1];
      assert !Hits(plan, UndoTable(plan.tables[r].name), o, s[o]);
    }
    RankIs(plan, n - k);
  }

  /** The downgrade goes through whenever the states' three columns were there,
      no two rows share them, and the legacy constraint is gone. */
  lemma DowngradeSucceeds(plan: Plan, s0: Schema, s1: Schema, keys: seq<RowKey>)
    requires RoundTripOk(plan) && Base(plan, s0) && Inv(plan, s0, s1) && Legacy(plan) !in s1
    requires Tab(plan.legacy.table) in s0 ==> !HasDuplicates(keys) && HasColumns(s0, plan.legacy.table, plan.legacy.columns)
    ensures Downgrade(plan, s1, keys).Ok?
  {
    hide Inv, Base, Clear, Plain, Hits, MadeHere, RoundTripOk, FirstUndos, LastUndos, Undos, HasDuplicates, UndoOk, Revert, UnownedTable, Legacy, HasColumns, Shrinks;
    SplitRun(plan, s1, keys);
    UndosPlain(plan);
    LegacyTableKept(plan, s0, s1);
    AllOwned(plan, s0, s1);
    var first := FirstUndos(plan);
    var a := RunUndo(s1, first, keys).value;
    RunUndoFacts(plan, s0, s1, first, keys);
    AfterFirst(plan, s0, s1, a, keys);
    RestRuns(plan, s0, Revert(a, RestoreLegacy(plan.legacy), keys).value, keys);
  }

  lemma AfterFirst(plan: Plan, s0: Schema, s1: Schema, a: Schema, keys: seq<RowKey>)
    requires RoundTripOk(plan) && Base(plan, s0) && Inv(plan, s0, a) && Legacy(plan) !in s1 && Shrinks(plan, s0, s1, a)
    requires Tab(plan.legacy.table) in s0 ==> !HasDuplicates(keys) && HasColumns(s0, plan.legacy.table, plan.legacy.columns)
    requires Clear(plan, s0, a, FirstUndos(plan))
    ensures var b := Revert(a, RestoreLegacy(plan.legacy), keys);
      b.Ok? && Inv(plan, s0, b.value) && Clear(plan, s0, b.value, FirstUndos(plan))
      && (Legacy(plan) in b.value ==> !b.value[Legacy(plan)].def.ForeignDef?)
  {
    hide Hits, MadeHere, RoundTripOk, FirstUndos, HasDuplicates, Sound;
    LegacyTableKept(plan, s0, a);
    assert HasColumns(s0, plan.legacy.table, plan.legacy.columns) ==> HasColumns(a, plan.legacy.table, plan.legacy.columns);
    RestoreInv(plan, s0, a, keys);
  }

  lemma AllOwned(plan: Plan, s0: Schema, s: Schema)
    requires RoundTripOk(plan) && Base(plan, s0) && Inv(plan, s0, s)
    ensures !UnownedTable(plan, s)
  {
    forall spec | spec in plan.tables && Tab(spec.name) in s ensures IsOwned(s, Tab(spec.name)) {
      assert IsNew(plan, spec.name);
      TableIsOwned(plan, s0, s, Tab(spec.name));
    }
  }

  lemma RestRuns(plan: Plan, s0: Schema, b: Schema, keys: seq<RowKey>)
    requires RoundTripOk(plan) && Base(plan, s0) && Inv(plan, s0, b) && Clear(plan, s0, b, FirstUndos(plan))
    requires Legacy(plan) in b ==> !b[Legacy(plan)].def.ForeignDef?
    ensures RunUndo(b, LastUndos(plan), keys).Ok?
  {
    hide Inv, Base, Hits, RoundTripOk, FirstUndos, UndoOk;
    var columns, tables, uniques := ColumnUndos(plan), TableUndos(plan), UniqueUndos(plan);
    UndosPlain(plan);
    SafeRuns(b, columns, keys);
    var c := RunUndo(b, columns, keys).value;
    RunUndoFacts(plan, s0, b, columns, keys);
    ClearShrinks(plan, s0, b, c, FirstUndos(plan));
    TablesDrop(plan, s0, c, |plan.tables|, keys);
    assert tables[..|plan.tables|] == tables;
    RunUndoAppend(b, columns, tables, keys);
    SafeRuns(RunUndo(c, tables, keys).value, uniques, keys);
    RunUndoAppend(b, columns + tables, uniques, keys);
  }

  // ------------------------------------------------------------------ headline

  lemma PlannedRepairs(plan: Plan)
    requires RoundTripOk(plan)
    ensures forall u :: u in Upgrade(plan) ==> Planned(plan, u) && StepOk(u) && RepairOk(plan, u)
  {
    UpgradeInOrder(plan);
    FlatMapMembers(plan.tables, TableSteps);
    FlatMapMembers(plan.links, LinkSteps);
    forall u | u in Upgrade(plan) && u.RepairForeign? ensures RepairOk(plan, u) {
      assert u in TableStage(plan) by { LinkStagePlanned(plan); }
      var spec :| spec in plan.tables && u in TableSteps(spec);
      assert u in spec.repairs;
    }
  }

  lemma {:induction false} LegacyOnlyOld(plan: Plan, s0: Schema, steps: seq<Step>)
    requires RoundTripOk(plan) && Run(s0, steps).Ok?
    requires forall u :: u in steps ==> Planned(plan, u) && StepOk(u) && RepairOk(plan, u)
    ensures Legacy(plan) in Run(s0, steps).value ==> Legacy(plan) in s0 && Run(s0, steps).value[Legacy(plan)] == s0[Legacy(plan)]
  {
    hide RoundTripOk, Planned, StepOk, RepairOk, Apply;
    if steps != [] {
      assert forall u :: u in Front(steps) ==> u in steps;
      assert Last(steps) in steps;
      LegacyOnlyOld(plan, s0, Front(steps));
      LegacyNotMade(plan, Run(s0, Front(steps)).value, Last(steps));
    }
  }

  lemma LegacyNotMade(plan: Plan, s: Schema, u: Step)
    requires RoundTripOk(plan) && Planned(plan, u) && StepOk(u) && RepairOk(plan, u) && Apply(s, u).Ok?
    ensures Legacy(plan) in Apply(s, u).value ==> Legacy(plan) in s && Apply(s, u).value[Legacy(plan)] == s[Legacy(plan)]
  {
    hide MadeHere;
    if Addition(u).Some? { AdditionIsMadeHere(plan, u); }
  }

  /** What upgrade leaves behind. */
  lemma AfterUpgrade(plan: Plan, s0: Schema)
    requires RoundTripOk(plan) && Base(plan, s0) && Run(s0, Upgrade(plan)).Ok?
    ensures var s1 := Run(s0, Upgrade(plan)).value;
      && Inv(plan, s0, s1) && !HasUnique(s1, plan.legacy.table, plan.legacy.name)
      && (Legacy(plan) in s1 ==> Legacy(plan) in s0 && s1[Legacy(plan)] == s0[Legacy(plan)])
  {
    hide Inv, Base, Apply, Planned, StepOk, RepairOk;
    UpgradeInOrder(plan);
    PlannedRepairs(plan);
    RunInv(plan, s0, Upgrade(plan));
    LegacyOnlyOld(plan, s0, Upgrade(plan));
    RunSettles(s0, Upgrade(plan));
    assert DropLegacy(plan.legacy.table, plan.legacy.name) in LegacyStage(plan);
    LegacySettled(plan, Run(s0, Upgrade(plan)).value);
  }

  lemma LegacySettled(plan: Plan, s: Schema)
    requires Settled(s, DropLegacy(plan.legacy.table, plan.legacy.name))
    ensures !HasUnique(s, plan.legacy.table, plan.legacy.name)
  {
  }

  /** The verification states are absent, or carry the constraint as revision
      137 defines it and no two rows clash under it. */
  ghost predicate Restorable(plan: Plan, s0: Schema, keys: seq<RowKey>) {
    Tab(plan.legacy.table) in s0 ==>
      Legacy(plan) in s0 && s0[Legacy(plan)] == Entry(UniqueOf(plan.legacy), None) && Distinct(keys)
  }

  lemma RestorableNeeded(plan: Plan, s0: Schema, s1: Schema, keys: seq<RowKey>)
    requires RoundTripOk(plan) && Base(plan, s0) && Inv(plan, s0, s1)
    requires !HasUnique(s1, plan.legacy.table, plan.legacy.name) && Downgrade(plan, s1, keys) == Ok(s0)
    ensures Restorable(plan, s0, keys)
  {
    hide Inv, Base, RoundTripOk, Downgrade, HasUnique, HasDuplicates;
    DuplicatesIff(keys);
    DowngradeRestores(plan, s0, s1, keys);
    LegacyTableKept(plan, s0, s1);
    NoDuplicates(plan, s1, keys);
    assert s0 == Restored(plan, s0);
  }

  lemma RestorableSuffices(plan: Plan, s0: Schema, s1: Schema, keys: seq<RowKey>)
    requires RoundTripOk(plan) && Base(plan, s0) && Inv(plan, s0, s1) && Restorable(plan, s0, keys)
    requires !HasUnique(s1, plan.legacy.table, plan.legacy.name)
    requires Legacy(plan) in s1 ==> Legacy(plan) in s0 && s1[Legacy(plan)] == s0[Legacy(plan)]
    ensures Downgrade(plan, s1, keys) == Ok(s0)
  {
    hide Inv, RoundTripOk, Downgrade, HasDuplicates, HasUnique, IsNew;
    DuplicatesIff(keys);
    LegacyGone(plan, s0, s1);
    if Tab(plan.legacy.table) in s0 { assert Grounded(s0, Legacy(plan)); }
    DowngradeSucceeds(plan, s0, s1, keys);
    DowngradeRestores(plan, s0, s1, keys);
    assert Restored(plan, s0) == s0;
  }

  /** Upgrade, then downgrade, gives back exactly the schema there was, unowned
      namesakes included, if and only if the base schema is restorable. The
      condition can be read off before the downgrade runs. */
  lemma RoundTripIff(plan: Plan, s0: Schema, keys: seq<RowKey>)
    requires RoundTripOk(plan) && Base(plan, s0) && Run(s0, Upgrade(plan)).Ok?
    ensures Downgrade(plan, Run(s0, Upgrade(plan)).value, keys) == Ok(s0) <==> Restorable(plan, s0, keys)
  {
    hide Inv, Base, RoundTripOk, Downgrade, Upgrade, Restorable, HasUnique;
    var s1 := Run(s0, Upgrade(plan)).value;
    AfterUpgrade(plan, s0);
    if Downgrade(plan, s1, keys) == Ok(s0) { RestorableNeeded(plan, s0, s1, keys); }
    if Restorable(plan, s0, keys) { RestorableSuffices(plan, s0, s1, keys); }
  }

  lemma NoDuplicates(plan: Plan, s: Schema, keys: seq<RowKey>)
    requires Downgrade(plan, s, keys).Ok?
    ensures Tab(plan.legacy.table) in s ==> !HasDuplicates(keys)
  {
  }

  lemma LegacyGone(plan: Plan, s0: Schema, s1: Schema)
    requires Base(plan, s0) && Inv(plan, s0, s1) && !HasUnique(s1, plan.legacy.table, plan.legacy.name)
    requires Legacy(plan) in s1 ==> Legacy(plan) in s0 && s1[Legacy(plan)] == s0[Legacy(plan)]
    requires Tab(plan.legacy.table) in s0 ==> Legacy(plan) in s0 && s0[Legacy(plan)] == Entry(UniqueOf(plan.legacy), None)
    ensures Legacy(plan) !in s1
  {
    forall o | o in s1 ensures Tab(o.table) in s1 { assert Grounded(s1, o); }
    forall o | o in s0 ensures Tab(o.table) in s0 { assert Grounded(s0, o); }
  }

  // ----------------------------------------------------- only what it owns

  /** Dropping this object is covered by an ownership comment: its own, its
      table's, or that of a column it is built on. */
  ghost predicate Licensed(s: Schema, o: Obj) {
    o in s && (IsOwned(s, o) || IsOwned(s, Tab(o.table)) || exists c :: c in Columns(s[o].def) && IsOwned(s, Col(o.table, c)))
  }

  ghost predicate Lawful(s: Schema, s': Schema) {
    && (forall o :: o in s ==> (o in s' && s'[o] == s[o]) || Licensed(s, o))
    && (forall o :: o in s' && (o !in s || s'[o] != s[o]) ==> s'[o].comment == None)
  }

  lemma LawfulTrans(a: Schema, b: Schema, c: Schema)
    requires Lawful(a, b) && Lawful(b, c)
    ensures Lawful(a, c)
  {
    forall o | o in a && !(o in c && c[o] == a[o]) ensures Licensed(a, o) {
      if o in b && b[o] == a[o] {
        assert Licensed(b, o);
        assert forall p :: IsOwned(b, p) ==> IsOwned(a, p);
      }
    }
  }

  lemma RevertLawful(s: Schema, undo: Undo, keys: seq<RowKey>)
    requires Revert(s, undo, keys).Ok?
    ensures Lawful(s, Revert(s, undo, keys).value)
  {
    match undo
    case Unlink(l) =>
      var s1 := DropForeign(s, l.table, l.fk);
      var s2 := DropIndex(s1, l.table, l.index);
      LawfulTrans(s, s1, s2);
      LawfulTrans(s, s2, DropOwnedColumn(s2, l.table, l.column));
    case _ =>
  }

  /** From any schema whatever, a downgrade removes only licensed objects,
      rewrites none of the others, and what it adds is unmarked. */
  lemma DropsOnlyOwned(plan: Plan, s: Schema, keys: seq<RowKey>)
    requires Downgrade(plan, s, keys).Ok?
    ensures Lawful(s, Downgrade(plan, s, keys).value)
  {
    RunLawful(s, Undos(plan), keys);
  }

  lemma {:induction false} RunLawful(s: Schema, undos: seq<Undo>, keys: seq<RowKey>)
    requires RunUndo(s, undos, keys).Ok?
    ensures Lawful(s, RunUndo(s, undos, keys).value)
  {
    hide Revert, Lawful;
    if undos == [] {
      LawfulRefl(s);
    } else {
      var mid := RunUndo(s, Front(undos), keys).value;
      RunLawful(s, Front(undos), keys);
      RevertLawful(mid, Last(undos), keys);
      LawfulTrans(s, mid, RunUndo(s, undos, keys).value);
    }
  }

  lemma LawfulRefl(s: Schema)
    ensures Lawful(s, s)
  {
  }

  /** The restored constraint can be refused by the schema but never by the
      rows: the preflight has already seen any clash. */
  lemma RowsNeverConflict(plan: Plan, s: Schema, keys: seq<RowKey>)
    requires RoundTripOk(plan)
    ensures Downgrade(plan, s, keys) != Err(RowsConflict)
  {
    hide Revert, RoundTripOk, FirstUndos, LastUndos, Undos, HasDuplicates;
    SplitRun(plan, s, keys);
    UndosPlain(plan);
    LastPlain(plan);
    var a := RunUndo(s, FirstUndos(plan), keys).value;
    FirstTables(s, FirstUndos(plan), keys);
    RestoreConflict(plan, a, keys);
    var b := Revert(a, RestoreLegacy(plan.legacy), keys);
    if b.Ok? { NoRowConflict(b.value, LastUndos(plan), keys); }
  }

  lemma RestoreConflict(plan: Plan, s: Schema, keys: seq<RowKey>)
    ensures Revert(s, RestoreLegacy(plan.legacy), keys) == Err(RowsConflict) ==> Tab(plan.legacy.table) in s && HasDuplicates(keys)
  {
    hide HasDuplicates;
  }

  lemma {:induction false} FirstTables(s: Schema, undos: seq<Undo>, keys: seq<RowKey>)
    requires forall u :: u in undos ==> !u.RestoreLegacy? && !u.UndoTable?
    ensures RunUndo(s, undos, keys).Ok?
    ensures forall o :: o in RunUndo(s, undos, keys).value ==> o in s
  {
    if undos != [] {
      assert forall u :: u in Front(undos) ==> u in undos;
      assert Last(undos) in undos;
      FirstTables(s, Front(undos), keys);
    }
  }

  lemma {:induction false} NoRowConflict(s: Schema, undos: seq<Undo>, keys: seq<RowKey>)
    requires forall u :: u in undos ==> !u.RestoreLegacy?
    ensures RunUndo(s, undos, keys) != Err(RowsConflict)
  {
    if undos != [] {
      assert forall u :: u in Front(undos) ==> u in undos;
      assert Last(undos) in undos;
      NoRowConflict(s, Front(undos), keys);
    }
  }
}
