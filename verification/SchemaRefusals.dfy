/** Which downgrades of migration 138 go through, and which refusals can come
    after the first change. */
module SchemaRefusals {
  import opened Common
  import opened SchemaMigration
  import opened SchemaRoundTrip

  /** A constraint of the legacy name that is not a unique one survives the
      upgrade, which drops unique constraints only. */
  lemma {:induction false} NamesakeSurvives(plan: Plan, s0: Schema, steps: seq<Step>)
    requires RoundTripOk(plan) && Base(plan, s0) && Run(s0, steps).Ok?
    requires forall u :: u in steps ==> Planned(plan, u) && StepOk(u) && RepairOk(plan, u)
    requires Legacy(plan) in s0 && !s0[Legacy(plan)].def.UniqueDef?
    ensures Legacy(plan) in Run(s0, steps).value && Run(s0, steps).value[Legacy(plan)] == s0[Legacy(plan)]
  {
    hide RoundTripOk, Base, Planned, StepOk, RepairOk, Apply;
    if steps != [] {
      assert forall u :: u in Front(steps) ==> u in steps;
      assert Last(steps) in steps;
      NamesakeSurvives(plan, s0, Front(steps));
      NamesakeKept(plan, s0, Run(s0, Front(steps)).value, Last(steps));
    }
  }

  lemma NamesakeKept(plan: Plan, s0: Schema, s: Schema, u: Step)
    requires RoundTripOk(plan) && Planned(plan, u) && StepOk(u) && Apply(s, u).Ok?
    requires Legacy(plan) in s && Legacy(plan) in s0 && s[Legacy(plan)] == s0[Legacy(plan)] && !s0[Legacy(plan)].def.UniqueDef?
    ensures Legacy(plan) in Apply(s, u).value && Apply(s, u).value[Legacy(plan)] == s0[Legacy(plan)]
  {
    if !u.DropLegacy? { ApplyGrows(s, u); }
  }

  /** And the units before the restoration leave it too. */
  lemma RevertKeepsNamesake(plan: Plan, s0: Schema, s: Schema, undo: Undo, keys: seq<RowKey>)
    requires RoundTripOk(plan) && Base(plan, s0) && Inv(plan, s0, s) && UndoOk(plan, undo) && !undo.RestoreLegacy? && Revert(s, undo, keys).Ok?
    requires Legacy(plan) in s0 && Legacy(plan) in s && s[Legacy(plan)] == s0[Legacy(plan)]
    ensures Legacy(plan) in Revert(s, undo, keys).value && Revert(s, undo, keys).value[Legacy(plan)] == s0[Legacy(plan)]
  {
    hide Inv, Sound;
    match undo
    case Unlink(l) =>
      if IsOwned(s, Col(l.table, l.column)) {
        OwnedIsExtra(plan, s0, s, Col(l.table, l.column));
        if l.table == plan.legacy.table { ColumnNotUsed(s0, Legacy(plan), l.column); }
      }
    case _ =>
  }

  lemma ColumnNotUsed(s0: Schema, o: Obj, c: Name)
    requires Sound(s0) && o in s0 && Col(o.table, c) !in s0
    ensures c !in Columns(s0[o].def)
  {
    assert Grounded(s0, o);
  }

  lemma {:induction false} RunKeepsNamesake(plan: Plan, s0: Schema, s: Schema, undos: seq<Undo>, keys: seq<RowKey>)
    requires RoundTripOk(plan) && Base(plan, s0) && Inv(plan, s0, s) && Plain(plan, undos) && RunUndo(s, undos, keys).Ok?
    requires Legacy(plan) in s0 && Legacy(plan) in s && s[Legacy(plan)] == s0[Legacy(plan)]
    ensures var s' := RunUndo(s, undos, keys).value;
      Legacy(plan) in s' && s'[Legacy(plan)] == s0[Legacy(plan)]
  {
    hide Inv, Base, RoundTripOk, UndoOk, Revert, Legacy, Clear, Shrinks;
    if undos != [] {
      assert forall u :: u in Front(undos) ==> u in undos;
      assert Last(undos) in undos;
      RunKeepsNamesake(plan, s0, s, Front(undos), keys);
      RunUndoFacts(plan, s0, s, Front(undos), keys);
      RevertKeepsNamesake(plan, s0, RunUndo(s, Front(undos), keys).value, Last(undos), keys);
    }
  }

  /** What the restoration needs of the base schema and the rows: the columns of
      the constraint, no foreign holder of its name, and no two rows alike. */
  ghost predicate CanRestore(plan: Plan, s0: Schema, keys: seq<RowKey>) {
    Tab(plan.legacy.table) in s0 ==>
      && HasColumns(s0, plan.legacy.table, plan.legacy.columns)
      && (Legacy(plan) in s0 ==> s0[Legacy(plan)].def.UniqueDef?)
      && Distinct(keys)
  }

  /** After a successful upgrade the downgrade goes through if and only if the
      base schema and the rows allow the restoration. */
  lemma DowngradeOkIff(plan: Plan, s0: Schema, keys: seq<RowKey>)
    requires RoundTripOk(plan) && Base(plan, s0) && Run(s0, Upgrade(plan)).Ok?
    ensures Downgrade(plan, Run(s0, Upgrade(plan)).value, keys).Ok? <==> CanRestore(plan, s0, keys)
  {
    hide Inv, Base, RoundTripOk, Downgrade, Upgrade, CanRestore, HasUnique, Legacy;
    var s1 := Run(s0, Upgrade(plan)).value;
    AfterUpgrade(plan, s0);
    if CanRestore(plan, s0, keys) { RestoreSuffices(plan, s0, s1, keys); }
    if Downgrade(plan, s1, keys).Ok? { RestoreNeeded(plan, s0, keys); }
  }

  lemma RestoreSuffices(plan: Plan, s0: Schema, s1: Schema, keys: seq<RowKey>)
    requires RoundTripOk(plan) && Base(plan, s0) && Inv(plan, s0, s1) && CanRestore(plan, s0, keys)
    requires !HasUnique(s1, plan.legacy.table, plan.legacy.name)
    requires Legacy(plan) in s1 ==> Legacy(plan) in s0 && s1[Legacy(plan)] == s0[Legacy(plan)]
    ensures Downgrade(plan, s1, keys).Ok?
  {
    hide RoundTripOk, Downgrade, HasDuplicates, HasColumns, MadeHere;
    DuplicatesIff(keys);
    forall o | o in s1 ensures Tab(o.table) in s1 { Hangs(s1, o); }
    forall o | o in s0 ensures Tab(o.table) in s0 { Hangs(s0, o); }
    DowngradeSucceeds(plan, s0, s1, keys);
  }

  lemma Hangs(s: Schema, o: Obj)
    requires Sound(s) && o in s
    ensures Tab(o.table) in s
  {
    assert Grounded(s, o);
  }

  lemma RestoreNeeded(plan: Plan, s0: Schema, keys: seq<RowKey>)
    requires RoundTripOk(plan) && Base(plan, s0) && Run(s0, Upgrade(plan)).Ok?
    requires Downgrade(plan, Run(s0, Upgrade(plan)).value, keys).Ok?
    ensures CanRestore(plan, s0, keys)
  {
    hide Inv, Base, RoundTripOk, Downgrade, Upgrade, Clear, Plain, Shrinks, FirstUndos, LastUndos, Undos, Planned, StepOk, RepairOk, HasUnique, HasDuplicates, HasColumns;
    var s1 := Run(s0, Upgrade(plan)).value;
    AfterUpgrade(plan, s0);
    PlannedRepairs(plan);
    UndosPlain(plan);
    SplitRun(plan, s1, keys);
    DowngradeRuns(plan, s1, keys);
    var a := RunUndo(s1, FirstUndos(plan), keys).value;
    RunUndoFacts(plan, s0, s1, FirstUndos(plan), keys);
    LegacyTableKept(plan, s0, s1);
    LegacyTableKept(plan, s0, a);
    if Tab(plan.legacy.table) in s0 {
      DuplicatesIff(keys);
      if Legacy(plan) in s0 && !s0[Legacy(plan)].def.UniqueDef? {
        NamesakeSurvives(plan, s0, Upgrade(plan));
        RunKeepsNamesake(plan, s0, s1, FirstUndos(plan), keys);
        NamesakeBlocks(plan, a, keys);
      }
      DowngradeRestores(plan, s0, s1, keys);
      ColumnsWereThere(plan, s0);
    }
  }

  lemma DowngradeRuns(plan: Plan, s1: Schema, keys: seq<RowKey>)
    requires Downgrade(plan, s1, keys).Ok?
    ensures RunUndo(s1, Undos(plan), keys).Ok? && (Tab(plan.legacy.table) in s1 ==> !HasDuplicates(keys))
  {
  }

  lemma NamesakeBlocks(plan: Plan, a: Schema, keys: seq<RowKey>)
    requires Tab(plan.legacy.table) in a && Legacy(plan) in a && !a[Legacy(plan)].def.UniqueDef?
    ensures Revert(a, RestoreLegacy(plan.legacy), keys).Err?
  {
  }

  /** The restored constraint lies over columns of the base schema. */
  lemma ColumnsWereThere(plan: Plan, s0: Schema)
    requires Sound(Restored(plan, s0)) && Tab(plan.legacy.table) in s0
    ensures HasColumns(s0, plan.legacy.table, plan.legacy.columns)
  {
    assert Grounded(Restored(plan, s0), Legacy(plan));
  }

  /** After a successful upgrade the only refusal left, when the columns are
      there and the name is free, is the preflight's for duplicate rows. */
  lemma OnlyDuplicatesRefuse(plan: Plan, s0: Schema, keys: seq<RowKey>)
    requires RoundTripOk(plan) && Base(plan, s0) && Run(s0, Upgrade(plan)).Ok?
    requires CanRestore(plan, s0, [])
    ensures var r := Downgrade(plan, Run(s0, Upgrade(plan)).value, keys);
      r.Ok? || (r == Err(Duplicates) && !Distinct(keys))
  {
    hide Inv, Base, RoundTripOk, Upgrade, Undos, HasUnique;
    var s1 := Run(s0, Upgrade(plan)).value;
    DowngradeOkIff(plan, s0, keys);
    AfterUpgrade(plan, s0);
    AllOwned(plan, s0, s1);
    LegacyTableKept(plan, s0, s1);
    DuplicatesIff(keys);
  }

  // ------------------------------------------------- what the upgrade demands

  /** A table of the revision is not there yet, or is the revision's own and, but
      for the one that is repaired, of full shape. */
  predicate Adoptable(s: Schema, spec: TableSpec) {
    Tab(spec.name) !in s || (IsOwned(s, Tab(spec.name)) && (spec.partial || Complete(s, spec)))
  }

  /** Two schemas agree on everything in one table. */
  ghost predicate SameTable(s: Schema, s': Schema, t: Name) {
    forall o: Obj :: o.table == t ==> (o in s <==> o in s') && (o in s ==> s'[o] == s[o])
  }

  lemma OtherTable(s: Schema, u: Step, t: Name, t': Name)
    requires StepOk(u) && OnTable(u, t') && t' != t && Apply(s, u).Ok?
    ensures SameTable(s, Apply(s, u).value, t)
  {
  }

  lemma SameComplete(s: Schema, s': Schema, spec: TableSpec)
    requires SameTable(s, s', spec.name) && ContentsOk(spec) && Complete(s', spec)
    ensures Complete(s, spec)
  {
    TableStays(s', s, spec.name, spec);
  }

  lemma {:induction false} OtherTables(s: Schema, tables: seq<TableSpec>, t: Name)
    requires forall spec :: spec in tables ==> ContentsOk(spec) && spec.name != t && forall r :: r in spec.repairs ==> IsRepair(r, spec.name)
    requires Run(s, FlatMap(tables, TableSteps)).Ok?
    ensures SameTable(s, Run(s, FlatMap(tables, TableSteps)).value, t)
  {
    hide Apply, TableSteps, ContentsOk;
    if tables != [] {
      var front, last := Front(tables), Last(tables);
      assert forall spec :: spec in front ==> spec in tables;
      assert last in tables;
      var early := FlatMap(front, TableSteps);
      PrefixRuns(s, early + TableSteps(last), |early|);
      assert (early + TableSteps(last))[..|early|] == early;
      OtherTables(s, front, t);
      RunAppend(s, early, TableSteps(last));
      OnlyOwnSteps(last);
      OwnTable(Run(s, early).value, TableSteps(last), t, last);
    }
  }

  lemma {:induction false} OwnTable(s: Schema, steps: seq<Step>, t: Name, spec: TableSpec)
    requires spec.name != t && ContentsOk(spec) && Run(s, steps).Ok?
    requires forall u :: u in steps ==> OnTable(u, spec.name) && (u.NewTable? ==> u.spec == spec)
    ensures SameTable(s, Run(s, steps).value, t)
  {
    hide Apply, OnTable, ContentsOk;
    if steps != [] {
      assert forall u :: u in Front(steps) ==> u in steps;
      assert Last(steps) in steps;
      OwnTable(s, Front(steps), t, spec);
      OtherTable(Run(s, Front(steps)).value, Last(steps), t, spec.name);
    }
  }

  lemma OnlyOwnSteps(spec: TableSpec)
    requires forall r :: r in spec.repairs ==> IsRepair(r, spec.name)
    ensures forall u :: u in TableSteps(spec) ==> OnTable(u, spec.name) && (u.NewTable? ==> u.spec == spec)
  {
    TableStepsInOrder(spec);
  }

  /** The table stage demands that every table be adoptable at the start. */
  lemma {:induction false} StageNeeds(s: Schema, tables: seq<TableSpec>)
    requires forall spec :: spec in tables ==> ContentsOk(spec) && forall r :: r in spec.repairs ==> IsRepair(r, spec.name)
    requires forall i, j :: 0 <= i < j < |tables| ==> tables[i].name != tables[j].name
    requires Run(s, FlatMap(tables, TableSteps)).Ok?
    ensures forall spec :: spec in tables ==> Adoptable(s, spec)
  {
    hide Apply, TableSteps, ContentsOk, Adoptable;
    if tables != [] {
      var front, last := Front(tables), Last(tables);
      assert forall spec :: spec in front ==> spec in tables;
      assert last in tables;
      var early := FlatMap(front, TableSteps);
      PrefixRuns(s, early + TableSteps(last), |early|);
      assert (early + TableSteps(last))[..|early|] == early;
      StageNeeds(s, front);
      forall spec | spec in front ensures spec.name != last.name {
        var i :| 0 <= i < |front| && front[i] == spec;
        assert tables[i].name != tables[|tables| - 1].name;
      }
      OtherTables(s, front, last.name);
      RunAppend(s, early, TableSteps(last));
      FirstNeeds(s, Run(s, early).value, last);
      assert forall spec :: spec in tables ==> spec in front || spec == last;
    }
  }

  lemma FirstNeeds(s: Schema, mid: Schema, spec: TableSpec)
    requires ContentsOk(spec) && SameTable(s, mid, spec.name) && Run(mid, TableSteps(spec)).Ok?
    ensures Adoptable(s, spec)
  {
    var steps := TableSteps(spec);
    PrefixRuns(mid, steps, 1);
    assert steps[..1] == [NewTable(spec)] && Front([NewTable(spec)]) == [] && Last([NewTable(spec)]) == NewTable(spec);
    assert Apply(mid, NewTable(spec)).Ok?;
    if IsOwned(mid, Tab(spec.name)) && Complete(mid, spec) { SameComplete(s, mid, spec); }
  }

  /** The upgrade goes through only from a schema in which no table of the
      revision's names is someone else's, and none of its own but the repaired
      one is of incomplete shape. */
  lemma UpgradeNeeds(plan: Plan, s0: Schema)
    requires PlanOk(plan) && Run(s0, Upgrade(plan)).Ok?
    ensures forall spec :: spec in plan.tables ==> Adoptable(s0, spec)
  {
    hide Run, FlatMap, TableSteps, LinkStage, SwitchStage, LegacyStage, UniqueStage, ForeignStage, ContentsOk;
    var stage := TableStage(plan);
    PrefixRuns(s0, Upgrade(plan), |stage|);
    assert Upgrade(plan)[..|stage|] == stage;
    assert forall i :: 0 <= i < |plan.tables| ==> TableNames(plan)[i] == plan.tables[i].name;
    StageNeeds(s0, plan.tables);
  }

  // ------------------------------------------------------ keys and their keys

  /** When the turn of the added composite unique constraints comes, every
      foreign key left is one of the base schema, which had none of them: all
      that were added, and could lean on them, are gone already. */
  lemma KeysGoFirst(plan: Plan, s0: Schema, keys: seq<RowKey>)
    requires RoundTripOk(plan) && Base(plan, s0) && Run(s0, Upgrade(plan)).Ok? && CanRestore(plan, s0, keys)
    ensures var before := RunUndo(Run(s0, Upgrade(plan)).value, FirstUndos(plan) + [RestoreLegacy(plan.legacy)] + ColumnUndos(plan) + TableUndos(plan), keys);
      before.Ok? && forall o :: IsForeign(before.value, o) ==> o in s0 && s0[o] == before.value[o]
  {
    hide Inv, Base, RoundTripOk, Upgrade, CanRestore, FirstUndos, ColumnUndos, TableUndos, UniqueUndos, Undos, RunUndo, Downgrade, Plain, Clear, Shrinks, Hits, Revert, Legacy, HasUnique;
    var s1 := Run(s0, Upgrade(plan)).value;
    AfterUpgrade(plan, s0);
    DowngradeOkIff(plan, s0, keys);
    UndosPlain(plan);
    var first, restore := FirstUndos(plan), [RestoreLegacy(plan.legacy)];
    var rest := ColumnUndos(plan) + TableUndos(plan);
    var upTo := first + restore + ColumnUndos(plan) + TableUndos(plan);
    DowngradeRuns(plan, s1, keys);
    assert Undos(plan) == upTo + UniqueUndos(plan) by { UndosSplit(plan); }
    if RunUndo(s1, upTo, keys).Err? { ErrStays(s1, upTo, UniqueUndos(plan), keys); }
    FirstRuns(plan, s1, keys);
    var a := RunUndo(s1, first, keys).value;
    RunUndoFacts(plan, s0, s1, first, keys);
    OneUndo(a, RestoreLegacy(plan.legacy), keys);
    assert upTo == first + (restore + rest);
    RunUndoAppend(s1, first, restore + rest, keys);
    RunUndoAppend(a, restore, rest, keys);
    if RunUndo(a, restore, keys).Err? { ErrStays(a, restore, rest, keys); }
    var b := Revert(a, RestoreLegacy(plan.legacy), keys).value;
    RestoreInv(plan, s0, a, keys);
    AfterRestore(plan, s0, a, b, keys);
    assert Plain(plan, rest) by { PlainAppend(plan, ColumnUndos(plan), TableUndos(plan)); }
    RunUndoFacts(plan, s0, b, rest, keys);
    var c := RunUndo(b, rest, keys).value;
    ClearShrinks(plan, s0, b, c, first);
    OnlyBaseKeys(plan, s0, a, b, c);
  }

  lemma UndosSplit(plan: Plan)
    ensures Undos(plan) == FirstUndos(plan) + [RestoreLegacy(plan.legacy)] + ColumnUndos(plan) + TableUndos(plan) + UniqueUndos(plan)
  {
  }

  lemma PlainAppend(plan: Plan, a: seq<Undo>, b: seq<Undo>)
    requires Plain(plan, a) && Plain(plan, b)
    ensures Plain(plan, a + b)
  {
  }

  lemma OneUndo(s: Schema, undo: Undo, keys: seq<RowKey>)
    ensures RunUndo(s, [undo], keys) == Revert(s, undo, keys)
  {
    assert Front([undo]) == [] && Last([undo]) == undo;
  }

  lemma AfterRestore(plan: Plan, s0: Schema, a: Schema, b: Schema, keys: seq<RowKey>)
    requires Revert(a, RestoreLegacy(plan.legacy), keys) == Ok(b) && Clear(plan, s0, a, FirstUndos(plan))
    ensures Clear(plan, s0, b, FirstUndos(plan))
    ensures Legacy(plan) in b && b[Legacy(plan)].def.ForeignDef? ==> Tab(plan.legacy.table) !in a
  {
    hide Hits, FirstUndos, HasDuplicates;
  }

  lemma OnlyBaseKeys(plan: Plan, s0: Schema, a: Schema, b: Schema, c: Schema)
    requires RoundTripOk(plan) && Inv(plan, s0, a) && Inv(plan, s0, c) && Base(plan, s0)
    requires Clear(plan, s0, c, FirstUndos(plan)) && Clear(plan, s0, c, ColumnUndos(plan) + TableUndos(plan)) && Shrinks(plan, s0, b, c)
    requires Inv(plan, s0, b) && (Legacy(plan) in b && b[Legacy(plan)].def.ForeignDef? ==> Tab(plan.legacy.table) !in a)
    requires forall o :: o in b && o != Legacy(plan) ==> o in a
    ensures forall o :: IsForeign(c, o) ==> o in s0 && s0[o] == c[o]
  {
    hide Hits, MadeHere, RoundTripOk, FirstUndos, Clear, Inv, Base;
    forall o | IsForeign(c, o) ensures o in s0 && s0[o] == c[o] {
      if o == Legacy(plan) {
        IsSound(plan, s0, b);
        Hangs(b, o);
      } else if o !in s0 {
        NotOutside(plan, s0, c, o);
        TableGone(plan, s0, c, o);
      } else {
        OldIsKept(plan, s0, c, o);
      }
    }
  }

  lemma OldIsKept(plan: Plan, s0: Schema, s: Schema, o: Obj)
    requires Inv(plan, s0, s) && o in s0 && o != Legacy(plan)
    ensures o in s && s[o] == s0[o]
  {
  }

  /** Nothing inside a new table is left once the tables are dropped. */
  lemma TableGone(plan: Plan, s0: Schema, c: Schema, o: Obj)
    requires Clear(plan, s0, c, ColumnUndos(plan) + TableUndos(plan)) && o in c && o !in s0 && o != Legacy(plan)
    ensures !Inside(plan, o, c[o])
  {
    forall spec | spec in plan.tables ensures spec.name != o.table {
      HasTableUndo(plan, spec);
      assert !Hits(plan, UndoTable(spec.name), o, c[o]);
    }
  }
}
