/** What the downgrade of 138 takes, entry by entry and in literals: when it is
    refused beforehand, what each unit removes and needs, and that it leaves a
    schema of revision 137 alone. */
module SchemaUndoFacts {
  import opened Common
  import opened SchemaMigration
  import opened SchemaRoundTrip
  import opened SchemaFacts

  // ---------------------------------------------------------------- preflight

  /** Two rows of one project, contact and kind. */
  ghost predicate Repeats(keys: seq<RowKey>) { exists i, j :: 0 <= i < j < |keys| && keys[i] == keys[j] }

  /** A table of the revision's names without its mark. */
  ghost predicate Foreigner(plan: Plan, s: Schema) {
    exists spec :: spec in plan.tables && TableIn(s, spec.name) && s[Obj(Table, spec.name, "")].comment != MARK
  }

  /** It is refused beforehand for such a table, and then for such rows. */
  lemma PreflightIs(plan: Plan, s: Schema, keys: seq<RowKey>)
    ensures Foreigner(plan, s) ==> Downgrade(plan, s, keys) == Err(NotOwned)
    ensures !Foreigner(plan, s) && TableIn(s, plan.legacy.table) && Repeats(keys) ==> Downgrade(plan, s, keys) == Err(Duplicates)
    ensures !Foreigner(plan, s) && !(TableIn(s, plan.legacy.table) && Repeats(keys)) ==> Downgrade(plan, s, keys) == RunUndo(s, Undos(plan), keys)
  {
    hide RunUndo, Undos, HasDuplicates;
    DuplicatesIff(keys);
  }

  // -------------------------------------------------------------- single units

  ghost predicate Marked(s: Schema, o: Obj) { o in s && s[o].comment == MARK }

  /** The entry is the column, or an index or constraint over it. */
  ghost predicate Over(s: Schema, o: Obj, t: Name, c: Name)
    requires o in s
  {
    || o == Obj(Column, t, c)
    || (o.table == t &&
        match s[o].def
        case IndexDef(cs, _, _) => c in cs
        case PrimaryDef(cs) => c in cs
        case UniqueDef(cs) => c in cs
        case ForeignDef(cs, _, _) => c in cs
        case _ => false)
  }

  ghost predicate MarkedKey(s: Schema, o: Obj, t: Name, n: Name) { o == Obj(Constraint, t, n) && Marked(s, o) && s[o].def.ForeignDef? }

  /** The link's foreign key or index, marked; or, if its column is, that and what
      is over it. */
  ghost predicate OfLink(s: Schema, l: LinkSpec, o: Obj)
    requires o in s
  {
    || MarkedKey(s, o, l.table, l.fk)
    || (o == Obj(Index, l.table, l.index) && Marked(s, o))
    || (Marked(s, Obj(Column, l.table, l.column)) && Over(s, o, l.table, l.column))
  }

  /** The entries that a unit takes away. */
  ghost predicate Takes(s: Schema, u: Undo, o: Obj)
    requires o in s
  {
    match u
    case UndoForeign(t, n) => TableIn(s, t) && MarkedKey(s, o, t, n)
    case UndoIndex(t, n) => TableIn(s, t) && o == Obj(Index, t, n) && Marked(s, o)
    case Unlink(l) =>
      && TableIn(s, l.table) && ColumnIn(s, l.table, l.column)
      && OfLink(s, l, o)
    case RestoreLegacy(_) => false
    case UndoColumn(t, c) => TableIn(s, t) && Marked(s, Obj(Column, t, c)) && Over(s, o, t, c)
    case UndoTable(t) => Marked(s, Obj(Table, t, "")) && o.table == t
    case UndoUnique(t, n) => TableIn(s, t) && o == Obj(Constraint, t, n) && Marked(s, o) && s[o].def.UniqueDef?
  }

  /** The restored constraint is missing. */
  ghost predicate Lacking(s: Schema, u: Undo) { u.RestoreLegacy? && TableIn(s, u.unique.table) && !UniqueIn(s, u.unique.table, u.unique.name) }

  /** A foreign key of another table points at it. */
  ghost predicate PointedAt(s: Schema, t: Name) {
    exists o :: o in s && o.kind == Constraint && o.table != t && s[o].def.ForeignDef? && s[o].def.target == t
  }

  /** When a unit goes through. */
  ghost predicate Undoable(s: Schema, u: Undo, keys: seq<RowKey>) {
    && (u.UndoTable? && Marked(s, Obj(Table, u.table, "")) ==> !PointedAt(s, u.table))
    && (Lacking(s, u) ==> !Repeats(keys) && Obj(Constraint, u.unique.table, u.unique.name) !in s && ColumnsIn(s, u.unique.table, u.unique.columns))
  }

  /** Each unit takes exactly those, adds only the legacy constraint where that is
      missing, unmarked, and changes nothing else; and is refused otherwise. */
  lemma UnitIs(s: Schema, u: Undo, keys: seq<RowKey>)
    ensures Revert(s, u, keys).Ok? <==> Undoable(s, u, keys)
    ensures Revert(s, u, keys).Ok? ==>
      var s' := Revert(s, u, keys).value;
      && (forall o :: o in s ==> (o in s' <==> !Takes(s, u, o)) && (o in s' ==> s'[o] == s[o]))
      && (forall o :: o in s' && o !in s ==> Lacking(s, u) && o == Obj(Constraint, u.unique.table, u.unique.name) && s'[o] == Entry(UniqueDef(u.unique.columns), None))
      && (Lacking(s, u) ==> Obj(Constraint, u.unique.table, u.unique.name) in s')
  {
    hide HasDuplicates;
    match u
    case Unlink(l) => UnlinkIs(s, l);
    case RestoreLegacy(q) => DuplicatesIff(keys);
    case UndoColumn(t, c) => ColumnGoes(s, t, c);
    case _ =>
  }

  lemma ColumnGoes(s: Schema, t: Name, c: Name)
    ensures forall o :: o in s ==> (o in DropColumn(s, t, c) <==> !Over(s, o, t, c)) && (o in DropColumn(s, t, c) ==> DropColumn(s, t, c)[o] == s[o])
    ensures forall o :: o in DropColumn(s, t, c) ==> o in s
  {
  }

  lemma UnlinkIs(s: Schema, l: LinkSpec)
    ensures var s' := DropOwnedColumn(DropIndex(DropForeign(s, l.table, l.fk), l.table, l.index), l.table, l.column);
      && (forall o :: o in s' ==> o in s && s'[o] == s[o])
      && forall o :: o in s ==> (o in s' <==> !OfLink(s, l, o))
  {
    hide DropColumn, Over;
    var a := DropForeign(s, l.table, l.fk);
    var b := DropIndex(a, l.table, l.index);
    ColumnGoes(b, l.table, l.column);
    forall o | o in b ensures Over(b, o, l.table, l.column) <==> Over(s, o, l.table, l.column) { SameOver(s, b, o, l.table, l.column); }
  }

  lemma SameOver(s: Schema, b: Schema, o: Obj, t: Name, c: Name)
    requires o in b && o in s && b[o] == s[o]
    ensures Over(b, o, t, c) <==> Over(s, o, t, c)
  {
  }

  // ---------------------------------------------------------------- whole runs

  /** A schema of revision 137, with its constraint and without a mark, is left as
      it is, whatever else it holds. */
  lemma UntouchedStays(plan: Plan, s: Schema, keys: seq<RowKey>)
    requires forall o :: o in s ==> s[o].comment != MARK
    requires forall spec :: spec in plan.tables ==> !TableIn(s, spec.name)
    requires TableIn(s, plan.legacy.table) ==> UniqueIn(s, plan.legacy.table, plan.legacy.name) && !Repeats(keys)
    ensures Downgrade(plan, s, keys) == Ok(s)
  {
    hide Undos, RunUndo, Downgrade;
    PreflightIs(plan, s, keys);
    LegacyIsPlanned(plan);
    NothingToUndo(s, Undos(plan), keys);
  }

  lemma LegacyIsPlanned(plan: Plan)
    ensures forall u :: u in Undos(plan) && u.RestoreLegacy? ==> u.unique == plan.legacy
  {
    assert forall l, u :: u in LinkUndos(plan, l) ==> !u.RestoreLegacy?;
    FlatMapMembers(Reverse(plan.links), (l: LinkSpec) => LinkUndos(plan, l));
  }

  lemma {:induction false} NothingToUndo(s: Schema, undos: seq<Undo>, keys: seq<RowKey>)
    requires forall o :: o in s ==> s[o].comment != MARK
    requires forall u :: u in undos ==> !Lacking(s, u)
    ensures RunUndo(s, undos, keys) == Ok(s)
  {
    hide Revert, Lacking;
    if undos != [] {
      assert forall u :: u in Front(undos) ==> u in undos;
      NothingToUndo(s, Front(undos), keys);
      assert Last(undos) in undos;
      OneLeaves(s, Last(undos), keys);
    }
  }

  lemma OneLeaves(s: Schema, u: Undo, keys: seq<RowKey>)
    requires (forall o :: o in s ==> s[o].comment != MARK) && !Lacking(s, u)
    ensures Revert(s, u, keys) == Ok(s)
  {
    hide Revert, Lacking, Repeats, PointedAt, Takes, Undoable;
    UnitIs(s, u, keys);
    Unmarked(s, u, keys);
    var s' := Revert(s, u, keys).value;
    assert s' == s;
  }

  lemma Unmarked(s: Schema, u: Undo, keys: seq<RowKey>)
    requires (forall o :: o in s ==> s[o].comment != MARK) && !Lacking(s, u)
    ensures Undoable(s, u, keys) && forall o :: o in s ==> !Takes(s, u, o)
  {
    hide Lacking, Repeats, PointedAt, Over;
    assert forall o :: !Marked(s, o);
  }
}
