/** Migration 138 as it runs: helpers that inspect, create and mark, and the
    two drivers. */
module SchemaDatabase {
  import opened Common
  import opened SchemaMigration
  import opened SchemaRoundTrip

  /** The schema after a unit, and the error it raised. */
  function Outcome(before: Schema, r: Result<Schema, Error>): (Schema, Option<Error>) {
    match r
    case Ok(s) => (s, None)
    case Err(e) => (before, Some(e))
  }

  class Database {
    var schema: Schema
    const keys: seq<RowKey>

    constructor (schema: Schema, keys: seq<RowKey>)
      ensures this.schema == schema && this.keys == keys
    {
      this.schema := schema;
      this.keys := keys;
    }

    /** A COMMENT ON statement. */
    method MarkOwned(o: Obj)
      requires o in schema
      modifies this
      ensures schema == old(schema)[o := old(schema)[o].(comment := OWNED)]
    {
      schema := schema[o := schema[o].(comment := OWNED)];
    }

    /** One ADD statement, without a comment. */
    method Add(o: Obj, def: Def) returns (error: Option<Error>)
      modifies this
      ensures (schema, error) == Outcome(old(schema), Put(old(schema), o, def, None))
    {
      var r := Put(schema, o, def, None);
      if r.Err? {
        return Some(r.error);
      }
      schema, error := r.value, None;
    }

    /** Adding and then marking. */
    method AddOwned(o: Obj, def: Def) returns (error: Option<Error>)
      modifies this
      ensures (schema, error) == Outcome(old(schema), Put(old(schema), o, def, OWNED))
    {
      error := Add(o, def);
      if error.None? {
        assert old(schema)[o := Entry(def, None)][o := Entry(def, OWNED)] == old(schema)[o := Entry(def, OWNED)];
        MarkOwned(o);
      }
    }

    method EnsureTable(spec: TableSpec) returns (error: Option<Error>)
      modifies this
      ensures (schema, error) == Outcome(old(schema), Apply(old(schema), NewTable(spec)))
    {
      if Tab(spec.name) in schema {
        if !IsOwned(schema, Tab(spec.name)) {
          return Some(NotAdopted);
        }
        if !spec.partial && !Complete(schema, spec) {
          return Some(Incomplete);
        }
        return None;
      }
      if !TargetsExist(schema, spec) {
        return Some(Missing);
      }
      schema := schema + (map o | o in spec.contents :: Entry(spec.contents[o], None)) + map[Tab(spec.name) := Entry(TableDef, None)];
      MarkOwned(Tab(spec.name));
      assert schema == CreateTable(old(schema), spec);
      return None;
    }

    method EnsureIndex(t: Name, i: IndexSpec) returns (error: Option<Error>)
      modifies this
      ensures (schema, error) == Outcome(old(schema), Apply(old(schema), NewIndex(t, i)))
    {
      if Tab(t) !in schema || Idx(t, i.name) in schema {
        return None;
      }
      error := AddOwned(Idx(t, i.name), IndexOf(i));
    }

    /** True when the column was missing and has been added. */
    method AddOwnedColumn(t: Name, c: Name, def: Def) returns (added: bool)
      requires Tab(t) in schema && def.ColumnDef?
      modifies this
      ensures added <==> Col(t, c) !in old(schema)
      ensures schema == if added then old(schema)[Col(t, c) := Entry(def, OWNED)] else old(schema)
    {
      if Col(t, c) in schema {
        return false;
      }
      var error := Add(Col(t, c), def);
      MarkOwned(Col(t, c));
      return true;
    }

    /** The nullable endpoint link: its column, and its foreign key only when
        the column was added here. */
    method EnsureLink(l: LinkSpec) returns (error: Option<Error>)
      modifies this
      ensures Apply(old(schema), Link(l)).Ok? ==> error.None? && Ok(schema) == Apply(old(schema), Link(l))
      ensures Apply(old(schema), Link(l)).Err? ==> error.Some?
    {
      error := None;
      if Tab(l.table) in schema {
        var added := AddOwnedColumn(l.table, l.column, BIGINT);
        if added {
          error := AddOwned(Con(l.table, l.fk), LinkOf(l));
        }
      }
    }

    method EnsureUniqueConstraint(u: UniqueSpec) returns (error: Option<Error>)
      modifies this
      ensures (schema, error) == Outcome(old(schema), Apply(old(schema), EnsureUnique(u)))
    {
      if !HasColumns(schema, u.table, u.columns) || HasUnique(schema, u.table, u.name) {
        return None;
      }
      error := AddOwned(Con(u.table, u.name), UniqueOf(u));
    }

    method EnsureScopedForeignKey(f: ForeignSpec) returns (error: Option<Error>)
      modifies this
      ensures (schema, error) == Outcome(old(schema), Apply(old(schema), EnsureForeign(f)))
    {
      if !HasColumns(schema, f.table, f.columns) || !HasColumns(schema, f.target, f.referred) || HasForeign(schema, f.table, f.columns, f.target) {
        return None;
      }
      error := AddOwned(Con(f.table, f.name), ForeignOf(f));
    }

    /** One unit of the upgrade. */
    method Perform(step: Step) returns (error: Option<Error>)
      modifies this
      ensures Apply(old(schema), step).Ok? ==> error.None? && Ok(schema) == Apply(old(schema), step)
      ensures Apply(old(schema), step).Err? ==> error.Some?
    {
      hide Put;
      match step {
        case NewTable(spec) => error := EnsureTable(spec);
        case NewIndex(t, i) => error := EnsureIndex(t, i);
        case Link(l) => error := EnsureLink(l);
        case EnsureUnique(u) => error := EnsureUniqueConstraint(u);
        case EnsureForeign(f) => error := EnsureScopedForeignKey(f);
        case _ =>
          var r := Apply(schema, step);
          if r.Err? {
            return Some(r.error);
          }
          schema, error := r.value, None;
      }
    }

    /** The upgrade. It either completes, or stops at its first refused unit
        with every earlier unit done. */
    method Upgrade138(plan: Plan) returns (error: Option<Error>, done: nat)
      modifies this
      ensures done <= |Upgrade(plan)| && (error.None? ==> done == |Upgrade(plan)|)
      ensures Run(old(schema), Upgrade(plan)[..done]).Ok?
      ensures error.None? ==> Ok(schema) == Run(old(schema), Upgrade(plan))
      ensures error.Some? ==> done < |Upgrade(plan)| && Apply(Run(old(schema), Upgrade(plan)[..done]).value, Upgrade(plan)[done]).Err?
    {
      var steps := Upgrade(plan);
      for k := 0 to |steps|
        invariant Ok(schema) == Run(old(schema), steps[..k])
      {
        hide Apply;
        FrontOfPrefix(steps, k);
        error := Perform(steps[k]);
        if error.Some? {
          return error, k;
        }
      }
      assert steps[..|steps|] == steps;
      return None, |steps|;
    }

    /** The tables that would be dropped without being ours. */
    method UnownedTables(plan: Plan) returns (names: seq<Name>)
      ensures names != [] <==> UnownedTable(plan, schema)
    {
      names := [];
      for k := 0 to |plan.tables|
        invariant names != [] <==> exists j :: 0 <= j < k && Tab(plan.tables[j].name) in schema && !IsOwned(schema, Tab(plan.tables[j].name))
      {
        var t := plan.tables[k].name;
        if Tab(t) in schema && !IsOwned(schema, Tab(t)) {
          names := names + [t];
        }
      }
    }

    /** The downgrade: its preflight refuses before anything has changed. A
        later refusal stops at its unit with every earlier one done, and even
        then nothing but licensed objects is gone. */
    method Downgrade138(plan: Plan) returns (error: Option<Error>, done: nat)
      modifies this
      ensures error.None? ==> Ok(schema) == Downgrade(plan, old(schema), keys)
      ensures error.Some? ==> Downgrade(plan, old(schema), keys) == Err(error.value)
      ensures UnownedTable(plan, old(schema)) ==> error == Some(NotOwned)
      ensures error == Some(NotOwned) || error == Some(Duplicates) ==> done == 0 && schema == old(schema)
      ensures done <= |Undos(plan)| && Ok(schema) == RunUndo(old(schema), Undos(plan)[..done], keys)
      ensures error.Some? && error != Some(NotOwned) && error != Some(Duplicates) ==>
        done < |Undos(plan)| && Revert(schema, Undos(plan)[done], keys) == Err(error.value)
      ensures Lawful(old(schema), schema)
    {
      LawfulRefl(schema);
      var unowned := UnownedTables(plan);
      if unowned != [] {
        return Some(NotOwned), 0;
      }
      if Tab(plan.legacy.table) in schema && HasDuplicates(keys) {
        return Some(Duplicates), 0;
      }
      var undos := Undos(plan);
      for k := 0 to |undos|
        invariant Ok(schema) == RunUndo(old(schema), undos[..k], keys)
      {
        hide Undos, Lawful;
        FrontOfPrefix(undos, k);
        RunLawful(old(schema), undos[..k], keys);
        var r := Revert(schema, undos[k], keys);
        if r.Err? {
          RunStops(old(schema), undos, k, keys);
          RevertErrors(schema, undos[k], keys);
          return Some(r.error), k;
        }
        schema := r.value;
      }
      assert undos[..|undos|] == undos;
      RunLawful(old(schema), undos, keys);
      return None, |undos|;
    }
  }

  lemma {:induction false} RunStops(s: Schema, undos: seq<Undo>, k: nat, keys: seq<RowKey>)
    requires k < |undos| && RunUndo(s, undos[..k + 1], keys).Err?
    ensures RunUndo(s, undos, keys) == RunUndo(s, undos[..k + 1], keys)
  {
    assert undos == undos[..k + 1] + undos[k + 1..];
    ErrStays(s, undos[..k + 1], undos[k + 1..], keys);
  }

  /** The statements after the preflight never raise its two refusals. */
  lemma RevertErrors(s: Schema, undo: Undo, keys: seq<RowKey>)
    ensures Revert(s, undo, keys) != Err(NotOwned) && Revert(s, undo, keys) != Err(Duplicates)
  {
  }
}
