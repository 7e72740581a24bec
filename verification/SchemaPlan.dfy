/** Revision 138 written out: its fifteen tables with their columns, keys and
    indexes, and everything else its upgrade does to the schema: an instance of
    the plans that the theorems are about. */
module SchemaPlan {
  import opened Common
  import opened SchemaMigration
  import opened SchemaRoundTrip
  import opened SchemaNames

  /** The places of the older tables that foreign keys point at. */
  const PROJECTS: nat := 0
  const MESSAGING_USERS: nat := 1
  const USERS: nat := 2
  const WORKSPACES: nat := 3
  const MESSAGING_TEMPLATES: nat := 4
  const SEND_LOGS: nat := 5
  const CONTACT_VERIFICATION_JOBS: nat := 6

  /** A foreign key's target: an older table, or a new table, by its index. */
  datatype Target = Old(table: nat) | Earlier(table: nat)

  /** A table's keys, by the indexes of their columns. */
  datatype Key = Primary | Foreign(column: nat, target: Target) | Unique(name: Name, columns: seq<nat>)

  type ColumnSpec = (Name, string)

  predicate KeyFits(y: Layout, k: nat, columns: nat, key: Key) {
    match key
    case Primary => columns > 0
    case Foreign(c, target) => c < columns && target.table < (if target.Old? then |y.olds| else if k < |y.news| then k else |y.news|)
    case Unique(_, cs) => forall c :: c in cs ==> c < columns
  }

  predicate KeysFit(y: Layout, k: nat, columns: nat, keys: seq<Key>) { forall key :: key in keys ==> KeyFits(y, k, columns, key) }

  function At(columns: seq<ColumnSpec>, cs: seq<nat>): seq<Name>
    requires forall c :: c in cs ==> c < |columns|
  {
    seq(|cs|, i requires 0 <= i < |cs| => assert cs[i] in cs; columns[cs[i]].0)
  }

  function KeyDef(y: Layout, k: nat, columns: seq<ColumnSpec>, key: Key): Def
    requires KeyFits(y, k, |columns|, key)
  {
    match key
    case Primary => PrimaryDef([columns[0].0])
    case Foreign(c, target) => ForeignDef([columns[c].0], if target.Old? then y.olds[target.table] else y.news[target.table], ["id"])
    case Unique(_, cs) => UniqueDef(At(columns, cs))
  }

  /** The names the database gives to keys that the script leaves unnamed. */
  function KeyName(t: Name, columns: seq<ColumnSpec>, key: Key): Name
    requires key.Foreign? ==> key.column < |columns|
  {
    match key
    case Primary => t + "_pkey"
    case Foreign(c, _) => t + "_" + columns[c].0 + "_fkey"
    case Unique(n, _) => n
  }

  function ColumnMap(t: Name, columns: seq<ColumnSpec>): (m: map<Obj, Def>)
    ensures forall o :: o in m ==> o.kind.Column? && o.table == t && m[o].ColumnDef?
    ensures forall i :: 0 <= i < |columns| ==> Col(t, columns[i].0) in m
  {
    if columns == [] then map[] else ColumnMap(t, Front(columns))[Col(t, Last(columns).0) := ColumnDef(Last(columns).1)]
  }

  function KeyMap(y: Layout, k: nat, t: Name, columns: seq<ColumnSpec>, keys: seq<Key>): (m: map<Obj, Def>)
    requires KeysFit(y, k, |columns|, keys)
    ensures forall o :: o in m ==> o.kind.Constraint? && o.table == t && exists key :: key in keys && m[o] == KeyDef(y, k, columns, key)
  {
    if keys == [] then map[]
    else
      assert forall key :: key in Front(keys) ==> key in keys;
      assert Last(keys) in keys && KeyFits(y, k, |columns|, Last(keys));
      KeyMap(y, k, t, columns, Front(keys))[Con(t, KeyName(t, columns, Last(keys))) := KeyDef(y, k, columns, Last(keys))]
  }

  /** A target that the layout has, before the k-th new table. */
  ghost predicate Precedes(y: Layout, k: nat, target: Name) {
    target in y.olds || exists i :: 0 <= i < k && i < |y.news| && y.news[i] == target
  }

  ghost predicate RepairsFit(y: Layout, k: nat, repairs: seq<Step>)
    requires k < |y.news|
  {
    forall r :: r in repairs ==> IsRepair(r, y.news[k]) && (r.RepairForeign? ==> Precedes(y, k, r.foreign.target))
  }

  /** What the plan needs of the table at an index. */
  ghost predicate Fits(y: Layout, spec: TableSpec, k: nat) {
    && k < |y.news| && spec.name == y.news[k] && ContentsOk(spec) && RepairsFit(y, k, spec.repairs)
    && forall o :: o in spec.contents && spec.contents[o].ForeignDef? ==> Precedes(y, k, spec.contents[o].target)
  }

  lemma KeyDefFits(y: Layout, k: nat, columns: seq<ColumnSpec>, key: Key)
    requires KeyFits(y, k, |columns|, key)
    ensures var def := KeyDef(y, k, columns, key);
      && (def.PrimaryDef? || def.UniqueDef? || def.ForeignDef?)
      && (forall n :: n in Columns(def) ==> exists i :: 0 <= i < |columns| && n == columns[i].0)
      && (def.ForeignDef? ==> Precedes(y, k, def.target))
  {
    if key.Unique? {
      var ns := At(columns, key.columns);
      forall n | n in ns ensures exists i :: 0 <= i < |columns| && n == columns[i].0 {
        var j :| 0 <= j < |ns| && ns[j] == n;
        assert key.columns[j] in key.columns;
      }
    }
  }

  /** A table of the revision: only the one with repairs may be incomplete. */
  function MakeTable(y: Layout, k: nat, columns: seq<ColumnSpec>, keys: seq<Key>, repairs: seq<Step>, indexes: seq<IndexSpec>): (t: TableSpec)
    requires k < |y.news| && KeysFit(y, k, |columns|, keys) && RepairsFit(y, k, repairs)
  {
    var t := y.news[k];
    TableSpec(t, ColumnMap(t, columns) + KeyMap(y, k, t, columns, keys), repairs != [], repairs, indexes)
  }

  lemma MadeFits(y: Layout, k: nat, columns: seq<ColumnSpec>, keys: seq<Key>, repairs: seq<Step>, indexes: seq<IndexSpec>)
    requires k < |y.news| && KeysFit(y, k, |columns|, keys) && RepairsFit(y, k, repairs)
    ensures Fits(y, MakeTable(y, k, columns, keys, repairs, indexes), k)
  {
    hide RepairsFit, KeyFits, Precedes, KeyOk, Fits, KeyDef;
    var t := y.news[k];
    var cs, ks := ColumnMap(t, columns), KeyMap(y, k, t, columns, keys);
    KeyMapFits(y, k, columns, keys, t, cs, ks);
    MergedFits(y, k, cs, ks, repairs, indexes);
  }

  lemma MergedFits(y: Layout, k: nat, cs: map<Obj, Def>, ks: map<Obj, Def>, repairs: seq<Step>, indexes: seq<IndexSpec>)
    requires k < |y.news| && RepairsFit(y, k, repairs)
    requires forall o :: o in cs ==> o.kind.Column? && o.table == y.news[k] && cs[o].ColumnDef?
    requires forall o :: o in ks ==> o.kind.Constraint? && o.table == y.news[k] && KeyOk(y, k, y.news[k], cs, ks[o])
    ensures Fits(y, TableSpec(y.news[k], cs + ks, repairs != [], repairs, indexes), k)
  {
    hide RepairsFit, Precedes;
  }

  ghost predicate KeyOk(y: Layout, k: nat, t: Name, cs: map<Obj, Def>, def: Def) {
    && (def.PrimaryDef? || def.UniqueDef? || def.ForeignDef?)
    && (forall c :: c in Columns(def) ==> Col(t, c) in cs)
    && (def.ForeignDef? ==> Precedes(y, k, def.target))
  }

  lemma KeyMapFits(y: Layout, k: nat, columns: seq<ColumnSpec>, keys: seq<Key>, t: Name, cs: map<Obj, Def>, ks: map<Obj, Def>)
    requires k < |y.news| && KeysFit(y, k, |columns|, keys)
    requires t == y.news[k] && cs == ColumnMap(t, columns) && ks == KeyMap(y, k, t, columns, keys)
    ensures forall o :: o in ks ==> o.kind.Constraint? && o.table == t && KeyOk(y, k, t, cs, ks[o])
  {
    hide KeyDef, KeyFits, Precedes;
    forall o | o in ks ensures KeyOk(y, k, t, cs, ks[o]) {
      var key :| key in keys && ks[o] == KeyDef(y, k, columns, key);
      KeyDefFits(y, k, columns, key);
    }
  }

  // ------------------------------------------------------------------ repairs

  /** Bringing an interrupted campaign_waves up to its full shape. */
  function WaveRepairs(y: Layout): (steps: seq<Step>)
    requires |y.news| == 15 && |y.olds| == 7
    ensures RepairsFit(y, 8, steps)
  {
    var columns :=
      [
      ("approval_mode", "VARCHAR(30) NOT NULL DEFAULT 'none'"), ("is_canary", "BOOLEAN NOT NULL DEFAULT false"),
      ("approved_at", "TIMESTAMP"), ("approved_by_user_id", "INTEGER"), ("scheduled_at", "TIMESTAMP"),
      ("window_start", "TIMESTAMP"), ("window_end", "TIMESTAMP"), ("planned_count", "INTEGER NOT NULL DEFAULT '0'"),
      ("queued_count", "INTEGER NOT NULL DEFAULT '0'"), ("sent_count", "INTEGER NOT NULL DEFAULT '0'"),
      ("failed_count", "INTEGER NOT NULL DEFAULT '0'"), ("skipped_count", "INTEGER NOT NULL DEFAULT '0'"),
      ("error_message", "TEXT"), ("created_at", "TIMESTAMP NOT NULL DEFAULT now()"), ("started_at", "TIMESTAMP"),
      ("finished_at", "TIMESTAMP")];
    ColumnRepairsFit(y, columns);
    KeyRepairsFit(y);
    ColumnRepairs(y.news[8], columns) + KeyRepairs(y) + [WaveCheck(y.news[8], columns)]
  }

  function WaveCheck(t: Name, columns: seq<ColumnSpec>): Step {
    RepairCheck(t, ["id", "project_id", "run_id", "position", "status"] + seq(|columns|, k requires 0 <= k < |columns| => columns[k].0))
  }

  function ColumnRepairs(t: Name, columns: seq<ColumnSpec>): seq<Step> {
    seq(|columns|, k requires 0 <= k < |columns| => RepairColumn(t, columns[k].0, columns[k].1))
  }

  lemma ColumnRepairsFit(y: Layout, columns: seq<ColumnSpec>)
    requires |y.news| == 15 && |y.olds| == 7
    ensures RepairsFit(y, 8, ColumnRepairs(y.news[8], columns)) && RepairsFit(y, 8, [WaveCheck(y.news[8], columns)])
  {
  }

  function KeyRepairs(y: Layout): seq<Step>
    requires |y.news| == 15 && |y.olds| == 7
  {
    var t := y.news[8];
    [RepairForeign(ForeignSpec("fk_campaign_waves_project", t, ["project_id"], y.olds[PROJECTS], ["id"])),
     RepairForeign(ForeignSpec("fk_campaign_waves_run", t, ["run_id"], y.news[7], ["id"])),
     RepairForeign(ForeignSpec("fk_campaign_waves_approved_by", t, ["approved_by_user_id"], y.olds[USERS], ["id"])),
     RepairUnique(UniqueSpec("uq_campaign_wave_position", t, ["run_id", "position"]))]
  }

  lemma KeyRepairsFit(y: Layout)
    requires |y.news| == 15 && |y.olds| == 7
    ensures RepairsFit(y, 8, KeyRepairs(y))
  {
    assert y.olds[PROJECTS] in y.olds && y.olds[USERS] in y.olds;
  }

  // ------------------------------------------------------------------- tables

  function ContactEndpointsKeys(y: Layout): (keys: seq<Key>)
    requires |y.news| == 15 && |y.olds| == 7
    ensures KeysFit(y, 0, 15, keys)
  {
    [
      Primary, Foreign(1, Old(PROJECTS)), Foreign(2, Old(MESSAGING_USERS)),
      Unique("uq_contact_endpoint_hash", [1, 2, 3, 6])]
  }

  function ContactEndpoints(y: Layout): (t: TableSpec)
    requires |y.news| == 15 && |y.olds| == 7
    ensures Fits(y, t, 0)
  {
    var columns := [
      ("id", "BIGINT PRIMARY KEY"), ("project_id", "INTEGER NOT NULL"), ("user_id", "INTEGER NOT NULL"),
      ("endpoint_type", "VARCHAR(30) NOT NULL"), ("value", "VARCHAR(500) NOT NULL"),
      ("normalized_value", "VARCHAR(500)"), ("value_hash", "VARCHAR(64) NOT NULL"),
      ("is_primary", "BOOLEAN NOT NULL DEFAULT false"), ("status", "VARCHAR(30) NOT NULL DEFAULT 'active'"),
      ("source", "VARCHAR(50) NOT NULL DEFAULT 'migration'"), ("metadata", "JSONB"),
      ("first_seen_at", "TIMESTAMP NOT NULL DEFAULT now()"), ("last_seen_at", "TIMESTAMP NOT NULL DEFAULT now()"),
      ("created_at", "TIMESTAMP NOT NULL DEFAULT now()"), ("updated_at", "TIMESTAMP NOT NULL DEFAULT now()")];
    var indexes := [
      IndexSpec("ix_contact_endpoints_project_id", ["project_id"], false, ""),
      IndexSpec("ix_contact_endpoints_user_id", ["user_id"], false, ""),
      IndexSpec("ix_contact_endpoint_type", ["endpoint_type"], false, ""),
      IndexSpec("ix_contact_endpoint_value_hash", ["value_hash"], false, ""),
      IndexSpec("ix_contact_endpoint_user_type", ["project_id", "user_id", "endpoint_type", "status"], false, ""),
      IndexSpec("ix_contact_endpoint_primary", ["project_id", "user_id", "endpoint_type", "is_primary"], false, ""),
      IndexSpec("uq_contact_endpoint_one_primary", ["project_id", "user_id", "endpoint_type"], true, "is_primary = true")];
    MadeFits(y, 0, columns, ContactEndpointsKeys(y), [], indexes);
    MakeTable(y, 0, columns, ContactEndpointsKeys(y), [], indexes)
  }

  function ContactPermissionEvidenceKeys(y: Layout): (keys: seq<Key>)
    requires |y.news| == 15 && |y.olds| == 7
    ensures KeysFit(y, 1, 14, keys)
  {
    [
      Primary, Foreign(1, Old(PROJECTS)), Foreign(2, Old(MESSAGING_USERS)), Foreign(3, Earlier(0))]
  }

  function ContactPermissionEvidence(y: Layout): (t: TableSpec)
    requires |y.news| == 15 && |y.olds| == 7
    ensures Fits(y, t, 1)
  {
    var columns := [
      ("id", "BIGINT PRIMARY KEY"), ("project_id", "INTEGER NOT NULL"), ("user_id", "INTEGER NOT NULL"),
      ("endpoint_id", "BIGINT"), ("channel", "VARCHAR(50) NOT NULL"),
      ("permission_type", "VARCHAR(50) NOT NULL DEFAULT 'marketing'"), ("status", "VARCHAR(30) NOT NULL"),
      ("source", "VARCHAR(100)"), ("policy_version", "VARCHAR(100)"), ("evidence_ref", "VARCHAR(255)"),
      ("captured_at", "TIMESTAMP NOT NULL DEFAULT now()"), ("expires_at", "TIMESTAMP"), ("metadata", "JSONB"),
      ("created_at", "TIMESTAMP NOT NULL DEFAULT now()")];
    var indexes := [
      IndexSpec("ix_contact_permission_project_id", ["project_id"], false, ""),
      IndexSpec("ix_contact_permission_user_id", ["user_id"], false, ""),
      IndexSpec("ix_contact_permission_endpoint", ["endpoint_id"], false, ""),
      IndexSpec("ix_contact_permission_channel", ["channel"], false, ""),
      IndexSpec("ix_contact_permission_status", ["status"], false, ""),
      IndexSpec("ix_contact_permission_evidence_ref", ["evidence_ref"], false, ""),
      IndexSpec("ix_contact_permission_captured_at", ["captured_at"], false, ""),
      IndexSpec("ix_contact_permission_expires_at", ["expires_at"], false, ""),
      IndexSpec("ix_contact_permission_user_channel", ["project_id", "user_id", "channel", "permission_type", "captured_at"], false, "")];
    MadeFits(y, 1, columns, ContactPermissionEvidenceKeys(y), [], indexes);
    MakeTable(y, 1, columns, ContactPermissionEvidenceKeys(y), [], indexes)
  }

  function ContactGroupsKeys(y: Layout): (keys: seq<Key>)
    requires |y.news| == 15 && |y.olds| == 7
    ensures KeysFit(y, 2, 12, keys)
  {
    [
      Primary, Foreign(1, Old(PROJECTS)), Foreign(8, Old(USERS)), Unique("uq_contact_group_project_name", [1, 2])]
  }

  function ContactGroups(y: Layout): (t: TableSpec)
    requires |y.news| == 15 && |y.olds| == 7
    ensures Fits(y, t, 2)
  {
    var columns := [
      ("id", "INTEGER PRIMARY KEY"), ("project_id", "INTEGER NOT NULL"), ("name", "VARCHAR(255) NOT NULL"),
      ("description", "TEXT"), ("group_type", "VARCHAR(30) NOT NULL DEFAULT 'dynamic'"), ("rule_config", "JSONB"),
      ("source_ref", "VARCHAR(255)"), ("status", "VARCHAR(30) NOT NULL DEFAULT 'active'"),
      ("created_by_user_id", "INTEGER"), ("last_evaluated_at", "TIMESTAMP"),
      ("created_at", "TIMESTAMP NOT NULL DEFAULT now()"), ("updated_at", "TIMESTAMP NOT NULL DEFAULT now()")];
    var indexes := [
      IndexSpec("ix_contact_groups_project_id", ["project_id"], false, ""),
      IndexSpec("ix_contact_group_project_status", ["project_id", "status"], false, "")];
    MadeFits(y, 2, columns, ContactGroupsKeys(y), [], indexes);
    MakeTable(y, 2, columns, ContactGroupsKeys(y), [], indexes)
  }

  function ContactGroupMembershipsKeys(y: Layout): (keys: seq<Key>)
    requires |y.news| == 15 && |y.olds| == 7
    ensures KeysFit(y, 3, 10, keys)
  {
    [
      Primary, Foreign(1, Old(PROJECTS)), Foreign(2, Earlier(2)), Foreign(3, Old(MESSAGING_USERS)),
      Unique("uq_contact_group_member", [1, 2, 3])]
  }

  function ContactGroupMemberships(y: Layout): (t: TableSpec)
    requires |y.news| == 15 && |y.olds| == 7
    ensures Fits(y, t, 3)
  {
    var columns := [
      ("id", "BIGINT PRIMARY KEY"), ("project_id", "INTEGER NOT NULL"), ("group_id", "INTEGER NOT NULL"),
      ("user_id", "INTEGER NOT NULL"), ("state", "VARCHAR(30) NOT NULL DEFAULT 'included'"),
      ("source", "VARCHAR(50)"), ("reason", "VARCHAR(100)"), ("evaluated_at", "TIMESTAMP"),
      ("created_at", "TIMESTAMP NOT NULL DEFAULT now()"), ("updated_at", "TIMESTAMP NOT NULL DEFAULT now()")];
    var indexes := [
      IndexSpec("ix_contact_group_memberships_project_id", ["project_id"], false, ""),
      IndexSpec("ix_contact_group_memberships_group_id", ["group_id"], false, ""),
      IndexSpec("ix_contact_group_memberships_user_id", ["user_id"], false, ""),
      IndexSpec("ix_contact_group_membership_state", ["project_id", "group_id", "state"], false, "")];
    MadeFits(y, 3, columns, ContactGroupMembershipsKeys(y), [], indexes);
    MakeTable(y, 3, columns, ContactGroupMembershipsKeys(y), [], indexes)
  }

  function CampaignsKeys(y: Layout): (keys: seq<Key>)
    requires |y.news| == 15 && |y.olds| == 7
    ensures KeysFit(y, 4, 18, keys)
  {
    [
      Primary, Foreign(1, Old(PROJECTS)), Foreign(15, Old(USERS)), Unique("uq_campaign_project_name", [1, 2]),
      Unique("uq_campaign_project_external", [1, 13])]
  }

  function Campaigns(y: Layout): (t: TableSpec)
    requires |y.news| == 15 && |y.olds| == 7
    ensures Fits(y, t, 4)
  {
    var columns := [
      ("id", "INTEGER PRIMARY KEY"), ("project_id", "INTEGER NOT NULL"), ("name", "VARCHAR(255) NOT NULL"),
      ("description", "TEXT"), ("campaign_type", "VARCHAR(30) NOT NULL DEFAULT 'one_off'"),
      ("status", "VARCHAR(30) NOT NULL DEFAULT 'draft'"),
      ("default_channel", "VARCHAR(50) NOT NULL DEFAULT 'email'"), ("selection_config", "JSONB"),
      ("policy_config", "JSONB"), ("recurrence_config", "JSONB"), ("timezone", "VARCHAR(64)"),
      ("starts_at", "TIMESTAMP"), ("target_at", "TIMESTAMP"), ("external_key", "VARCHAR(255)"),
      ("version", "INTEGER NOT NULL DEFAULT '1'"), ("created_by_user_id", "INTEGER"),
      ("created_at", "TIMESTAMP NOT NULL DEFAULT now()"), ("updated_at", "TIMESTAMP NOT NULL DEFAULT now()")];
    var indexes := [
      IndexSpec("ix_campaigns_project_id", ["project_id"], false, ""),
      IndexSpec("ix_campaign_project_status", ["project_id", "status"], false, "")];
    MadeFits(y, 4, columns, CampaignsKeys(y), [], indexes);
    MakeTable(y, 4, columns, CampaignsKeys(y), [], indexes)
  }

  function CampaignActionsKeys(y: Layout): (keys: seq<Key>)
    requires |y.news| == 15 && |y.olds| == 7
    ensures KeysFit(y, 5, 10, keys)
  {
    [
      Primary, Foreign(1, Old(PROJECTS)), Foreign(2, Earlier(4))]
  }

  function CampaignActions(y: Layout): (t: TableSpec)
    requires |y.news| == 15 && |y.olds| == 7
    ensures Fits(y, t, 5)
  {
    var columns := [
      ("id", "INTEGER PRIMARY KEY"), ("project_id", "INTEGER NOT NULL"), ("campaign_id", "INTEGER NOT NULL"),
      ("position", "INTEGER NOT NULL DEFAULT '0'"), ("action_type", "VARCHAR(50) NOT NULL"),
      ("channel", "VARCHAR(50)"), ("config", "JSONB"), ("status", "VARCHAR(30) NOT NULL DEFAULT 'active'"),
      ("created_at", "TIMESTAMP NOT NULL DEFAULT now()"), ("updated_at", "TIMESTAMP NOT NULL DEFAULT now()")];
    var indexes := [
      IndexSpec("ix_campaign_actions_project_id", ["project_id"], false, ""),
      IndexSpec("ix_campaign_actions_campaign_id", ["campaign_id"], false, ""),
      IndexSpec("ix_campaign_action_order", ["campaign_id", "position"], false, "")];
    MadeFits(y, 5, columns, CampaignActionsKeys(y), [], indexes);
    MakeTable(y, 5, columns, CampaignActionsKeys(y), [], indexes)
  }

  function CampaignVariantsKeys(y: Layout): (keys: seq<Key>)
    requires |y.news| == 15 && |y.olds| == 7
    ensures KeysFit(y, 6, 14, keys)
  {
    [
      Primary, Foreign(1, Old(PROJECTS)), Foreign(2, Earlier(4)), Foreign(3, Earlier(5)),
      Foreign(6, Old(MESSAGING_TEMPLATES)), Unique("uq_campaign_variant_key", [2, 3, 4, 5])]
  }

  function CampaignVariants(y: Layout): (t: TableSpec)
    requires |y.news| == 15 && |y.olds| == 7
    ensures Fits(y, t, 6)
  {
    var columns := [
      ("id", "INTEGER PRIMARY KEY"), ("project_id", "INTEGER NOT NULL"), ("campaign_id", "INTEGER NOT NULL"),
      ("action_id", "INTEGER"), ("variant_key", "VARCHAR(100) NOT NULL"), ("locale", "VARCHAR(20)"),
      ("template_id", "INTEGER"), ("subject", "VARCHAR(500)"), ("body", "TEXT"), ("variant_config", "JSONB"),
      ("weight", "INTEGER NOT NULL DEFAULT '100'"), ("status", "VARCHAR(30) NOT NULL DEFAULT 'active'"),
      ("created_at", "TIMESTAMP NOT NULL DEFAULT now()"), ("updated_at", "TIMESTAMP NOT NULL DEFAULT now()")];
    var indexes := [
      IndexSpec("ix_campaign_variants_project_id", ["project_id"], false, ""),
      IndexSpec("ix_campaign_variants_campaign_id", ["campaign_id"], false, ""),
      IndexSpec("ix_campaign_variants_action_id", ["action_id"], false, ""),
      IndexSpec("ix_campaign_variants_template_id", ["template_id"], false, ""),
      IndexSpec("ix_campaign_variant_locale", ["project_id", "campaign_id", "locale", "status"], false, "")];
    MadeFits(y, 6, columns, CampaignVariantsKeys(y), [], indexes);
    MakeTable(y, 6, columns, CampaignVariantsKeys(y), [], indexes)
  }

  function CampaignRunsKeys(y: Layout): (keys: seq<Key>)
    requires |y.news| == 15 && |y.olds| == 7
    ensures KeysFit(y, 7, 28, keys)
  {
    [
      Primary, Foreign(1, Old(PROJECTS)), Foreign(2, Earlier(4)), Foreign(24, Old(USERS)),
      Unique("uq_campaign_run_key", [1, 2, 3])]
  }

  function CampaignRuns(y: Layout): (t: TableSpec)
    requires |y.news| == 15 && |y.olds| == 7
    ensures Fits(y, t, 7)
  {
    var columns := [
      ("id", "BIGINT PRIMARY KEY"), ("project_id", "INTEGER NOT NULL"), ("campaign_id", "INTEGER NOT NULL"),
      ("run_key", "VARCHAR(255) NOT NULL"), ("trigger_type", "VARCHAR(50) NOT NULL DEFAULT 'manual'"),
      ("status", "VARCHAR(30) NOT NULL DEFAULT 'draft'"), ("audience_snapshot", "JSONB"),
      ("audience_hash", "VARCHAR(64)"), ("timezone", "VARCHAR(64)"), ("starts_at", "TIMESTAMP"),
      ("target_at", "TIMESTAMP"), ("deadline_at", "TIMESTAMP"), ("capacity_plan", "JSONB"),
      ("candidate_count", "INTEGER NOT NULL DEFAULT '0'"), ("eligible_count", "INTEGER NOT NULL DEFAULT '0'"),
      ("planned_count", "INTEGER NOT NULL DEFAULT '0'"), ("queued_count", "INTEGER NOT NULL DEFAULT '0'"),
      ("sent_count", "INTEGER NOT NULL DEFAULT '0'"), ("delivered_count", "INTEGER NOT NULL DEFAULT '0'"),
      ("failed_count", "INTEGER NOT NULL DEFAULT '0'"), ("skipped_count", "INTEGER NOT NULL DEFAULT '0'"),
      ("canceled_count", "INTEGER NOT NULL DEFAULT '0'"), ("cancel_requested", "BOOLEAN NOT NULL DEFAULT false"),
      ("error_message", "TEXT"), ("requested_by_user_id", "INTEGER"),
      ("created_at", "TIMESTAMP NOT NULL DEFAULT now()"), ("started_at", "TIMESTAMP"), ("finished_at", "TIMESTAMP")];
    var indexes := [
      IndexSpec("ix_campaign_runs_project_id", ["project_id"], false, ""),
      IndexSpec("ix_campaign_runs_campaign_id", ["campaign_id"], false, ""),
      IndexSpec("ix_campaign_runs_audience_hash", ["audience_hash"], false, ""),
      IndexSpec("ix_campaign_run_due", ["project_id", "status", "starts_at"], false, ""),
      IndexSpec("ix_campaign_runs_created", ["project_id", "created_at"], false, "")];
    MadeFits(y, 7, columns, CampaignRunsKeys(y), [], indexes);
    MakeTable(y, 7, columns, CampaignRunsKeys(y), [], indexes)
  }

  function CampaignWavesKeys(y: Layout): (keys: seq<Key>)
    requires |y.news| == 15 && |y.olds| == 7
    ensures KeysFit(y, 8, 21, keys)
  {
    [
      Primary, Foreign(1, Old(PROJECTS)), Foreign(2, Earlier(7)), Foreign(8, Old(USERS)),
      Unique("uq_campaign_wave_position", [2, 3])]
  }

  function CampaignWaves(y: Layout): (t: TableSpec)
    requires |y.news| == 15 && |y.olds| == 7
    ensures Fits(y, t, 8)
  {
    var columns := [
      ("id", "BIGINT PRIMARY KEY"), ("project_id", "INTEGER NOT NULL"), ("run_id", "BIGINT NOT NULL"),
      ("position", "INTEGER NOT NULL DEFAULT '0'"), ("status", "VARCHAR(30) NOT NULL DEFAULT 'planned'"),
      ("approval_mode", "VARCHAR(30) NOT NULL DEFAULT 'none'"), ("is_canary", "BOOLEAN NOT NULL DEFAULT false"),
      ("approved_at", "TIMESTAMP"), ("approved_by_user_id", "INTEGER"), ("scheduled_at", "TIMESTAMP"),
      ("window_start", "TIMESTAMP"), ("window_end", "TIMESTAMP"),
      ("planned_count", "INTEGER NOT NULL DEFAULT '0'"), ("queued_count", "INTEGER NOT NULL DEFAULT '0'"),
      ("sent_count", "INTEGER NOT NULL DEFAULT '0'"), ("failed_count", "INTEGER NOT NULL DEFAULT '0'"),
      ("skipped_count", "INTEGER NOT NULL DEFAULT '0'"), ("error_message", "TEXT"),
      ("created_at", "TIMESTAMP NOT NULL DEFAULT now()"), ("started_at", "TIMESTAMP"), ("finished_at", "TIMESTAMP")];
    var indexes := [
      IndexSpec("ix_campaign_waves_project_id", ["project_id"], false, ""),
      IndexSpec("ix_campaign_waves_run_id", ["run_id"], false, ""),
      IndexSpec("ix_campaign_waves_approved_by", ["approved_by_user_id"], false, ""),
      IndexSpec("ix_campaign_wave_due", ["project_id", "status", "scheduled_at"], false, "")];
    MadeFits(y, 8, columns, CampaignWavesKeys(y), WaveRepairs(y), indexes);
    MakeTable(y, 8, columns, CampaignWavesKeys(y), WaveRepairs(y), indexes)
  }

  function ChannelSenderIdentitiesKeys(y: Layout): (keys: seq<Key>)
    requires |y.news| == 15 && |y.olds| == 7
    ensures KeysFit(y, 9, 15, keys)
  {
    [
      Primary, Foreign(1, Old(PROJECTS)), Unique("uq_sender_identity_key", [1, 2, 4])]
  }

  function ChannelSenderIdentities(y: Layout): (t: TableSpec)
    requires |y.news| == 15 && |y.olds| == 7
    ensures Fits(y, t, 9)
  {
    var columns := [
      ("id", "INTEGER PRIMARY KEY"), ("project_id", "INTEGER NOT NULL"), ("channel", "VARCHAR(50) NOT NULL"),
      ("provider", "VARCHAR(80) NOT NULL"), ("identity_key", "VARCHAR(255) NOT NULL"), ("address", "VARCHAR(500)"),
      ("display_name", "VARCHAR(255)"), ("reply_to", "VARCHAR(500)"), ("external_instance_id", "VARCHAR(255)"),
      ("status", "VARCHAR(30) NOT NULL DEFAULT 'active'"), ("is_default", "BOOLEAN NOT NULL DEFAULT false"),
      ("capabilities", "JSONB"), ("metadata", "JSONB"), ("created_at", "TIMESTAMP NOT NULL DEFAULT now()"),
      ("updated_at", "TIMESTAMP NOT NULL DEFAULT now()")];
    var indexes := [
      IndexSpec("ix_channel_sender_identities_project_id", ["project_id"], false, ""),
      IndexSpec("ix_channel_sender_identities_channel", ["channel"], false, ""),
      IndexSpec("ix_channel_sender_identities_provider", ["provider"], false, ""),
      IndexSpec("ix_sender_identity_active", ["project_id", "channel", "status", "is_default"], false, ""),
      IndexSpec("uq_sender_identity_one_default", ["project_id", "channel"], true, "is_default = true")];
    MadeFits(y, 9, columns, ChannelSenderIdentitiesKeys(y), [], indexes);
    MakeTable(y, 9, columns, ChannelSenderIdentitiesKeys(y), [], indexes)
  }

  function ChannelDeliveryProfilesKeys(y: Layout): (keys: seq<Key>)
    requires |y.news| == 15 && |y.olds| == 7
    ensures KeysFit(y, 10, 20, keys)
  {
    [
      Primary, Foreign(1, Old(PROJECTS)), Foreign(5, Earlier(9)), Unique("uq_delivery_profile_name", [1, 2, 3, 4])]
  }

  function ChannelDeliveryProfiles(y: Layout): (t: TableSpec)
    requires |y.news| == 15 && |y.olds| == 7
    ensures Fits(y, t, 10)
  {
    var columns := [
      ("id", "INTEGER PRIMARY KEY"), ("project_id", "INTEGER NOT NULL"), ("channel", "VARCHAR(50) NOT NULL"),
      ("provider", "VARCHAR(80) NOT NULL"), ("name", "VARCHAR(255) NOT NULL"), ("sender_identity_id", "INTEGER"),
      ("max_per_minute", "INTEGER"), ("max_per_hour", "INTEGER"), ("max_per_day", "INTEGER"),
      ("concurrency_limit", "INTEGER"), ("priority", "INTEGER NOT NULL DEFAULT '0'"),
      ("weight", "INTEGER NOT NULL DEFAULT '100'"), ("timezone", "VARCHAR(64)"), ("warmup_config", "JSONB"),
      ("health_status", "VARCHAR(30) NOT NULL DEFAULT 'unknown'"),
      ("status", "VARCHAR(30) NOT NULL DEFAULT 'active'"), ("config", "JSONB"),
      ("last_health_check_at", "TIMESTAMP"), ("created_at", "TIMESTAMP NOT NULL DEFAULT now()"),
      ("updated_at", "TIMESTAMP NOT NULL DEFAULT now()")];
    var indexes := [
      IndexSpec("ix_channel_delivery_profiles_project_id", ["project_id"], false, ""),
      IndexSpec("ix_channel_delivery_profiles_channel", ["channel"], false, ""),
      IndexSpec("ix_channel_delivery_profiles_provider", ["provider"], false, ""),
      IndexSpec("ix_channel_delivery_profiles_sender", ["sender_identity_id"], false, ""),
      IndexSpec("ix_delivery_profile_select", ["project_id", "channel", "status", "health_status", "priority"], false, "")];
    MadeFits(y, 10, columns, ChannelDeliveryProfilesKeys(y), [], indexes);
    MakeTable(y, 10, columns, ChannelDeliveryProfilesKeys(y), [], indexes)
  }

  function CampaignRecipientsKeys(y: Layout): (keys: seq<Key>)
    requires |y.news| == 15 && |y.olds| == 7
    ensures KeysFit(y, 11, 26, keys)
  {
    [
      Primary, Foreign(1, Old(PROJECTS)), Foreign(2, Earlier(7)), Foreign(3, Earlier(8)), Foreign(4, Earlier(5)),
      Foreign(5, Earlier(6)), Foreign(6, Old(MESSAGING_USERS)), Foreign(7, Earlier(0)), Foreign(14, Earlier(10)),
      Foreign(15, Earlier(9)), Foreign(16, Old(SEND_LOGS)), Unique("uq_campaign_recipient_idem", [2, 10])]
  }

  function CampaignRecipients(y: Layout): (t: TableSpec)
    requires |y.news| == 15 && |y.olds| == 7
    ensures Fits(y, t, 11)
  {
    var columns := [
      ("id", "BIGINT PRIMARY KEY"), ("project_id", "INTEGER NOT NULL"), ("run_id", "BIGINT NOT NULL"),
      ("wave_id", "BIGINT"), ("action_id", "INTEGER"), ("variant_id", "INTEGER"), ("user_id", "INTEGER"),
      ("endpoint_id", "BIGINT"), ("channel", "VARCHAR(50) NOT NULL DEFAULT 'email'"),
      ("endpoint_hash", "VARCHAR(64)"), ("idempotency_key", "VARCHAR(255) NOT NULL"),
      ("status", "VARCHAR(30) NOT NULL DEFAULT 'pending'"), ("suppression_reason", "VARCHAR(120)"),
      ("provider", "VARCHAR(80)"), ("delivery_profile_id", "INTEGER"), ("sender_identity_id", "INTEGER"),
      ("send_log_id", "INTEGER"), ("scheduled_at", "TIMESTAMP"), ("attempt_count", "INTEGER NOT NULL DEFAULT '0'"),
      ("last_error_code", "VARCHAR(100)"), ("last_error", "TEXT"),
      ("created_at", "TIMESTAMP NOT NULL DEFAULT now()"), ("updated_at", "TIMESTAMP NOT NULL DEFAULT now()"),
      ("queued_at", "TIMESTAMP"), ("sent_at", "TIMESTAMP"), ("completed_at", "TIMESTAMP")];
    var indexes := [
      IndexSpec("ix_campaign_recipients_project_id", ["project_id"], false, ""),
      IndexSpec("ix_campaign_recipients_run_id", ["run_id"], false, ""),
      IndexSpec("ix_campaign_recipients_wave_id", ["wave_id"], false, ""),
      IndexSpec("ix_campaign_recipients_action_id", ["action_id"], false, ""),
      IndexSpec("ix_campaign_recipients_variant_id", ["variant_id"], false, ""),
      IndexSpec("ix_campaign_recipients_user_id", ["user_id"], false, ""),
      IndexSpec("ix_campaign_recipients_endpoint", ["endpoint_id"], false, ""),
      IndexSpec("ix_campaign_recipients_channel", ["channel"], false, ""),
      IndexSpec("ix_campaign_recipients_endpoint_hash", ["endpoint_hash"], false, ""),
      IndexSpec("ix_campaign_recipients_profile", ["delivery_profile_id"], false, ""),
      IndexSpec("ix_campaign_recipients_sender", ["sender_identity_id"], false, ""),
      IndexSpec("ix_campaign_recipients_send_log", ["send_log_id"], false, ""),
      IndexSpec("ix_campaign_recipient_dispatch", ["project_id", "status", "scheduled_at"], false, "")];
    MadeFits(y, 11, columns, CampaignRecipientsKeys(y), [], indexes);
    MakeTable(y, 11, columns, CampaignRecipientsKeys(y), [], indexes)
  }

  function ChannelCapacityReservationsKeys(y: Layout): (keys: seq<Key>)
    requires |y.news| == 15 && |y.olds| == 7
    ensures KeysFit(y, 12, 13, keys)
  {
    [
      Primary, Foreign(1, Old(PROJECTS)), Foreign(2, Earlier(10)), Foreign(3, Earlier(7)), Foreign(4, Earlier(8)),
      Unique("uq_capacity_reservation_key", [2, 5, 10])]
  }

  function ChannelCapacityReservations(y: Layout): (t: TableSpec)
    requires |y.news| == 15 && |y.olds| == 7
    ensures Fits(y, t, 12)
  {
    var columns := [
      ("id", "BIGINT PRIMARY KEY"), ("project_id", "INTEGER NOT NULL"),
      ("delivery_profile_id", "INTEGER NOT NULL"), ("run_id", "BIGINT"), ("wave_id", "BIGINT"),
      ("bucket_start", "TIMESTAMP NOT NULL"), ("bucket_end", "TIMESTAMP NOT NULL"),
      ("units_reserved", "INTEGER NOT NULL DEFAULT '0'"), ("units_consumed", "INTEGER NOT NULL DEFAULT '0'"),
      ("status", "VARCHAR(30) NOT NULL DEFAULT 'reserved'"), ("reservation_key", "VARCHAR(255) NOT NULL"),
      ("created_at", "TIMESTAMP NOT NULL DEFAULT now()"), ("released_at", "TIMESTAMP")];
    var indexes := [
      IndexSpec("ix_channel_capacity_reservations_project_id", ["project_id"], false, ""),
      IndexSpec("ix_channel_capacity_reservations_profile", ["delivery_profile_id"], false, ""),
      IndexSpec("ix_channel_capacity_reservations_run", ["run_id"], false, ""),
      IndexSpec("ix_channel_capacity_reservations_wave", ["wave_id"], false, ""),
      IndexSpec("ix_channel_capacity_reservations_bucket", ["bucket_start"], false, ""),
      IndexSpec("ix_channel_capacity_reservations_status", ["status"], false, ""),
      IndexSpec("ix_capacity_reservation_bucket", ["project_id", "delivery_profile_id", "bucket_start", "status"], false, "")];
    MadeFits(y, 12, columns, ChannelCapacityReservationsKeys(y), [], indexes);
    MakeTable(y, 12, columns, ChannelCapacityReservationsKeys(y), [], indexes)
  }

  function ContactVerificationRequestsKeys(y: Layout): (keys: seq<Key>)
    requires |y.news| == 15 && |y.olds| == 7
    ensures KeysFit(y, 13, 19, keys)
  {
    [
      Primary, Foreign(1, Old(PROJECTS)), Foreign(2, Old(MESSAGING_USERS)), Foreign(3, Earlier(0)),
      Foreign(4, Old(CONTACT_VERIFICATION_JOBS)), Unique("uq_verify_request_idem", [1, 8])]
  }

  function ContactVerificationRequests(y: Layout): (t: TableSpec)
    requires |y.news| == 15 && |y.olds| == 7
    ensures Fits(y, t, 13)
  {
    var columns := [
      ("id", "BIGINT PRIMARY KEY"), ("project_id", "INTEGER NOT NULL"), ("user_id", "INTEGER"),
      ("endpoint_id", "BIGINT"), ("job_id", "BIGINT"), ("verification_type", "VARCHAR(50) NOT NULL"),
      ("provider", "VARCHAR(80) NOT NULL"), ("trigger_type", "VARCHAR(50) NOT NULL DEFAULT 'manual'"),
      ("idempotency_key", "VARCHAR(255) NOT NULL"), ("status", "VARCHAR(30) NOT NULL DEFAULT 'queued'"),
      ("attempt_count", "INTEGER NOT NULL DEFAULT '0'"), ("provider_status", "VARCHAR(100)"),
      ("canonical_status", "VARCHAR(30)"), ("error_code", "VARCHAR(100)"), ("error_message", "TEXT"),
      ("request_metadata", "JSONB"), ("requested_at", "TIMESTAMP NOT NULL DEFAULT now()"),
      ("started_at", "TIMESTAMP"), ("finished_at", "TIMESTAMP")];
    var indexes := [
      IndexSpec("ix_contact_verification_requests_project_id", ["project_id"], false, ""),
      IndexSpec("ix_contact_verification_requests_user_id", ["user_id"], false, ""),
      IndexSpec("ix_contact_verification_requests_endpoint", ["endpoint_id"], false, ""),
      IndexSpec("ix_contact_verification_requests_job", ["job_id"], false, ""),
      IndexSpec("ix_contact_verification_requests_type", ["verification_type"], false, ""),
      IndexSpec("ix_contact_verification_requests_status", ["status"], false, ""),
      IndexSpec("ix_verify_request_due", ["project_id", "status", "requested_at"], false, "")];
    MadeFits(y, 13, columns, ContactVerificationRequestsKeys(y), [], indexes);
    MakeTable(y, 13, columns, ContactVerificationRequestsKeys(y), [], indexes)
  }

  function OperationalAlertsKeys(y: Layout): (keys: seq<Key>)
    requires |y.news| == 15 && |y.olds| == 7
    ensures KeysFit(y, 14, 18, keys)
  {
    [
      Primary, Foreign(1, Old(WORKSPACES)), Foreign(2, Old(PROJECTS)), Foreign(13, Old(USERS)),
      Foreign(15, Old(USERS)), Unique("uq_operational_alert_dedupe", [1, 6])]
  }

  function OperationalAlerts(y: Layout): (t: TableSpec)
    requires |y.news| == 15 && |y.olds| == 7
    ensures Fits(y, t, 14)
  {
    var columns := [
      ("id", "BIGINT PRIMARY KEY"), ("workspace_id", "INTEGER NOT NULL"), ("project_id", "INTEGER"),
      ("alert_type", "VARCHAR(80) NOT NULL"), ("severity", "VARCHAR(20) NOT NULL DEFAULT 'warning'"),
      ("status", "VARCHAR(30) NOT NULL DEFAULT 'open'"), ("dedupe_key", "VARCHAR(255) NOT NULL"),
      ("title", "VARCHAR(255) NOT NULL"), ("message", "TEXT"), ("context", "JSONB"),
      ("first_seen_at", "TIMESTAMP NOT NULL DEFAULT now()"), ("last_seen_at", "TIMESTAMP NOT NULL DEFAULT now()"),
      ("acknowledged_at", "TIMESTAMP"), ("acknowledged_by_user_id", "INTEGER"), ("resolved_at", "TIMESTAMP"),
      ("resolved_by_user_id", "INTEGER"), ("created_at", "TIMESTAMP NOT NULL DEFAULT now()"),
      ("updated_at", "TIMESTAMP NOT NULL DEFAULT now()")];
    var indexes := [
      IndexSpec("ix_operational_alerts_workspace_id", ["workspace_id"], false, ""),
      IndexSpec("ix_operational_alerts_project_id", ["project_id"], false, ""),
      IndexSpec("ix_operational_alerts_type", ["alert_type"], false, ""),
      IndexSpec("ix_operational_alerts_severity", ["severity"], false, ""),
      IndexSpec("ix_operational_alerts_status", ["status"], false, ""),
      IndexSpec("ix_operational_alert_open", ["workspace_id", "status", "severity", "last_seen_at"], false, "")];
    MadeFits(y, 14, columns, OperationalAlertsKeys(y), [], indexes);
    MakeTable(y, 14, columns, OperationalAlertsKeys(y), [], indexes)
  }

  // --------------------------------------------------------------------- plan

  function LinkIndex(t: Name): Name { "ix_" + (if |t| > 24 then t[..24] else t) + "_endpoint" }

  function Links(y: Layout): seq<LinkSpec>
    requires |y.news| > 0
  {
    seq(|y.linked|, k requires 0 <= k < |y.linked| =>
      LinkSpec(y.linked[k], "endpoint_id", y.linkKey, y.news[0], ["id"], LinkIndex(y.linked[k])))
  }

  function Uniques(y: Layout): seq<UniqueSpec> {
    seq(|y.uniques|, k requires 0 <= k < |y.uniques| =>
      UniqueSpec(y.uniques[k].0, y.uniques[k].1, [if k == 0 then "workspace_id" else "project_id", "id"]))
  }

  /** The scoped foreign keys: each over the project, the last over the
      workspace, and one more column. */
  function Foreigns(y: Layout): seq<ForeignSpec>
    requires |y.foreigns| == 36
  {
    var locals :=
      [
      "user_id", "user_id", "endpoint_id", "group_id", "user_id", "campaign_id", "campaign_id", "action_id",
      "template_id", "campaign_id", "run_id", "sender_identity_id", "run_id", "wave_id", "action_id", "variant_id",
      "user_id", "endpoint_id", "delivery_profile_id", "sender_identity_id", "send_log_id", "delivery_profile_id",
      "run_id", "wave_id", "user_id", "endpoint_id", "job_id", "user_id", "endpoint_id", "endpoint_id", "job_id",
      "user_id", "endpoint_id", "job_id", "endpoint_id", "project_id"];
    seq(36, k requires 0 <= k < 36 =>
      var scope := if k == 35 then "workspace_id" else "project_id";
      ForeignSpec(y.foreigns[k].0, y.foreigns[k].1, [scope, locals[k]], y.foreigns[k].2, [scope, "id"]))
  }

  const SWITCHES: seq<Name> :=
    ["email_verify_on_first_seen", "email_recheck_enabled", "whatsapp_verify_on_first_seen", "whatsapp_recheck_enabled"]

  const PARTIALS: seq<IndexSpec> :=
    [IndexSpec("uq_contact_verify_state_ep", ["project_id", "endpoint_id", "verification_type"], true, "endpoint_id IS NOT NULL"),
     IndexSpec("uq_contact_verify_state_legacy", ["project_id", "user_id", "verification_type"], true, "endpoint_id IS NULL")]

  /** The fifteen tables, in their order. */
  ghost predicate AreTheTables(y: Layout, tables: seq<TableSpec>)
    requires |y.news| == 15 && |y.olds| == 7
  {
    tables == [
      ContactEndpoints(y), ContactPermissionEvidence(y), ContactGroups(y), ContactGroupMemberships(y), Campaigns(y),
      CampaignActions(y), CampaignVariants(y), CampaignRuns(y), CampaignWaves(y), ChannelSenderIdentities(y),
      ChannelDeliveryProfiles(y), CampaignRecipients(y), ChannelCapacityReservations(y), ContactVerificationRequests(y), OperationalAlerts(y)]
  }

  /** Each table is fit for its place. */
  lemma Tables(y: Layout) returns (tables: seq<TableSpec>)
    requires |y.news| == 15 && |y.olds| == 7
    ensures |tables| == 15 && forall k :: 0 <= k < 15 ==> Fits(y, tables[k], k)
    ensures AreTheTables(y, tables)
  {
    hide Fits, ContactEndpoints, ContactPermissionEvidence, ContactGroups, ContactGroupMemberships, Campaigns;
    hide CampaignActions, CampaignVariants, CampaignRuns, CampaignWaves, ChannelSenderIdentities;
    hide ChannelDeliveryProfiles, CampaignRecipients, ChannelCapacityReservations, ContactVerificationRequests, OperationalAlerts;
    tables := [
      ContactEndpoints(y), ContactPermissionEvidence(y), ContactGroups(y), ContactGroupMemberships(y), Campaigns(y),
      CampaignActions(y), CampaignVariants(y), CampaignRuns(y), CampaignWaves(y), ChannelSenderIdentities(y),
      ChannelDeliveryProfiles(y), CampaignRecipients(y), ChannelCapacityReservations(y), ContactVerificationRequests(y), OperationalAlerts(y)];
  }

  lemma FitsIsOwn(y: Layout, spec: TableSpec, k: nat)
    requires Good(y) && Fits(y, spec, k)
    ensures spec.name == y.news[k] && ContentsOk(spec) && OwnTargets(y, spec, k)
  {
    hide ContentsOk;
  }

  /** The whole plan over good names: the fifteen tables, then everything else. */
  ghost predicate IsOver(plan: Plan, y: Layout)
    requires Good(y)
  {
    && plan == Plan(plan.tables, Links(y), y.settings, SWITCHES, y.legacy, PARTIALS, Uniques(y), Foreigns(y))
    && AreTheTables(y, plan.tables)
  }

  /** Over any good names there is such a plan, with the tables above. */
  lemma PlanOver(y: Layout) returns (plan: Plan)
    requires Good(y)
    ensures Follows(plan, y) && RoundTripOk(plan)
    ensures IsOver(plan, y)
  {
    hide AreTheTables, Fits, Good, SWITCHES, PARTIALS, Links, Uniques, Foreigns, Follows;
    GoodSizes(y);
    var tables := Tables(y);
    plan := Plan(tables, Links(y), y.settings, SWITCHES, y.legacy, PARTIALS, Uniques(y), Foreigns(y));
    PlanFollows(plan, y);
    FollowsIsOk(plan, y);
  }

  lemma GoodSizes(y: Layout)
    requires Good(y)
    ensures |y.news| == 15 && |y.olds| == 7 && |y.foreigns| == 36
  {
  }

  lemma PlanFollows(plan: Plan, y: Layout)
    requires Good(y) && |plan.tables| == 15 && forall k :: 0 <= k < 15 ==> Fits(y, plan.tables[k], k)
    requires plan.links == Links(y) && plan.settings == y.settings && plan.legacy == y.legacy
    requires plan.uniques == Uniques(y) && plan.foreigns == Foreigns(y)
    ensures Follows(plan, y)
  {
    hide Fits, ContentsOk, OwnTargets, LinkIndex;
    forall k | 0 <= k < 15 ensures plan.tables[k].name == y.news[k] && ContentsOk(plan.tables[k]) && OwnTargets(y, plan.tables[k], k) {
      FitsIsOwn(y, plan.tables[k], k);
    }
    assert TableNames(plan) == y.news;
    UniquesNamed(y);
    ForeignsNamed(y);
  }

  lemma UniquesNamed(y: Layout)
    ensures |Uniques(y)| == |y.uniques| && forall k :: 0 <= k < |y.uniques| ==> (Uniques(y)[k].name, Uniques(y)[k].table) == y.uniques[k]
  {
  }

  lemma ForeignsNamed(y: Layout)
    requires |y.foreigns| == 36
    ensures |Foreigns(y)| == 36 && forall k :: 0 <= k < 36 ==> (Foreigns(y)[k].name, Foreigns(y)[k].table, Foreigns(y)[k].target) == y.foreigns[k]
  {
  }

  /** Revision 138 itself is a plan that the theorems are about. */
  lemma Revision138() returns (plan: Plan)
    ensures Follows(plan, Layout138()) && RoundTripOk(plan)
    ensures Good(Layout138())
    ensures IsOver(plan, Layout138())
  {
    hide IsOver, AreTheTables, Layout138, Good, Follows, Fits;
    Layout138IsGood();
    plan := PlanOver(Layout138());
  }
}
