/** The names of revision 138, and that they meet what the general theorems ask
    of a plan. */
module SchemaNames {
  import opened Common
  import opened SchemaMigration
  import opened SchemaRoundTrip
  import opened SchemaRefusals

  /** The names that a migration of this form is written with: its new tables,
      the older tables they point at, the linked tables and their key, the
      settings table, the legacy constraint, and the added constraints (name and
      table; name, table and target). */
  datatype Layout = Layout(
    news: seq<Name>, olds: seq<Name>, linked: seq<Name>, linkKey: Name, settings: Name,
    legacy: UniqueSpec, uniques: seq<(Name, Name)>, foreigns: seq<(Name, Name, Name)>)

  ghost predicate Good(y: Layout) {
    && |y.news| == 15 && |y.olds| == 7 && |y.linked| == 4 && |y.foreigns| == 36
    && Distinct(y.news) && y.settings !in y.news && (forall t :: t in y.linked || t in y.olds ==> t !in y.news)
    && y.linked[0] == y.legacy.table && y.settings != y.legacy.table
    && y.linkKey != y.legacy.name
    && (forall k :: 0 <= k < |y.uniques| ==> y.uniques[k].0 != y.legacy.name)
    && (forall k :: 0 <= k < |y.foreigns| ==> y.foreigns[k].0 != y.legacy.name)
  }

  /** A target outside the new tables, or an earlier one of them. */
  ghost predicate AllowedTarget(y: Layout, k: nat, target: Name) {
    target !in y.news || exists i :: 0 <= i < k && i < |y.news| && y.news[i] == target
  }

  ghost predicate OwnTargets(y: Layout, spec: TableSpec, k: nat) {
    && (forall o :: o in spec.contents && spec.contents[o].ForeignDef? ==> AllowedTarget(y, k, spec.contents[o].target))
    && (forall r :: r in spec.repairs ==> IsRepair(r, spec.name) && (r.RepairForeign? ==> AllowedTarget(y, k, r.foreign.target)))
  }

  /** A plan with these names, whose tables hold only their own objects. The
      columns, types and indexes inside the tables are left open. */
  ghost predicate Follows(plan: Plan, y: Layout) {
    && TableNames(plan) == y.news
    && (forall k :: 0 <= k < |plan.tables| ==> ContentsOk(plan.tables[k]) && OwnTargets(y, plan.tables[k], k))
    && |plan.links| == |y.linked| && (forall k :: 0 <= k < |y.linked| ==> plan.links[k].table == y.linked[k] && plan.links[k].fk == y.linkKey)
    && plan.settings == y.settings && plan.legacy == y.legacy
    && |plan.uniques| == |y.uniques| && (forall k :: 0 <= k < |y.uniques| ==> (plan.uniques[k].name, plan.uniques[k].table) == y.uniques[k])
    && |plan.foreigns| == |y.foreigns|
    && (forall k :: 0 <= k < |y.foreigns| ==> (plan.foreigns[k].name, plan.foreigns[k].table, plan.foreigns[k].target) == y.foreigns[k])
  }

  lemma NamesAreNew(plan: Plan)
    ensures forall t :: IsNew(plan, t) <==> t in TableNames(plan)
  {
    forall t ensures IsNew(plan, t) <==> t in TableNames(plan) {
      if spec :| spec in plan.tables && spec.name == t {
        var k :| 0 <= k < |plan.tables| && plan.tables[k] == spec;
        assert TableNames(plan)[k] == t;
      }
      if t in TableNames(plan) {
        var k :| 0 <= k < |plan.tables| && TableNames(plan)[k] == t;
        assert plan.tables[k] in plan.tables;
      }
    }
  }

  lemma PointsBackAt(plan: Plan, y: Layout, k: nat, def: Def)
    requires TableNames(plan) == y.news && Distinct(y.news) && k < |plan.tables|
    requires def.ForeignDef? ==> AllowedTarget(y, k, def.target)
    ensures PointsBack(plan, plan.tables[k].name, def)
  {
    NamesAreNew(plan);
    RankIs(plan, k);
    if def.ForeignDef? {
      if def.target in y.news {
        var i :| 0 <= i < k && i < |y.news| && y.news[i] == def.target;
        assert TableNames(plan)[i] == plan.tables[i].name;
        RankIs(plan, i);
      } else {
        assert !IsNew(plan, def.target);
      }
    }
  }

  /** Good names make a plan that the theorems are about. */
  lemma FollowsIsOk(plan: Plan, y: Layout)
    requires Good(y) && Follows(plan, y)
    ensures RoundTripOk(plan)
  {
    hide ContentsOk, PointsBack;
    NamesAreNew(plan);
    assert plan.links[0] in plan.links;
    forall spec | spec in plan.tables
      ensures ContentsOk(spec) && (forall r :: r in spec.repairs ==> IsRepair(r, spec.name))
      ensures forall o :: o in spec.contents ==> PointsBack(plan, spec.name, spec.contents[o])
      ensures forall r :: r in spec.repairs && r.RepairForeign? ==> PointsBack(plan, spec.name, ForeignOf(r.foreign))
    {
      var k :| 0 <= k < |plan.tables| && plan.tables[k] == spec;
      forall o | o in spec.contents ensures PointsBack(plan, spec.name, spec.contents[o]) { PointsBackAt(plan, y, k, spec.contents[o]); }
      forall r | r in spec.repairs && r.RepairForeign? ensures PointsBack(plan, spec.name, ForeignOf(r.foreign)) {
        PointsBackAt(plan, y, k, ForeignOf(r.foreign));
      }
    }
  }

  // ---------------------------------------------------------- the real names

  const NEW_TABLES: seq<Name> := [
    "contact_endpoints", "contact_permission_evidence", "contact_groups", "contact_group_memberships",
    "campaigns", "campaign_actions", "campaign_variants", "campaign_runs", "campaign_waves",
    "channel_sender_identities", "channel_delivery_profiles", "campaign_recipients",
    "channel_capacity_reservations", "contact_verification_requests", "operational_alerts"]

  const OLDER_TABLES: seq<Name> := [
    "projects", "messaging_users", "users", "workspaces", "messaging_templates", "send_logs", "contact_verification_jobs"]

  const STATES: Name := "contact_verification_states"
  const SETTINGS: Name := "project_verification_settings"
  const LINKED: seq<Name> := [
    STATES, "contact_verification_jobs", "contact_verification_items", "contact_verification_operations"]
  const LINK_KEY: Name := "fk_contact_verification_endpoint"

  const LEGACY: UniqueSpec := UniqueSpec("uq_contact_verify_state", STATES, ["project_id", "user_id", "verification_type"])

  const UNIQUES: seq<(Name, Name)> := [
    ("uq_projects_ws_id", "projects"), ("uq_msg_users_proj_id", "messaging_users"),
    ("uq_msg_templates_proj_id", "messaging_templates"), ("uq_send_logs_proj_id", "send_logs"),
    ("uq_verify_jobs_proj_id", "contact_verification_jobs"),
    ("uq_contact_endpoints_proj_id", "contact_endpoints"), ("uq_contact_groups_proj_id", "contact_groups"),
    ("uq_campaigns_proj_id", "campaigns"), ("uq_campaign_actions_proj_id", "campaign_actions"),
    ("uq_campaign_variants_proj_id", "campaign_variants"), ("uq_campaign_runs_proj_id", "campaign_runs"),
    ("uq_campaign_waves_proj_id", "campaign_waves"),
    ("uq_sender_identities_proj_id", "channel_sender_identities"),
    ("uq_delivery_profiles_proj_id", "channel_delivery_profiles")]

  const FOREIGNS: seq<(Name, Name, Name)> := [
    ("fk_endpoint_user_project", "contact_endpoints", "messaging_users"),
    ("fk_permission_user_project", "contact_permission_evidence", "messaging_users"),
    ("fk_permission_endpoint_project", "contact_permission_evidence", "contact_endpoints"),
    ("fk_group_member_group_project", "contact_group_memberships", "contact_groups"),
    ("fk_group_member_user_project", "contact_group_memberships", "messaging_users"),
    ("fk_campaign_action_campaign_project", "campaign_actions", "campaigns"),
    ("fk_campaign_variant_campaign_project", "campaign_variants", "campaigns"),
    ("fk_campaign_variant_action_project", "campaign_variants", "campaign_actions"),
    ("fk_campaign_variant_template_project", "campaign_variants", "messaging_templates"),
    ("fk_campaign_run_campaign_project", "campaign_runs", "campaigns"),
    ("fk_campaign_wave_run_project", "campaign_waves", "campaign_runs"),
    ("fk_delivery_profile_sender_project", "channel_delivery_profiles", "channel_sender_identities"),
    ("fk_campaign_recipient_run_project", "campaign_recipients", "campaign_runs"),
    ("fk_campaign_recipient_wave_project", "campaign_recipients", "campaign_waves"),
    ("fk_campaign_recipient_action_project", "campaign_recipients", "campaign_actions"),
    ("fk_campaign_recipient_variant_project", "campaign_recipients", "campaign_variants"),
    ("fk_campaign_recipient_user_project", "campaign_recipients", "messaging_users"),
    ("fk_campaign_recipient_endpoint_project", "campaign_recipients", "contact_endpoints"),
    ("fk_campaign_recipient_profile_project", "campaign_recipients", "channel_delivery_profiles"),
    ("fk_campaign_recipient_sender_project", "campaign_recipients", "channel_sender_identities"),
    ("fk_campaign_recipient_sendlog_project", "campaign_recipients", "send_logs"),
    ("fk_capacity_profile_project", "channel_capacity_reservations", "channel_delivery_profiles"),
    ("fk_capacity_run_project", "channel_capacity_reservations", "campaign_runs"),
    ("fk_capacity_wave_project", "channel_capacity_reservations", "campaign_waves"),
    ("fk_verify_request_user_project", "contact_verification_requests", "messaging_users"),
    ("fk_verify_request_endpoint_project", "contact_verification_requests", "contact_endpoints"),
    ("fk_verify_request_job_project", "contact_verification_requests", "contact_verification_jobs"),
    ("fk_verify_state_user_project", "contact_verification_states", "messaging_users"),
    ("fk_verify_state_endpoint_project", "contact_verification_states", "contact_endpoints"),
    ("fk_verify_job_endpoint_project", "contact_verification_jobs", "contact_endpoints"),
    ("fk_verify_item_job_project", "contact_verification_items", "contact_verification_jobs"),
    ("fk_verify_item_user_project", "contact_verification_items", "messaging_users"),
    ("fk_verify_item_endpoint_project", "contact_verification_items", "contact_endpoints"),
    ("fk_verify_operation_job_project", "contact_verification_operations", "contact_verification_jobs"),
    ("fk_verify_operation_endpoint_project", "contact_verification_operations", "contact_endpoints"),
    ("fk_operational_alert_project_workspace", "operational_alerts", "projects")]

  /** Revision 138's names. */
  function Layout138(): Layout { Layout(NEW_TABLES, OLDER_TABLES, LINKED, LINK_KEY, SETTINGS, LEGACY, UNIQUES, FOREIGNS) }

  /** A name's length and its first, second and ninth letters. */
  function Tag(n: Name): (int, char, char, char) {
    if |n| < 9 then (0, ' ', ' ', ' ') else (|n|, n[0], n[1], n[8])
  }

  const TAGS: seq<(int, char, char, char)> := [
    (17, 'c', 'o', 'e'), (27, 'c', 'o', 'p'), (14, 'c', 'o', 'g'), (25, 'c', 'o', 'g'), (9, 'c', 'a', 's'),
    (16, 'c', 'a', '_'), (17, 'c', 'a', '_'), (13, 'c', 'a', '_'), (14, 'c', 'a', '_'), (25, 'c', 'h', 's'),
    (25, 'c', 'h', 'd'), (19, 'c', 'a', '_'), (29, 'c', 'h', 'c'), (29, 'c', 'o', 'v'), (18, 'o', 'p', 'n')]

  lemma TagsMatch()
    ensures |NEW_TABLES| == |TAGS| && forall k :: 0 <= k < |NEW_TABLES| ==> Tag(NEW_TABLES[k]) == TAGS[k]
  {
  }

  lemma NewTablesDistinct()
    ensures Distinct(NEW_TABLES)
  {
    hide Tag, NEW_TABLES;
    TagsMatch();
    assert Distinct(TAGS);
  }

  /** A name whose tag no new table has is not a new table. */
  lemma NotNew(t: Name, tag: (int, char, char, char))
    requires Tag(t) == tag && tag !in TAGS
    ensures t !in NEW_TABLES
  {
    hide Tag, NEW_TABLES;
    TagsMatch();
  }

  lemma LinkedAreOld()
    ensures |LINKED| == 4 && LINKED[0] == LEGACY.table && forall t :: t in LINKED ==> t !in NEW_TABLES
  {
    hide NEW_TABLES;
    NotNew(LINKED[0], (27, 'c', 'o', 'v'));
    NotNew(LINKED[1], (25, 'c', 'o', 'v'));
    NotNew(LINKED[2], (26, 'c', 'o', 'v'));
    NotNew(LINKED[3], (31, 'c', 'o', 'v'));
  }

  lemma SettingsAreOld()
    ensures SETTINGS !in NEW_TABLES && SETTINGS != LEGACY.table && LINK_KEY != LEGACY.name
  {
    hide NEW_TABLES;
    NotNew(SETTINGS, (29, 'p', 'r', 'v'));
    assert |SETTINGS| != |STATES| && LINK_KEY[0] != LEGACY.name[0];
  }

  lemma OlderAreOld()
    ensures |OLDER_TABLES| == 7 && forall t :: t in OLDER_TABLES ==> t !in NEW_TABLES
  {
    hide NEW_TABLES;
    NotNew(OLDER_TABLES[0], (0, ' ', ' ', ' '));
    NotNew(OLDER_TABLES[1], (15, 'm', 'e', 'g'));
    NotNew(OLDER_TABLES[2], (0, ' ', ' ', ' '));
    NotNew(OLDER_TABLES[3], (10, 'w', 'o', 'e'));
    NotNew(OLDER_TABLES[4], (19, 'm', 'e', 'g'));
    NotNew(OLDER_TABLES[5], (9, 's', 'e', 's'));
    NotNew(OLDER_TABLES[6], (25, 'c', 'o', 'v'));
  }

  lemma LegacyLength()
    ensures |LEGACY.name| == 23 && LEGACY.name[0] == 'u'
  {
  }

  lemma UniquesAreOthers()
    ensures forall k :: 0 <= k < |UNIQUES| ==> UNIQUES[k].0 != LEGACY.name
  {
    hide LEGACY;
    LegacyLength();
    forall k | 0 <= k < |UNIQUES| ensures |UNIQUES[k].0| != 23 { }
  }

  lemma ForeignsAreOthers()
    ensures |FOREIGNS| == 36 && forall k :: 0 <= k < |FOREIGNS| ==> FOREIGNS[k].0 != LEGACY.name
  {
    hide LEGACY;
    LegacyLength();
    forall k | 0 <= k < |FOREIGNS| ensures |FOREIGNS[k].0| > 0 && FOREIGNS[k].0[0] == 'f' { }
  }

  lemma Layout138IsGood()
    ensures Good(Layout138())
  {
    hide NEW_TABLES, OLDER_TABLES, LINKED, UNIQUES, FOREIGNS, LEGACY, LINK_KEY, SETTINGS;
    TagsMatch();
    NewTablesDistinct();
    LinkedAreOld();
    SettingsAreOld();
    OlderAreOld();
    UniquesAreOthers();
    ForeignsAreOthers();
  }

  /** Retry, round trip and refusals, of any plan with revision 138's names. */
  lemma Revision138Theorems(plan: Plan, s0: Schema, keys: seq<RowKey>, cuts: seq<nat>)
    requires Follows(plan, Layout138()) && Base(plan, s0) && Run(s0, Upgrade(plan)).Ok?
    requires forall k :: k in cuts ==> k <= |Upgrade(plan)|
    ensures RunAttempts(s0, plan, cuts + [|Upgrade(plan)|]) == Run(s0, Upgrade(plan))
    ensures var r := Downgrade(plan, Run(s0, Upgrade(plan)).value, keys);
      (r == Ok(s0) <==> Restorable(plan, s0, keys)) && (r.Ok? <==> CanRestore(plan, s0, keys))
  {
    hide Good, Follows, Layout138, Base, Restorable, CanRestore, Downgrade;
    Layout138IsGood();
    FollowsIsOk(plan, Layout138());
    Retry(plan, s0, cuts);
    RoundTripIff(plan, s0, keys);
    DowngradeOkIff(plan, s0, keys);
  }
}
