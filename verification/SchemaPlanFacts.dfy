/** What revision 138 itself leaves: the unique indexes, the links and the switches
    by their own names. */
module SchemaPlanFacts {
  import opened Common
  import opened SchemaMigration
  import opened SchemaRoundTrip
  import opened SchemaNames
  import opened SchemaPlan
  import opened SchemaFacts

  lemma EndpointIndex(y: Layout)
    requires |y.news| == 15 && |y.olds| == 7
    ensures var t, i := ContactEndpoints(y), IndexSpec("uq_contact_endpoint_one_primary", ["project_id", "user_id", "endpoint_type"], true, "is_primary = true");
      t.name == y.news[0] && i in t.indexes && forall j :: j in t.indexes && j.name == i.name ==> j == i
  {
    var t := ContactEndpoints(y);
    assert |t.indexes| == 7 && t.indexes[6].name == "uq_contact_endpoint_one_primary";
    forall k | 0 <= k < 6 ensures t.indexes[k].name[0] == 'i' { }
  }

  lemma SenderIndex(y: Layout)
    requires |y.news| == 15 && |y.olds| == 7
    ensures var t, i := ChannelSenderIdentities(y), IndexSpec("uq_sender_identity_one_default", ["project_id", "channel"], true, "is_default = true");
      t.name == y.news[9] && i in t.indexes && forall j :: j in t.indexes && j.name == i.name ==> j == i
  {
    var t := ChannelSenderIdentities(y);
    assert |t.indexes| == 5 && t.indexes[4].name == "uq_sender_identity_one_default";
    forall k | 0 <= k < 4 ensures t.indexes[k].name[0] == 'i' { }
  }

  lemma TableAt(plan: Plan, y: Layout)
    requires Good(y) && IsOver(plan, y)
    ensures ContactEndpoints(y) in plan.tables && ChannelSenderIdentities(y) in plan.tables
  {
    hide ContactEndpoints, ContactPermissionEvidence, ContactGroups, ContactGroupMemberships, Campaigns;
    hide CampaignActions, CampaignVariants, CampaignRuns, CampaignWaves, ChannelSenderIdentities;
    hide ChannelDeliveryProfiles, CampaignRecipients, ChannelCapacityReservations, ContactVerificationRequests, OperationalAlerts;
    GoodSizes(y);
    assert plan.tables[0] == ContactEndpoints(y) && plan.tables[9] == ChannelSenderIdentities(y);
  }

  /** One primary endpoint per contact and kind, one default sender per channel:
      the two partial unique indexes on new tables. */
  lemma PrimaryIndexesAre(plan: Plan, s0: Schema)
    requires IsOver138(plan) && Run(s0, Upgrade(plan)).Ok?
    requires Obj(Index, "contact_endpoints", "uq_contact_endpoint_one_primary") !in s0
    requires Obj(Index, "channel_sender_identities", "uq_sender_identity_one_default") !in s0
    ensures var s1 := Run(s0, Upgrade(plan)).value;
      && var o := Obj(Index, "contact_endpoints", "uq_contact_endpoint_one_primary");
         o in s1 && s1[o] == Entry(IndexDef(["project_id", "user_id", "endpoint_type"], true, "is_primary = true"), Some("versya:alembic:138_campaign_data:owned"))
    ensures var s1 := Run(s0, Upgrade(plan)).value;
      && var o := Obj(Index, "channel_sender_identities", "uq_sender_identity_one_default");
         o in s1 && s1[o] == Entry(IndexDef(["project_id", "channel"], true, "is_default = true"), Some("versya:alembic:138_campaign_data:owned"))
  {
    hide Run, Upgrade, IsOver, ContactEndpoints, ChannelSenderIdentities, Good, RoundTripOk;
    var y := Layout138();
    GoodSizes(y);
    TableAt(plan, y);
    EndpointIndex(y);
    SenderIndex(y);
    PlanIsOk(plan);
    assert y.news[0] == "contact_endpoints" && y.news[9] == "channel_sender_identities";
    IndexIs(plan, s0, ContactEndpoints(y), IndexSpec("uq_contact_endpoint_one_primary", ["project_id", "user_id", "endpoint_type"], true, "is_primary = true"));
    IndexIs(plan, s0, ChannelSenderIdentities(y), IndexSpec("uq_sender_identity_one_default", ["project_id", "channel"], true, "is_default = true"));
  }

  /** The plan written out, over the revision's own names. */
  ghost predicate IsOver138(plan: Plan) { Good(Layout138()) && IsOver(plan, Layout138()) && RoundTripOk(plan) }

  /** There is one. */
  lemma PlanExists() returns (plan: Plan)
    ensures IsOver138(plan)
  {
    hide IsOver, Good, RoundTripOk, Layout138;
    plan := Revision138();
  }

  lemma PlanIsOk(plan: Plan)
    requires RoundTripOk(plan)
    ensures PlanOk(plan)
  {
  }

  lemma PartsAre(plan: Plan)
    requires IsOver138(plan)
    ensures plan.partials == [
      IndexSpec("uq_contact_verify_state_ep", ["project_id", "endpoint_id", "verification_type"], true, "endpoint_id IS NOT NULL"),
      IndexSpec("uq_contact_verify_state_legacy", ["project_id", "user_id", "verification_type"], true, "endpoint_id IS NULL")]
    ensures plan.legacy == UniqueSpec("uq_contact_verify_state", "contact_verification_states", ["project_id", "user_id", "verification_type"])
    ensures plan.settings == "project_verification_settings"
    ensures plan.switches == ["email_verify_on_first_seen", "email_recheck_enabled", "whatsapp_verify_on_first_seen", "whatsapp_recheck_enabled"]
    ensures plan.links == Links(Layout138())
  {
    hide AreTheTables, Good, RoundTripOk, Links, Uniques, Foreigns;
  }

  /** The two indexes that replace the legacy constraint of the states. */
  lemma StateIndexesAre(plan: Plan, s0: Schema)
    requires IsOver138(plan) && Run(s0, Upgrade(plan)).Ok? && TableIn(s0, "contact_verification_states")
    requires Obj(Index, "contact_verification_states", "uq_contact_verify_state_ep") !in s0
    requires Obj(Index, "contact_verification_states", "uq_contact_verify_state_legacy") !in s0
    ensures var s1 := Run(s0, Upgrade(plan)).value;
      && var o := Obj(Index, "contact_verification_states", "uq_contact_verify_state_ep");
         o in s1 && s1[o] == Entry(IndexDef(["project_id", "endpoint_id", "verification_type"], true, "endpoint_id IS NOT NULL"), Some("versya:alembic:138_campaign_data:owned"))
    ensures var s1 := Run(s0, Upgrade(plan)).value;
      && var o := Obj(Index, "contact_verification_states", "uq_contact_verify_state_legacy");
         o in s1 && s1[o] == Entry(IndexDef(["project_id", "user_id", "verification_type"], true, "endpoint_id IS NULL"), Some("versya:alembic:138_campaign_data:owned"))
    ensures var s1 := Run(s0, Upgrade(plan)).value; !UniqueIn(s1, "contact_verification_states", "uq_contact_verify_state")
  {
    hide Run, Upgrade, IsOver, Good, RoundTripOk, TableIn, UniqueIn, KeyIn, ColumnsIn, Shape;
    PartsAre(plan);
    PlanIsOk(plan);
    LinkIndexes(plan);
    var ep, legacy := plan.partials[0], plan.partials[1];
    assert |ep.name| != |legacy.name|;
    PartialIs(plan, s0, ep);
    PartialIs(plan, s0, legacy);
    AllThere(plan, s0);
  }

  lemma LinkIndexes(plan: Plan)
    requires plan.links == Links(Layout138())
    ensures forall l :: l in plan.links ==> l.index != "" && l.index[0] == 'i'
  {
    forall l | l in plan.links ensures l.index != "" && l.index[0] == 'i' {
      var k :| 0 <= k < |plan.links| && plan.links[k] == l;
    }
  }

  /** The four tables that are linked to endpoints. */
  function Linked(k: nat): Name {
    if k == 0 then "contact_verification_states"
    else if k == 1 then "contact_verification_jobs"
    else if k == 2 then "contact_verification_items"
    else "contact_verification_operations"
  }

  lemma LinkedAre(k: nat)
    requires k < 4
    ensures |LINKED| == 4 && LINKED[k] == Linked(k) && NEW_TABLES[0] == "contact_endpoints" && LINK_KEY == "fk_contact_verification_endpoint"
  {
  }

  lemma LinkedDiffer(j: nat, k: nat)
    requires j < 4 && k < 4 && Linked(j) == Linked(k)
    ensures j == k
  {
    assert |Linked(0)| == 27 && |Linked(1)| == 25 && |Linked(2)| == 26 && |Linked(3)| == 31;
  }

  lemma LinkAt(y: Layout, k: nat)
    requires y == Layout138() && k < 4
    ensures |y.news| > 0 && |Links(y)| == 4
    ensures var l := Links(y)[k]; l.table == Linked(k) && l.column == "endpoint_id" && l.fk == "fk_contact_verification_endpoint" && l.target == "contact_endpoints" && l.referred == ["id"]
  {
    hide LinkIndex, Linked, LINKED, NEW_TABLES, LINK_KEY;
    LinkedAre(k);
    TagsMatch();
  }

  lemma LinksPart(plan: Plan)
    requires IsOver138(plan)
    ensures plan.links == Links(Layout138())
  {
    hide Links, Uniques, Foreigns, AreTheTables, RoundTripOk, Layout138;
  }

  ghost predicate IsLink(l: LinkSpec, t: Name) {
    l.table == t && l.column == "endpoint_id" && l.fk == "fk_contact_verification_endpoint" && l.target == "contact_endpoints" && l.referred == ["id"]
  }

  ghost predicate FourLinks(links: seq<LinkSpec>) { |links| == 4 && forall k :: 0 <= k < 4 ==> IsLink(links[k], Linked(k)) }

  lemma LinksAreFour(y: Layout)
    requires y == Layout138()
    ensures |y.news| > 0 && FourLinks(Links(y))
  {
    hide Links, Linked, Layout138, IsLink;
    LinkAt(y, 0);
    forall k | 0 <= k < 4 ensures IsLink(Links(y)[k], Linked(k)) { LinkIs(y, k); }
  }

  lemma LinkIs(y: Layout, k: nat)
    requires y == Layout138() && k < 4
    ensures |y.news| > 0 && |Links(y)| == 4 && IsLink(Links(y)[k], Linked(k))
  {
    hide Links, Linked, Layout138;
    LinkAt(y, k);
  }

  lemma AllLinks(plan: Plan)
    requires IsOver138(plan)
    ensures FourLinks(plan.links)
  {
    hide IsOver138, FourLinks, Links, Layout138;
    LinksPart(plan);
    LinksAreFour(Layout138());
  }

  /** The link of one of them is the only one of its table. */
  lemma OneLink(links: seq<LinkSpec>, k: nat)
    requires FourLinks(links) && k < 4
    ensures links[k].table == Linked(k) && forall m :: m in links && m.table == Linked(k) ==> m == links[k]
  {
    hide Linked;
    forall m | m in links && m.table == Linked(k) ensures m == links[k] {
      var j :| 0 <= j < |links| && links[j] == m;
      assert IsLink(links[j], Linked(j));
      LinkedDiffer(j, k);
    }
  }

  /** Each of the four tables that had no endpoint column has a nullable one, with
      a foreign key to the endpoints, both marked. */
  lemma LinksAre(plan: Plan, s0: Schema, k: nat)
    requires IsOver138(plan) && Run(s0, Upgrade(plan)).Ok? && k < 4 && TableIn(s0, Linked(k)) && !ColumnIn(s0, Linked(k), "endpoint_id")
    ensures var s1, column, key := Run(s0, Upgrade(plan)).value, Obj(Column, Linked(k), "endpoint_id"), Obj(Constraint, Linked(k), "fk_contact_verification_endpoint");
      && column in s1 && s1[column] == Entry(ColumnDef("BIGINT NULL"), Some("versya:alembic:138_campaign_data:owned"))
      && key in s1 && s1[key] == Entry(ForeignDef(["endpoint_id"], "contact_endpoints", ["id"]), Some("versya:alembic:138_campaign_data:owned"))
  {
    hide Run, Upgrade, IsOver138, PlanOk, TableIn, ColumnIn, Linked;
    AllLinks(plan);
    assert IsLink(plan.links[k], Linked(k));
    OneLink(plan.links, k);
    PlanOf(plan);
    LinkKeyIs(plan, s0, plan.links[k]);
  }

  lemma PlanOf(plan: Plan)
    requires IsOver138(plan)
    ensures PlanOk(plan)
  {
    hide IsOver, Good;
  }

  /** The settings table has its four switches, off by default, and those that are
      new are marked. */
  lemma SwitchesAre(plan: Plan, s0: Schema, c: Name)
    requires IsOver138(plan) && Run(s0, Upgrade(plan)).Ok? && TableIn(s0, "project_verification_settings") && !ColumnIn(s0, "project_verification_settings", c)
    requires c in ["email_verify_on_first_seen", "email_recheck_enabled", "whatsapp_verify_on_first_seen", "whatsapp_recheck_enabled"]
    ensures var s1, o := Run(s0, Upgrade(plan)).value, Obj(Column, "project_verification_settings", c);
      o in s1 && s1[o] == Entry(ColumnDef("BOOLEAN NOT NULL DEFAULT false"), Some("versya:alembic:138_campaign_data:owned"))
  {
    hide Run, Upgrade, IsOver138, InOrder, AllOk, Due, KeyIn, UniqueIn, ColumnsIn, Shape, FourLinks;
    PartsAre(plan);
    PlanOf(plan);
    UpgradeInOrder(plan);
    EntryStays(s0, Upgrade(plan), Tab("project_verification_settings"));
    AllThere(plan, s0);
    OnlyDue(plan, s0, Obj(Column, plan.settings, c));
    AllLinks(plan);
    SettingsNotLinked(plan.links);
    DueSwitch(plan, c, Run(s0, Upgrade(plan)).value[Obj(Column, plan.settings, c)]);
  }

  lemma SettingsNotLinked(links: seq<LinkSpec>)
    requires FourLinks(links)
    ensures forall l :: l in links ==> l.table != "project_verification_settings"
  {
    hide Linked;
    forall l | l in links ensures l.table != "project_verification_settings" {
      var k :| 0 <= k < |links| && links[k] == l;
      assert IsLink(links[k], Linked(k));
      StartsWithC(k);
    }
  }

  lemma StartsWithC(k: nat)
    ensures Linked(k)[0] == 'c'
  {
  }

  lemma DueSwitch(plan: Plan, c: Name, e: Entry)
    requires PlanOk(plan) && Due(plan, Obj(Column, plan.settings, c), e) && forall l :: l in plan.links ==> l.table != plan.settings
    ensures e == Entry(ColumnDef("BOOLEAN NOT NULL DEFAULT false"), MARK)
  {
    var o := Obj(Column, plan.settings, c);
    assert !IsNew(plan, plan.settings);
    forall spec | spec in plan.tables ensures spec.name != plan.settings && ContentsOk(spec) && forall r :: r in spec.repairs ==> IsRepair(r, spec.name) { }
    assert !DueInTable(plan, o, e);
  }
}
