/** What migrations 129 and 130 and the report do to each row, in its columns. */
module QuarantineFacts {
  import opened Common
  import opened Quarantine

  // ------------------------------------------------------------------ pages

  /** Another active row has the page, or the account if there is one. */
  ghost predicate Elsewhere(rows: seq<Page>, i: nat)
    requires i < |rows|
  {
    exists j :: 0 <= j < |rows| && j != i && rows[j].active && SamePage(rows[i], rows[j])
  }

  ghost predicate SamePage(a: Page, b: Page) { a.page == b.page || (a.ig.Some? && b.ig == a.ig) }

  lemma PageIs(rows: seq<Page>, i: nat)
    requires i < |rows|
    ensures |Upgrade129(rows)| == |rows|
    ensures Upgrade129(rows)[i] == if rows[i].active && Elsewhere(rows, i)
      then rows[i].(active := false, status := "quarantined", error := Some("Quarantined: page connected in multiple projects - reconnect in the owning project"))
      else rows[i]
  {
    var r := rows[i];
    if r.active {
      Shared(rows, OnPage(r.page), i);
      if r.ig.Some? { Shared(rows, OnIg(r.ig), i); }
    }
    assert Elsewhere(rows, i) <==> Contested(rows, i);
  }

  /** So no two active rows share a page, or an account if there is one. */
  lemma PagesAreApart(rows: seq<Page>, i: nat, j: nat)
    requires i < j < |rows|
    ensures var after := Upgrade129(rows);
      |after| == |rows| && (after[i].active && after[j].active ==> after[i].page != after[j].page && (after[i].ig.Some? ==> after[i].ig != after[j].ig))
  {
    IndexesHold129(rows);
    PageIs(rows, i);
  }

  // ------------------------------------------------- where a project comes from

  /** The newest whatsapp link of the instance; of equally new ones the one with
      the highest id. */
  ghost predicate NewestLink(c: Context, instance: int, l: ChannelLink) {
    && l in c.links && l.channel == "whatsapp" && l.instance == instance
    && forall k :: k in c.links && k.channel == "whatsapp" && k.instance == instance ==> k.created < l.created || (k.created == l.created && k.id <= l.id)
  }

  /** The link's handler is a chatbot, or a team, of this project. */
  ghost predicate HandledIn(c: Context, l: ChannelLink, project: int) {
    || (l.handlerType == "chatbot" && l.handler in c.chatbots && c.chatbots[l.handler] == Some(project))
    || (l.handlerType == "agent_team" && l.handler in c.teams && c.teams[l.handler] == Some(project))
  }

  ghost predicate LinkedTo(c: Context, instance: int, project: int) {
    exists l :: NewestLink(c, instance, l) && HandledIn(c, l, project)
  }

  /** The one active project of the workspace. */
  ghost predicate Sole(c: Context, workspace: int, project: int) {
    exists i :: 0 <= i < |c.projects| && c.projects[i].id == project && Counts(c, workspace, i) && forall j :: Counts(c, workspace, j) ==> j == i
  }

  ghost predicate Counts(c: Context, workspace: int, i: int) {
    0 <= i < |c.projects| && c.projects[i].workspace == workspace && c.projects[i].active
  }

  ghost predicate LinkIds(c: Context) { forall k, l :: k in c.links && l in c.links && k.id == l.id ==> k == l }

  lemma LinkIs(c: Context, l: ChannelLink, project: int)
    ensures LinkProject(c, l) == Some(project) <==> HandledIn(c, l, project)
  {
  }

  lemma HandlerIs(c: Context, instance: int, project: int)
    requires LinkIds(c)
    ensures HandlerProject(c, instance) == Some(project) <==> LinkedTo(c, instance, project)
  {
    hide OrderBy, LinkProject, HandledIn;
    var mine := OfInstance(instance);
    var kept := Where(c.links, mine);
    OrderByHead(kept, Newest);
    if kept != [] {
      var l := OrderBy(kept, Newest)[0];
      forall k | k in c.links && mine(k) ensures k.created < l.created || (k.created == l.created && k.id <= l.id) { assert Before(Newest(l), Newest(k)); }
      assert NewestLink(c, instance, l);
      assert forall k :: NewestLink(c, instance, k) ==> mine(k) && mine(l) && k.id == l.id;
      LinkIs(c, l, project);
    } else {
      forall l | l in c.links ensures !mine(l) { assert l !in kept; }
    }
  }

  lemma OnlyIs(c: Context, workspace: int, project: int)
    ensures OnlyProject(c, workspace) == Some(project) <==> Sole(c, workspace, project)
    ensures OnlyProject(c, workspace).Some? <==> |ActiveProjects(c, workspace)| == 1
  {
    var keep := (p: Project) => p.workspace == workspace && p.active;
    var ps := Where(c.projects, keep);
    assert ActiveProjects(c, workspace) == ps;
    MoreThanOne(c.projects, keep);
    if |ps| == 1 {
      assert ps[0] in ps;
      var i :| 0 <= i < |c.projects| && c.projects[i] == ps[0];
      assert Counts(c, workspace, i);
      forall j | Counts(c, workspace, j) ensures j == i {
        assert keep(c.projects[i]) && keep(c.projects[j]);
        assert j < i || i < j || i == j;
      }
    }
    if Sole(c, workspace, project) {
      var i :| 0 <= i < |c.projects| && c.projects[i].id == project && Counts(c, workspace, i) && forall j :: Counts(c, workspace, j) ==> j == i;
      assert keep(c.projects[i]);
      forall a, b | 0 <= a < b < |c.projects| ensures !keep(c.projects[a]) || !keep(c.projects[b]) {
        assert Counts(c, workspace, a) && Counts(c, workspace, b) ==> a == b;
      }
      assert |ps| == 1;
      assert ps[0] in ps;
      var k :| 0 <= k < |c.projects| && c.projects[k] == ps[0];
      assert Counts(c, workspace, k);
    }
  }

  /** The project of an instance that has none: that of its newest link, else the
      only one of its workspace, else none. */
  ghost predicate Gets(c: Context, r: Instance, project: Option<int>) {
    forall p :: project == Some(p) <==> LinkedTo(c, r.id, p) || ((forall q :: !LinkedTo(c, r.id, q)) && Sole(c, r.workspace, p))
  }

  lemma ProjectIs(c: Context, r: Instance)
    requires LinkIds(c)
    ensures var project := Resolve(c, r).project;
      if r.provider == "meta_cloud_api" && r.project.None? then Gets(c, r, project) else project == r.project
  {
    hide HandlerProject, OnlyProject, LinkedTo, Sole, LinkIds;
    forall p ensures HandlerProject(c, r.id) == Some(p) <==> LinkedTo(c, r.id, p) { HandlerIs(c, r.id, p); }
    forall p ensures OnlyProject(c, r.workspace) == Some(p) <==> Sole(c, r.workspace, p) { OnlyIs(c, r.workspace, p); }
    if HandlerProject(c, r.id).Some? { assert LinkedTo(c, r.id, HandlerProject(c, r.id).value); }
  }

  // -------------------------------------------------------------- instances

  /** Another active Meta instance that ends with a project has the phone. */
  ghost predicate PhoneElsewhere(rows: seq<Instance>, after: seq<Instance>, i: nat)
    requires i < |rows| == |after|
  {
    rows[i].phone.Some? && exists j :: 0 <= j < |rows| && j != i && rows[j].provider == "meta_cloud_api" && rows[j].active && rows[j].phone == rows[i].phone && after[j].project.Some?
  }

  /** Of a Meta instance only project, activity and connection change. It gets a
      project as above; an active one is disconnected exactly if it ends without,
      or, on PostgreSQL, shares its phone with another that has one. */
  lemma InstanceIs(c: Context, rows: seq<Instance>, postgres: bool, i: nat)
    requires LinkIds(c) && i < |rows|
    ensures var after, r := Upgrade130(c, rows, postgres), rows[i];
      && |after| == |rows|
      && (r.provider != "meta_cloud_api" ==> after[i] == r)
      && (r.provider == "meta_cloud_api" ==>
            && (if r.project.None? then Gets(c, r, after[i].project) else after[i].project == r.project)
            && after[i] == if r.active && (after[i].project.None? || (postgres && PhoneElsewhere(rows, after, i)))
                 then r.(project := after[i].project, active := false, connection := "disconnected")
                 else r.(project := after[i].project))
  {
    hide Gets, LinkIds, Resolve, PhoneContested;
    var after, resolved := Upgrade130(c, rows, postgres), Map(rows, (r: Instance) => Resolve(c, r));
    forall j | 0 <= j < |rows| ensures resolved[j] == Resolve(c, rows[j]) && after[j].project == resolved[j].project { SameProject(c, rows, postgres, j); }
    ProjectIs(c, rows[i]);
    ResolvedIs(c, rows[i]);
    if rows[i].provider == "meta_cloud_api" {
      PhonesStayIff(resolved, i);
      ContestedIs(c, rows, after, i);
    }
  }

  /** So no two active Meta instances share a phone on PostgreSQL. */
  lemma PhonesAreApart(c: Context, rows: seq<Instance>, i: nat, j: nat)
    requires i < j < |rows|
    ensures var after := Upgrade130(c, rows, true);
      |after| == |rows| && (IsActiveMeta(after[i]) && IsActiveMeta(after[j]) ==> after[i].phone.None? || after[i].phone != after[j].phone)
  {
    After130(c, rows, true);
  }

  lemma SameProject(c: Context, rows: seq<Instance>, postgres: bool, j: nat)
    requires j < |rows|
    ensures Upgrade130(c, rows, postgres)[j].project == Resolve(c, rows[j]).project
    ensures rows[j].provider != "meta_cloud_api" ==> Upgrade130(c, rows, postgres)[j] == Resolve(c, rows[j])
  {
    hide Resolve;
    ResolvedIs(c, rows[j]);
  }

  lemma ResolvedIs(c: Context, r: Instance)
    ensures var r' := Resolve(c, r);
      && (r.provider != "meta_cloud_api" ==> r' == r)
      && (r.provider == "meta_cloud_api" ==> r' == if r.active && r'.project.None?
            then r.(project := r'.project, active := false, connection := "disconnected") else r.(project := r'.project))
  {
    hide HandlerProject, OnlyProject;
  }

  lemma ContestedIs(c: Context, rows: seq<Instance>, after: seq<Instance>, i: nat)
    requires i < |rows| == |after| && forall j :: 0 <= j < |rows| ==> after[j].project == Resolve(c, rows[j]).project
    ensures var resolved := Map(rows, (r: Instance) => Resolve(c, r)); PhoneContested(resolved, i) <==> PhoneElsewhere(rows, after, i)
  {
    hide Resolve;
    var resolved := Map(rows, (r: Instance) => Resolve(c, r));
    forall j | 0 <= j < |rows|
      ensures resolved[j].phone == rows[j].phone
      ensures OnPhone(rows[i].phone)(resolved[j]) <==> rows[j].provider == "meta_cloud_api" && rows[j].active && rows[j].phone.Some? && rows[j].phone == rows[i].phone && after[j].project.Some?
    {
      ResolvedIs(c, rows[j]);
    }
  }

  /** The rows that the third statement returns: the active Meta instances that
      end without a project. */
  lemma StrandedAre(c: Context, rows: seq<Instance>, x: Instance)
    ensures var after := Upgrade130(c, rows, true);
      |after| == |rows| && (x in TakenStranded(c, rows) <==> exists i :: 0 <= i < |rows| && x == rows[i] && IsActiveMeta(x) && after[i].project.None?)
  {
    hide Resolve, QuarantinePhones, FromHandler, FromWorkspace, Upgrade130, IsActiveMeta;
    var after, filled := Upgrade130(c, rows, true), AfterBackfill(c, rows);
    After130(c, rows, true);
    forall j | 0 <= j < |rows| ensures filled[j] == rows[j].(project := after[j].project) && (after[j].project.None? ==> filled[j] == rows[j]) {
      SameProject(c, rows, true, j);
      FilledIs(c, rows[j]);
    }
    forall r ensures Unresolved(r) && r.active <==> IsActiveMeta(r) && r.project.None? { ActiveMetaIs(r); }
    if x in TakenStranded(c, rows) {
      var i :| 0 <= i < |rows| && filled[i] == x;
      assert x == rows[i];
    }
    if i :| 0 <= i < |rows| && x == rows[i] && IsActiveMeta(x) && after[i].project.None? {
      assert filled[i] == x;
    }
  }

  ghost predicate IsActiveMeta(r: Instance) { r.provider == "meta_cloud_api" && r.active }

  lemma ActiveMetaIs(r: Instance)
    ensures Unresolved(r) && r.active <==> IsActiveMeta(r) && r.project.None?
  {
  }

  /** The rows that the fourth statement returns, with their projects: those that
      share a phone. */
  lemma SharersAre(c: Context, rows: seq<Instance>, x: Instance)
    ensures var after := Upgrade130(c, rows, true);
      |after| == |rows| && (x in TakenPhones(c, rows) <==>
        exists i :: 0 <= i < |rows| && x == rows[i].(project := after[i].project) && IsActiveMeta(x) && x.project.Some? && PhoneElsewhere(rows, after, i))
  {
    hide Resolve, PhoneElsewhere, PhoneContested, Upgrade130, DuplicatePhone, IsActiveMeta;
    var after, resolved := Upgrade130(c, rows, true), Map(rows, (r: Instance) => Resolve(c, r));
    After130(c, rows, true);
    forall j | 0 <= j < |rows| ensures after[j].project == resolved[j].project { SameProject(c, rows, true, j); }
    forall i | 0 <= i < |rows|
      ensures DuplicatePhone(resolved, resolved[i]) <==>
        rows[i].(project := after[i].project) == resolved[i] && IsActiveMeta(resolved[i]) && resolved[i].project.Some? && PhoneElsewhere(rows, after, i)
    {
      ContestedIs(c, rows, after, i);
      ResolvedFacts(c, rows[i]);
      DuplicateIs(resolved, i);
    }
    if x in TakenPhones(c, rows) {
      var i :| 0 <= i < |rows| && resolved[i] == x;
      assert DuplicatePhone(resolved, resolved[i]);
    }
    if i :| 0 <= i < |rows| && x == rows[i].(project := after[i].project) && IsActiveMeta(x) && x.project.Some? && PhoneElsewhere(rows, after, i) {
      ResolvedFacts(c, rows[i]);
      assert resolved[i] == x;
    }
  }

  lemma ResolvedFacts(c: Context, r: Instance)
    ensures var r' := Resolve(c, r);
      && (IsActiveMeta(r') ==> r'.project.Some? && r' == r.(project := r'.project))
      && (IsActiveMeta(r.(project := r'.project)) && r'.project.Some? ==> r' == r.(project := r'.project))
  {
    ResolvedIs(c, r);
  }

  lemma FilledIs(c: Context, r: Instance)
    ensures var r' := FromWorkspace(c, FromHandler(c, r));
      r' == r.(project := Resolve(c, r).project) && (r'.project.None? ==> r' == r)
  {
    hide HandlerProject, OnlyProject;
  }

  lemma DuplicateIs(rows: seq<Instance>, i: nat)
    requires i < |rows|
    ensures DuplicatePhone(rows, rows[i]) <==> IsActiveMeta(rows[i]) && PhoneContested(rows, i)
  {
    var r := rows[i];
    if r.provider == META && r.active && r.phone.Some? { Shared(rows, OnPhone(r.phone), i); }
  }

  // ------------------------------------------------------------------ report

  /** The verdict on an instance: its newest link's project; or that its workspace
      has one active project; or ambiguous, with the number of them. */
  lemma VerdictIs(c: Context, r: Instance)
    requires LinkIds(c)
    ensures forall p :: Classify(c, r) == HandlerLink(p) <==> LinkedTo(c, r.id, p)
    ensures Classify(c, r) == SingleProject <==> (forall p :: !LinkedTo(c, r.id, p)) && exists p :: Sole(c, r.workspace, p)
    ensures forall n :: Classify(c, r) == Ambiguous(n) ==> n == |Where(c.projects, (p: Project) => p.workspace == r.workspace && p.active)|
  {
    hide HandlerProject, LinkedTo, Sole, LinkIds;
    forall p ensures HandlerProject(c, r.id) == Some(p) <==> LinkedTo(c, r.id, p) { HandlerIs(c, r.id, p); }
    forall p ensures OnlyProject(c, r.workspace) == Some(p) <==> Sole(c, r.workspace, p) { OnlyIs(c, r.workspace, p); }
    OnlyIs(c, r.workspace, 0);
    if HandlerProject(c, r.id).Some? { assert LinkedTo(c, r.id, HandlerProject(c, r.id).value); }
  }

  /** The report lists the Meta instances without a project, by their ids, and its
      total is the number of those that the migration leaves so. */
  lemma ReportIs(c: Context, rows: seq<Instance>, postgres: bool)
    ensures forall r :: r in Listed(rows) <==> r in rows && r.provider == "meta_cloud_api" && r.project.None?
    ensures |Listed(rows)| == |Where(rows, (r: Instance) => r.provider == "meta_cloud_api" && r.project.None?)|
    ensures forall i, j :: 0 <= i < j < |Listed(rows)| ==> Listed(rows)[i].id <= Listed(rows)[j].id
    ensures |Where(Listed(rows), IsAmbiguous(c))| == |Where(Upgrade130(c, rows, postgres), (r: Instance) => r.provider == "meta_cloud_api" && r.project.None?)|
  {
    hide Upgrade130, Classify;
    var missing := (r: Instance) => r.provider == "meta_cloud_api" && r.project.None?;
    var kept := Where(rows, IsUnresolved());
    WhereExt(rows, IsUnresolved(), missing);
    WhereExt(Upgrade130(c, rows, postgres), IsUnresolved(), missing);
    ReportTotal(c, rows, postgres);
    OrderByMembers(kept, ById);
    OrderBySorted(kept, ById);
    assert |Listed(rows)| == |multiset(Listed(rows))| == |multiset(kept)| == |kept|;
    forall i, j | 0 <= i < j < |Listed(rows)| ensures Listed(rows)[i].id <= Listed(rows)[j].id {
      assert Before(ById(Listed(rows)[i]), ById(Listed(rows)[j]));
    }
  }
}
