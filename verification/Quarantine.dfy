/** Migrations 129 and 130: duplicates are deactivated with no winner, each
    UPDATE reading one snapshot; and the report that predicts 130. */
module Quarantine {
  import opened Common

  // --------------------------------------------------------------- revision 129

  datatype Page = Page(id: int, project: int, page: string, ig: Option<string>, active: bool, status: string, error: Option<string>)

  const QUARANTINE_MSG: string := "Quarantined: page connected in multiple projects - reconnect in the owning project"

  function OnPage(page: string): Page -> bool { (r: Page) => r.active && r.page == page }

  function OnIg(ig: Option<string>): Page -> bool { (r: Page) => r.active && r.ig.Some? && r.ig == ig }

  predicate Conflicts(rows: seq<Page>, r: Page) {
    r.active && (|Where(rows, OnPage(r.page))| > 1 || (r.ig.Some? && |Where(rows, OnIg(r.ig))| > 1))
  }

  function Upgrade129(rows: seq<Page>): seq<Page> {
    seq(|rows|, k requires 0 <= k < |rows| =>
      if Conflicts(rows, rows[k]) then rows[k].(active := false, status := "quarantined", error := Some(QUARANTINE_MSG)) else rows[k])
  }

  /** Another active row has the same page, or the same non-null account. */
  predicate Contested(rows: seq<Page>, i: nat)
    requires i < |rows|
  {
    exists j :: 0 <= j < |rows| && j != i && rows[j].active
      && (rows[j].page == rows[i].page || (rows[i].ig.Some? && rows[j].ig == rows[i].ig))
  }

  /** Exactly the uncontested active rows stay active; every other row keeps
      all it has, or changes only to the quarantined state. */
  lemma StaysActiveIff(rows: seq<Page>, i: nat)
    requires i < |rows|
    ensures |Upgrade129(rows)| == |rows|
    ensures Upgrade129(rows)[i].active <==> rows[i].active && !Contested(rows, i)
    ensures Upgrade129(rows)[i].active == rows[i].active ==> Upgrade129(rows)[i] == rows[i]
  {
    var r := rows[i];
    if r.active {
      Shared(rows, OnPage(r.page), i);
      if r.ig.Some? { Shared(rows, OnIg(r.ig), i); }
    }
  }

  /** What the two partial unique indexes of 129 demand. */
  predicate ActivePagesUnique(rows: seq<Page>) {
    forall i, j :: 0 <= i < j < |rows| && rows[i].active && rows[j].active ==>
      rows[i].page != rows[j].page && (rows[i].ig.None? || rows[i].ig != rows[j].ig)
  }

  /** So the indexes can be created, and a second run changes nothing. */
  lemma IndexesHold129(rows: seq<Page>)
    ensures ActivePagesUnique(Upgrade129(rows)) && Upgrade129(Upgrade129(rows)) == Upgrade129(rows)
  {
    var rows' := Upgrade129(rows);
    forall i | 0 <= i < |rows| ensures rows'[i].active ==> !Contested(rows, i) { StaysActiveIff(rows, i); }
    assert forall i :: 0 <= i < |rows| && rows'[i].active ==> rows'[i] == rows[i];
    forall i | 0 <= i < |rows'| ensures Upgrade129(rows')[i] == rows'[i] { StaysActiveIff(rows', i); }
  }

  class Pages {
    var rows: seq<Page>

    constructor (rows: seq<Page>)
      ensures this.rows == rows
    {
      this.rows := rows;
    }

    /** The UPDATE of 129 and the rows it returns. */
    method Upgrade() returns (quarantined: seq<Page>)
      modifies this
      ensures rows == Upgrade129(old(rows)) && ActivePagesUnique(rows)
      ensures forall i :: 0 <= i < |rows| ==> (old(rows)[i] in quarantined <==> old(rows)[i].active && Contested(old(rows), i))
    {
      IndexesHold129(rows);
      forall i | 0 <= i < |rows| ensures Conflicts(rows, rows[i]) <==> rows[i].active && Contested(rows, i) {
        StaysActiveIff(rows, i);
      }
      var before := rows;
      quarantined := Where(before, (r: Page) => Conflicts(before, r));
      rows := Upgrade129(before);
    }
  }

  // --------------------------------------------------------------- revision 130

  datatype Instance = Instance(
    id: int, workspace: int, provider: string, project: Option<int>, active: bool, connection: string, phone: Option<string>)

  datatype ChannelLink = ChannelLink(id: int, channel: string, instance: int, handlerType: string, handler: int, created: int)

  datatype Project = Project(id: int, workspace: int, active: bool)

  /** The tables 130 only reads; a chatbot or a team may have no project. */
  datatype Context = Context(
    links: seq<ChannelLink>, chatbots: map<int, Option<int>>, teams: map<int, Option<int>>, projects: seq<Project>)

  const META: string := "meta_cloud_api"

  function Lookup(table: map<int, Option<int>>, id: int): Option<int> { if id in table then table[id] else None }

  /** COALESCE of the two left joins. */
  function LinkProject(c: Context, l: ChannelLink): Option<int> {
    var bot := if l.handlerType == "chatbot" then Lookup(c.chatbots, l.handler) else None;
    if bot.Some? then bot else if l.handlerType == "agent_team" then Lookup(c.teams, l.handler) else None
  }

  /** Newest first; ties, which both queries leave open, by descending id. */
  function Newest(l: ChannelLink): SortKey { (-l.created, -l.id, 0) }

  /** The project of the instance's newest whatsapp link, if it has one. */
  function HandlerProject(c: Context, instance: int): Option<int> {
    var links := OrderBy(Where(c.links, OfInstance(instance)), Newest);
    if links == [] then None else LinkProject(c, links[0])
  }

  function OfInstance(instance: int): ChannelLink -> bool { (l: ChannelLink) => l.channel == "whatsapp" && l.instance == instance }

  ghost predicate IsNewest(c: Context, instance: int, l: ChannelLink) {
    l in c.links && OfInstance(instance)(l) && forall k :: k in c.links && OfInstance(instance)(k) ==> k.created <= l.created
  }

  /** It is the project of a newest whatsapp link of the instance, even when
      that link has none and an older one has. */
  lemma HandlerIsNewest(c: Context, instance: int)
    ensures (forall l :: l in c.links ==> !OfInstance(instance)(l)) ==> HandlerProject(c, instance).None?
    ensures (exists l :: l in c.links && OfInstance(instance)(l)) ==>
      exists l :: IsNewest(c, instance, l) && HandlerProject(c, instance) == LinkProject(c, l)
  {
    hide OrderBy, LinkProject;
    var mine := OfInstance(instance);
    var kept := Where(c.links, mine);
    OrderByHead(kept, Newest);
    if kept != [] {
      var l := OrderBy(kept, Newest)[0];
      forall k | k in c.links && mine(k) ensures k.created <= l.created { assert Before(Newest(l), Newest(k)); }
      assert IsNewest(c, instance, l);
    } else {
      forall l | l in c.links ensures !mine(l) { assert l !in kept; }
    }
  }

  function ActiveProjects(c: Context, workspace: int): seq<Project> {
    Where(c.projects, (p: Project) => p.workspace == workspace && p.active)
  }

  /** MIN(id) of the active projects, used only when there is exactly one. */
  function OnlyProject(c: Context, workspace: int): Option<int> {
    var ps := ActiveProjects(c, workspace);
    if |ps| == 1 then Some(ps[0].id) else None
  }

  predicate Unresolved(r: Instance) { r.provider == META && r.project.None? }

  function FromHandler(c: Context, r: Instance): Instance {
    if Unresolved(r) then r.(project := HandlerProject(c, r.id)) else r
  }

  function FromWorkspace(c: Context, r: Instance): Instance {
    if Unresolved(r) then r.(project := OnlyProject(c, r.workspace)) else r
  }

  function Deactivated(r: Instance): Instance { r.(active := false, connection := "disconnected") }

  function QuarantineAmbiguous(r: Instance): Instance { if Unresolved(r) && r.active then Deactivated(r) else r }

  function Map(rows: seq<Instance>, f: Instance -> Instance): seq<Instance> {
    seq(|rows|, k requires 0 <= k < |rows| => f(rows[k]))
  }

  function Resolve(c: Context, r: Instance): Instance { QuarantineAmbiguous(FromWorkspace(c, FromHandler(c, r))) }

  function OnPhone(phone: Option<string>): Instance -> bool {
    (r: Instance) => r.provider == META && r.active && r.phone.Some? && r.phone == phone
  }

  predicate DuplicatePhone(rows: seq<Instance>, r: Instance) {
    r.provider == META && r.active && r.phone.Some? && |Where(rows, OnPhone(r.phone))| > 1
  }

  function QuarantinePhones(rows: seq<Instance>): seq<Instance> {
    Map(rows, (r: Instance) => if DuplicatePhone(rows, r) then Deactivated(r) else r)
  }

  /** The whole of 130; the fourth UPDATE runs on PostgreSQL only. */
  function Upgrade130(c: Context, rows: seq<Instance>, postgres: bool): seq<Instance> {
    var resolved := Map(rows, (r: Instance) => Resolve(c, r));
    if postgres then QuarantinePhones(resolved) else resolved
  }

  /** What the partial unique index of 130 demands. */
  predicate ActivePhonesUnique(rows: seq<Instance>) {
    forall i, j :: 0 <= i < j < |rows| && rows[i].provider == META && rows[i].active && rows[j].provider == META && rows[j].active ==>
      rows[i].phone.None? || rows[i].phone != rows[j].phone
  }

  /** Another active, resolved Meta instance has the same phone. */
  predicate PhoneContested(rows: seq<Instance>, i: nat)
    requires i < |rows|
  {
    rows[i].phone.Some? && exists j :: 0 <= j < |rows| && j != i && OnPhone(rows[i].phone)(rows[j])
  }

  lemma PhonesStayIff(rows: seq<Instance>, i: nat)
    requires i < |rows| && rows[i].provider == META
    ensures |QuarantinePhones(rows)| == |rows|
    ensures QuarantinePhones(rows)[i].active <==> rows[i].active && !PhoneContested(rows, i)
    ensures QuarantinePhones(rows)[i] == if rows[i].active && PhoneContested(rows, i) then Deactivated(rows[i]) else rows[i]
  {
    if rows[i].active && rows[i].phone.Some? { Shared(rows, OnPhone(rows[i].phone), i); }
  }

  /** After 130 every active Meta instance has a project, on PostgreSQL also a
      phone number of its own; instances of other providers, and projects that
      were set, are untouched. */
  lemma After130(c: Context, rows: seq<Instance>, postgres: bool)
    ensures var rows' := Upgrade130(c, rows, postgres);
      && |rows'| == |rows|
      && (forall i :: 0 <= i < |rows| && rows'[i].provider == META && rows'[i].active ==> rows'[i].project.Some?)
      && (postgres ==> ActivePhonesUnique(rows'))
      && (forall i :: 0 <= i < |rows| && rows[i].provider != META ==> rows'[i] == rows[i])
      && (forall i :: 0 <= i < |rows| && rows[i].project.Some? ==> rows'[i].project == rows[i].project)
  {
    var resolved := Map(rows, (r: Instance) => Resolve(c, r));
    var rows' := Upgrade130(c, rows, postgres);
    if postgres {
      forall i | 0 <= i < |rows| && resolved[i].provider == META
        ensures rows'[i].active ==> rows'[i] == resolved[i] && !PhoneContested(resolved, i)
      {
        PhonesStayIff(resolved, i);
      }
    }
  }

  /** Running it again changes nothing. */
  lemma Again130(c: Context, rows: seq<Instance>, postgres: bool)
    ensures Upgrade130(c, Upgrade130(c, rows, postgres), postgres) == Upgrade130(c, rows, postgres)
  {
    var rows' := Upgrade130(c, rows, postgres);
    After130(c, rows, postgres);
    ProjectFixed(c, rows, postgres);
    var again := Map(rows', (r: Instance) => Resolve(c, r));
    assert again == rows';
    if postgres {
      forall i | 0 <= i < |rows'| ensures QuarantinePhones(rows')[i] == rows'[i] {
        if rows'[i].provider == META { PhonesStayIff(rows', i); }
      }
    }
  }

  /** A Meta instance left without a project has no source of one. */
  lemma ProjectFixed(c: Context, rows: seq<Instance>, postgres: bool)
    ensures var rows' := Upgrade130(c, rows, postgres);
      forall i :: 0 <= i < |rows'| ==> Resolve(c, rows'[i]) == rows'[i]
  {
    hide HandlerProject, OnlyProject;
  }

  // ------------------------------------------------------------------ report

  datatype Verdict = HandlerLink(project: int) | SingleProject | Ambiguous(active: nat)

  /** One report row. */
  function Classify(c: Context, r: Instance): Verdict {
    var handler, n := HandlerProject(c, r.id), |ActiveProjects(c, r.workspace)|;
    if handler.Some? then HandlerLink(handler.value)
    else if n == 1 then SingleProject
    else Ambiguous(n)
  }

  function IsUnresolved(): Instance -> bool { (r: Instance) => Unresolved(r) }

  function ById(r: Instance): SortKey { (r.id, 0, 0) }

  /** The report's rows, in id order. */
  function Listed(rows: seq<Instance>): seq<Instance> { OrderBy(Where(rows, IsUnresolved()), ById) }

  function IsAmbiguous(c: Context): Instance -> bool { (r: Instance) => Classify(c, r).Ambiguous? }

  /** For every unresolved Meta instance the report names the project that the
      migration will set, and says ambiguous exactly for those that end without
      one and inactive. */
  lemma ReportPredicts(c: Context, rows: seq<Instance>, postgres: bool, i: nat)
    requires i < |rows| && Unresolved(rows[i])
    ensures var verdict, r' := Classify(c, rows[i]), Upgrade130(c, rows, postgres)[i];
      && (verdict.HandlerLink? ==> r'.project == Some(verdict.project))
      && (verdict.SingleProject? ==> r'.project == OnlyProject(c, rows[i].workspace) && r'.project.Some?)
      && (verdict.Ambiguous? <==> r'.project.None?)
      && (verdict.Ambiguous? ==> !r'.active)
  {
    hide HandlerProject;
  }

  lemma {:induction false} InsertCount<T>(x: T, rows: seq<T>, key: T -> SortKey, keep: T -> bool)
    ensures |Where(InsertBy(x, rows, key), keep)| == |Where(rows, keep)| + if keep(x) then 1 else 0
  {
    if rows != [] && !Before(key(x), key(rows[0])) {
      InsertCount(x, rows[1..], key, keep);
    } else {
      WhereAppend([x], rows, keep);
    }
  }

  /** Sorting keeps counts. */
  lemma {:induction false} OrderCount<T>(rows: seq<T>, key: T -> SortKey, keep: T -> bool)
    ensures |Where(OrderBy(rows, key), keep)| == |Where(rows, keep)|
  {
    if rows != [] {
      OrderCount(rows[1..], key, keep);
      InsertCount(rows[0], OrderBy(rows[1..], key), key, keep);
    }
  }

  lemma {:induction false} SameCount(c: Context, rows: seq<Instance>, rows': seq<Instance>)
    requires |rows'| == |rows|
    requires forall k :: 0 <= k < |rows| ==> (Unresolved(rows'[k]) <==> Unresolved(rows[k]) && IsAmbiguous(c)(rows[k]))
    ensures |Where(rows', IsUnresolved())| == |Where(Where(rows, IsUnresolved()), IsAmbiguous(c))|
  {
    if rows != [] {
      assert forall k :: 0 <= k < |rows[1..]| ==> rows[1..][k] == rows[k + 1] && rows'[1..][k] == rows'[k + 1];
      SameCount(c, rows[1..], rows'[1..]);
      var head := if Unresolved(rows[0]) then [rows[0]] else [];
      WhereAppend(head, Where(rows[1..], IsUnresolved()), IsAmbiguous(c));
    }
  }

  /** The report's total is the number of Meta instances the migration leaves
      without a project. */
  lemma ReportTotal(c: Context, rows: seq<Instance>, postgres: bool)
    ensures |Where(Listed(rows), IsAmbiguous(c))| == |Where(Upgrade130(c, rows, postgres), IsUnresolved())|
  {
    hide Classify, HandlerProject;
    var rows' := Upgrade130(c, rows, postgres);
    After130(c, rows, postgres);
    forall k | 0 <= k < |rows| ensures Unresolved(rows'[k]) <==> Unresolved(rows[k]) && IsAmbiguous(c)(rows[k]) {
      SameProvider(c, rows, postgres, k);
      if Unresolved(rows[k]) { ReportPredicts(c, rows, postgres, k); }
    }
    SameCount(c, rows, rows');
    OrderCount(Where(rows, IsUnresolved()), ById, IsAmbiguous(c));
  }

  lemma SameProvider(c: Context, rows: seq<Instance>, postgres: bool, k: nat)
    requires k < |rows|
    ensures |Upgrade130(c, rows, postgres)| == |rows| && Upgrade130(c, rows, postgres)[k].provider == rows[k].provider
  {
  }

  // ------------------------------------------ what the report's words promise

  /** No source of a project: the row that the third statement would take. */
  predicate Stranded(c: Context, r: Instance) { Unresolved(r) && Classify(c, r).Ambiguous? }

  /** Another active instance that keeps or gets a project has the same phone. */
  predicate SharesPhone(c: Context, rows: seq<Instance>, i: nat)
    requires i < |rows|
  {
    rows[i].phone.Some? && exists j :: 0 <= j < |rows| && j != i && rows[j].provider == META && rows[j].active && rows[j].phone == rows[i].phone && !Stranded(c, rows[j])
  }

  /** Resolution leaves provider, phone and, for all but the stranded, activity. */
  lemma Resolved(c: Context, r: Instance)
    ensures var r' := Resolve(c, r);
      && r'.provider == r.provider && r'.phone == r.phone
      && (r'.active <==> r.active && !Stranded(c, r))
      && (r'.project.None? <==> r.project.None? && (r.provider == META ==> Stranded(c, r)))
  {
    hide HandlerProject;
  }

  lemma SharesIsContested(c: Context, rows: seq<Instance>, i: nat)
    requires i < |rows| && rows[i].provider == META
    ensures var resolved := Map(rows, (r: Instance) => Resolve(c, r));
      PhoneContested(resolved, i) <==> SharesPhone(c, rows, i)
  {
    hide Stranded, Resolve;
    var resolved := Map(rows, (r: Instance) => Resolve(c, r));
    forall j | 0 <= j < |rows|
      ensures OnPhone(rows[i].phone)(resolved[j]) <==> rows[j].provider == META && rows[j].active && rows[j].phone.Some? && rows[j].phone == rows[i].phone && !Stranded(c, rows[j])
    {
      Resolved(c, rows[j]);
    }
    Resolved(c, rows[i]);
    assert resolved[i].phone == rows[i].phone;
  }

  /** Exactly the active Meta instances that end without a project, and on
      PostgreSQL those that share a phone with another that has one, are
      deactivated. */
  lemma DeactivatedIff(c: Context, rows: seq<Instance>, postgres: bool, i: nat)
    requires i < |rows|
    ensures |Upgrade130(c, rows, postgres)| == |rows|
    ensures rows[i].active && !Upgrade130(c, rows, postgres)[i].active
      <==> rows[i].active && rows[i].provider == META && (Stranded(c, rows[i]) || (postgres && SharesPhone(c, rows, i)))
  {
    hide Stranded, Resolve, SharesPhone, PhoneContested;
    var resolved := Map(rows, (r: Instance) => Resolve(c, r));
    Resolved(c, rows[i]);
    StrandedIsMeta(c, rows[i]);
    if rows[i].provider == META {
      SharesIsContested(c, rows, i);
      PhonesStayIff(resolved, i);
    }
  }

  lemma StrandedIsMeta(c: Context, r: Instance)
    ensures Stranded(c, r) ==> r.provider == META
  {
  }

  /** The printed WILL BE QUARANTINED is true of a row exactly when the row is
      active; the other verdicts stay silent about a row exactly when it shares
      a phone. */
  lemma PromiseKeptIff(c: Context, rows: seq<Instance>, i: nat)
    requires i < |rows| && Unresolved(rows[i])
    ensures var taken := rows[i].active && !Upgrade130(c, rows, true)[i].active;
      && (Classify(c, rows[i]).Ambiguous? ==> (taken <==> rows[i].active))
      && (!Classify(c, rows[i]).Ambiguous? ==> (taken <==> rows[i].active && SharesPhone(c, rows, i)))
  {
    hide Classify, SharesPhone, Upgrade130;
    DeactivatedIff(c, rows, true, i);
  }

  // ----------------------------------------------------- the report's numbers

  function IsStranded(c: Context): Instance -> bool { (r: Instance) => Stranded(c, r) }

  function ActiveStranded(c: Context): Instance -> bool { (r: Instance) => Stranded(c, r) && r.active }

  function IdleStranded(c: Context): Instance -> bool { (r: Instance) => Stranded(c, r) && !r.active }

  function AfterBackfill(c: Context, rows: seq<Instance>): seq<Instance> {
    Map(rows, (r: Instance) => FromWorkspace(c, FromHandler(c, r)))
  }

  /** The rows the third statement returns. */
  function TakenStranded(c: Context, rows: seq<Instance>): seq<Instance> {
    Where(AfterBackfill(c, rows), (r: Instance) => Unresolved(r) && r.active)
  }

  /** The rows the fourth statement returns. */
  function TakenPhones(c: Context, rows: seq<Instance>): seq<Instance> {
    var resolved := Map(rows, (r: Instance) => Resolve(c, r));
    Where(resolved, (r: Instance) => DuplicatePhone(resolved, r))
  }

  lemma {:induction false} SplitCount(c: Context, rows: seq<Instance>)
    ensures |Where(rows, IsStranded(c))| == |Where(rows, ActiveStranded(c))| + |Where(rows, IdleStranded(c))|
  {
    hide Stranded;
    if rows != [] { SplitCount(c, rows[1..]); }
  }

  lemma {:induction false} TakenCount(c: Context, rows: seq<Instance>)
    ensures |TakenStranded(c, rows)| == |Where(rows, ActiveStranded(c))|
  {
    hide HandlerProject;
    if rows != [] {
      assert AfterBackfill(c, rows)[1..] == AfterBackfill(c, rows[1..]);
      TakenCount(c, rows[1..]);
      BackfillLeaves(c, rows[0]);
    }
  }

  lemma BackfillLeaves(c: Context, r: Instance)
    ensures var r' := FromWorkspace(c, FromHandler(c, r)); r'.active == r.active && (Unresolved(r') <==> Stranded(c, r))
  {
    hide HandlerProject;
  }

  lemma ListedStranded(c: Context, rows: seq<Instance>)
    ensures |Where(Listed(rows), IsAmbiguous(c))| == |Where(rows, IsStranded(c))|
  {
    hide Classify;
    OrderCount(Where(rows, IsUnresolved()), ById, IsAmbiguous(c));
    WhereRefined(rows, IsUnresolved(), IsStranded(c), IsAmbiguous(c));
  }

  /** The report's total against what the migration takes: it counts the idle
      stranded rows, which are not touched, and not the phone duplicates, which
      are. So it is the number of quarantined rows if and only if there are as
      many of the one as of the other. */
  lemma ReportBalance(c: Context, rows: seq<Instance>)
    ensures var n, taken := |Where(Listed(rows), IsAmbiguous(c))|, |TakenStranded(c, rows)| + |TakenPhones(c, rows)|;
      n + |TakenPhones(c, rows)| == taken + |Where(rows, IdleStranded(c))|
      && (n == taken <==> |Where(rows, IdleStranded(c))| == |TakenPhones(c, rows)|)
  {
    ListedStranded(c, rows);
    SplitCount(c, rows);
    TakenCount(c, rows);
  }

  // ------------------------------------------------------------- the scripts

  class Instances {
    const context: Context
    var rows: seq<Instance>

    constructor (context: Context, rows: seq<Instance>)
      ensures this.context == context && this.rows == rows
    {
      this.context := context;
      this.rows := rows;
    }

    /** Four UPDATE statements, each over the previous one's result, and the
        rows that the two quarantining ones return. */
    method Upgrade(postgres: bool) returns (stranded: seq<Instance>, duplicates: seq<Instance>)
      modifies this
      ensures stranded == TakenStranded(context, old(rows))
      ensures duplicates == if postgres then TakenPhones(context, old(rows)) else []
      ensures rows == Upgrade130(context, old(rows), postgres)
      ensures forall i :: 0 <= i < |rows| && rows[i].provider == META && rows[i].active ==> rows[i].project.Some?
      ensures postgres ==> ActivePhonesUnique(rows)
    {
      ghost var before := rows;
      rows := Map(rows, (r: Instance) => FromHandler(context, r));
      rows := Map(rows, (r: Instance) => FromWorkspace(context, r));
      assert rows == AfterBackfill(context, before);
      stranded := Where(rows, (r: Instance) => Unresolved(r) && r.active);
      rows := Map(rows, (r: Instance) => QuarantineAmbiguous(r));
      assert rows == Map(before, (r: Instance) => Resolve(context, r));
      duplicates := [];
      if postgres {
        var resolved := rows;
        duplicates := Where(resolved, (r: Instance) => DuplicatePhone(resolved, r));
        rows := QuarantinePhones(resolved);
      }
      After130(context, before, postgres);
    }

    /** The dry run: one verdict per row, the total, and the exit status, which
        says whether the migration would leave any instance without a project. */
    method Report() returns (verdicts: seq<Verdict>, ambiguous: nat, status: int)
      ensures |verdicts| == |Listed(rows)|
      ensures forall k :: 0 <= k < |verdicts| ==> verdicts[k] == Classify(context, Listed(rows)[k])
      ensures forall postgres :: ambiguous == |Where(Upgrade130(context, rows, postgres), IsUnresolved())|
      ensures status == if ambiguous > 0 then 1 else 0
    {
      hide Classify, Upgrade130, Listed, Where;
      CountNone(IsAmbiguous(context));
      var listed := Listed(rows);
      verdicts, ambiguous := [], 0;
      for k := 0 to |listed|
        invariant |verdicts| == k && forall j :: 0 <= j < k ==> verdicts[j] == Classify(context, listed[j])
        invariant ambiguous == |Where(listed[..k], IsAmbiguous(context))|
      {
        CountNext(listed, k, IsAmbiguous(context));
        var verdict := Classify(context, listed[k]);
        if verdict.Ambiguous? {
          ambiguous := ambiguous + 1;
        }
        verdicts := verdicts + [verdict];
      }
      assert listed[..|listed|] == listed;
      forall postgres ensures ambiguous == |Where(Upgrade130(context, rows, postgres), IsUnresolved())| {
        ReportTotal(context, rows, postgres);
      }
      status := if ambiguous > 0 then 1 else 0;
    }
  }
}
