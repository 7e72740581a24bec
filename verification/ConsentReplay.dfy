/** What applying a consent plan achieves: a refusal is final, a second run at
    the same clock plans nothing, and the readiness report never shrinks. */
module ConsentReplay {
  import opened Common
  import opened ConsentPlan

  // ------------------------------------------------------------ apply phase

  function NewEvidence(q: Request, e: Endpoint, id: int): Evidence {
    Evidence(id, q.project, e.user, Some(e.id), "email", "marketing", "granted", Some(Reference(q, e)), q.now, None)
  }

  function AddEvidence(table: seq<Evidence>, q: Request, planned: seq<Endpoint>, nextId: int): seq<Evidence> {
    if planned == [] then table
    else AddEvidence(table, q, Front(planned), nextId) + [NewEvidence(q, Last(planned), nextId + |planned| - 1)]
  }

  function Refresh(u: User, now: int): User {
    u.(cache := u.cache.(emailGrantedAt := Some(now), marketing := true, version := "legacy-subscriber-v1"))
  }

  function RefreshUsers(table: seq<User>, eligible: seq<User>, now: int): seq<User> {
    seq(|table|, k requires 0 <= k < |table| => if table[k] in eligible then Refresh(table[k], now) else table[k])
  }

  /** The consent tables of one database, with the next evidence id. */
  datatype Store = Store(t: Tables, nextId: int) {
    ghost predicate Valid() {
      && (forall x, y :: x in t.users && y in t.users && x.id == y.id ==> x == y)
      && (forall x, y :: x in t.endpoints && y in t.endpoints && x.id == y.id ==> x == y)
      && (forall x, y :: x in t.evidence && y in t.evidence && x.id == y.id ==> x == y)
      && (forall x :: x in t.evidence ==> x.id < nextId)
    }

    function Users(q: Request): seq<User> { SelectUsers(t.users, q.project) }

    function Plan(q: Request): seq<Endpoint> { Planned(q, t, Users(q)) }

    function Apply(q: Request): Store {
      Store(
        Tables(RefreshUsers(t.users, EligibleUsers(q, t, Users(q)), q.now), t.endpoints,
               AddEvidence(t.evidence, q, Plan(q), nextId)),
        nextId + |Plan(q)|)
    }
  }

  // ------------------------------------------------------- newest-first lists

  ghost predicate NewestFirst(evidence: seq<Evidence>) {
    && SortedBy(evidence, EvidenceOrder)
    && forall x, y :: x in evidence && y in evidence ==> x.user == y.user
  }

  lemma {:induction false} HavingSorted<T>(rows: seq<T>, order: T -> SortKey, key: T -> int, k: int)
    requires SortedBy(rows, order)
    ensures SortedBy(Having(rows, key, k), order)
  {
    if rows != [] {
      HavingSorted(rows[1..], order, key, k);
      forall x | x in rows[1..] ensures Before(order(rows[0]), order(x)) {
        var i :| 1 <= i < |rows| && rows[i] == x;
      }
    }
  }

  /** A contact's evidence: exactly its selected rows, newest first. */
  lemma EvidenceOfIs(q: Request, table: seq<Evidence>, user: int)
    ensures NewestFirst(ContactEvidence(q, table, user))
    ensures forall v :: v in ContactEvidence(q, table, user) <==> v in table && SelectsEvidence(v, q.project) && v.user == user
  {
    var kept := Where(table, (v: Evidence) => SelectsEvidence(v, q.project));
    OrderBySorted(kept, EvidenceOrder);
    OrderByMembers(kept, EvidenceOrder);
    HavingSorted(SelectEvidence(table, q.project), EvidenceOrder, OwnerOfEvidence, user);
  }

  lemma EndpointsOfIs(q: Request, table: seq<Endpoint>, user: int)
    ensures forall e :: e in ContactEndpoints(q, table, user) <==> e in table && SelectsEndpoint(e, q.project) && e.user == user
  {
    OrderByMembers(Where(table, (e: Endpoint) => SelectsEndpoint(e, q.project)), (e: Endpoint) => (e.user, e.id, 0));
  }

  /** No row that passes the test is newer than the first one found. */
  lemma {:induction false} FirstIsNewest(evidence: seq<Evidence>, test: Evidence -> bool, x: Evidence)
    requires NewestFirst(evidence) && x in evidence && test(x)
    ensures First(evidence, test).Some? && Before(EvidenceOrder(First(evidence, test).value), EvidenceOrder(x))
  {
    if test(evidence[0]) {
      var k :| 0 <= k < |evidence| && evidence[k] == x;
    } else {
      assert x in evidence[1..];
      FirstIsNewest(evidence[1..], test, x);
    }
  }

  ghost predicate KeyedEvidence(a: seq<Evidence>) {
    forall x, y :: x in a && y in a && x.id == y.id ==> x == y
  }

  /** The newest passing row depends only on which rows pass. */
  lemma FirstSame(a: seq<Evidence>, b: seq<Evidence>, test: Evidence -> bool)
    requires NewestFirst(a) && NewestFirst(b) && KeyedEvidence(b) && forall x :: x in a ==> x in b
    requires forall x :: x in b && test(x) ==> x in a
    ensures First(a, test) == First(b, test)
  {
    var r := First(b, test);
    if r.Some? {
      FirstIsNewest(a, test, r.value);
      FirstIsNewest(b, test, First(a, test).value);
    }
  }

  // ------------------------------------------------------------- refusals

  /** A denial or withdrawal for this endpoint, or for none in particular, that no
      such evidence is newer than. */
  ghost predicate StandingRefusal(v: Evidence, e: Endpoint, evidence: seq<Evidence>) {
    && v in evidence && (v.endpoint == None || v.endpoint == Some(e.id)) && (v.status == "denied" || v.status == "withdrawn")
    && forall x :: x in evidence && (x.endpoint == None || x.endpoint == Some(e.id)) ==>
         x == v || x.capturedAt < v.capturedAt || (x.capturedAt == v.capturedAt && x.id < v.id)
  }

  lemma {:induction false} PlannedMembers(q: Request, t: Tables, users: seq<User>)
    ensures forall e :: e in Planned(q, t, users) <==> exists u :: u in users && e in t.Gains(q, u)
  {
    if users != [] {
      PlannedMembers(q, t, Front(users));
      assert forall u :: u in users <==> u in Front(users) || u == Last(users);
    }
  }

  lemma GainsAreOwn(t: Tables, q: Request, u: User)
    ensures forall e :: e in t.Gains(q, u) ==> e in t.endpoints && e.user == u.id
  {
    EndpointsOfIs(q, t.endpoints, u.id);
    assert forall e :: e in t.Gains(q, u) ==> e in t.EndpointsOf(q, u);
  }

  /** The planned endpoints of a contact are what the plan gives that contact. */
  lemma PlannedForUser(s: Store, q: Request, u: User)
    requires s.Valid() && u in s.Users(q)
    ensures forall e :: e in s.t.Gains(q, u) <==> e in s.Plan(q) && e.user == u.id
  {
    PlannedMembers(q, s.t, s.Users(q));
    forall x | x in s.Users(q) ensures forall e :: e in s.t.Gains(q, x) ==> e.user == x.id {
      GainsAreOwn(s.t, q, x);
    }
  }

  lemma StandingBlocks(q: Request, e: Endpoint, v: Evidence, evidence: seq<Evidence>, user: int)
    requires NewestFirst(evidence) && StandingRefusal(v, e, evidence) && forall x :: x in evidence ==> x.user == user
    ensures Judge(q, e, evidence).Blocked?
  {
    FirstIsNewest(evidence, (x: Evidence) => Applies(x, e), v);
  }

  lemma BlockedGainsNothing(t: Tables, q: Request, u: User, e: Endpoint)
    requires e in t.EndpointsOf(q, u) && Judge(q, e, t.EvidenceOf(q, u)).Blocked?
    ensures !t.Outcome(q, u).Eligible? && t.Gains(q, u) == []
  {
    hide Judge, Having;
  }

  /** One refused endpoint keeps the contact out of the whole plan: not one
      planned row is for an endpoint of that contact. */
  lemma RefusalBlocksContact(s: Store, q: Request, u: User, e: Endpoint, v: Evidence)
    requires s.Valid() && u in s.Users(q)
    requires e in s.t.EndpointsOf(q, u) && StandingRefusal(v, e, s.t.EvidenceOf(q, u))
    ensures !s.t.Outcome(q, u).Eligible? && s.t.Gains(q, u) == []
    ensures forall x :: x in s.Plan(q) ==> x.user != u.id
  {
    hide Planned, SelectUsers, Having, Judge, StandingRefusal, NewestFirst, GainsOf, OutcomeOf;
    EvidenceOfIs(q, s.t.evidence, u.id);
    StandingBlocks(q, e, v, s.t.EvidenceOf(q, u), u.id);
    BlockedGainsNothing(s.t, q, u, e);
    PlannedForUser(s, q, u);
  }

  // ----------------------------------------------------------------- replay

  predicate Grants(q: Request, v: Evidence, e: Endpoint) {
    v == NewEvidence(q, e, v.id)
  }

  /** Where the rows of the grown table come from. */
  lemma {:induction false} AddedFrom(table: seq<Evidence>, q: Request, planned: seq<Endpoint>, nextId: int, v: Evidence)
    ensures v in table ==> v in AddEvidence(table, q, planned, nextId)
    ensures v in AddEvidence(table, q, planned, nextId) ==> v in table || exists e :: e in planned && Grants(q, v, e)
  {
    if planned != [] {
      AddedFrom(table, q, Front(planned), nextId, v);
      if v == NewEvidence(q, Last(planned), nextId + |planned| - 1) {
        assert Last(planned) in planned && Grants(q, v, Last(planned));
      }
    }
  }

  /** Every planned endpoint gets its grant. */
  lemma {:induction false} AddedFor(table: seq<Evidence>, q: Request, planned: seq<Endpoint>, nextId: int, e: Endpoint)
    returns (v: Evidence)
    requires e in planned
    ensures v in AddEvidence(table, q, planned, nextId) && Grants(q, v, e)
  {
    if e == Last(planned) {
      v := NewEvidence(q, e, nextId + |planned| - 1);
    } else {
      v := AddedFor(table, q, Front(planned), nextId, e);
    }
  }

  lemma {:induction false} AddedKeyed(table: seq<Evidence>, q: Request, planned: seq<Endpoint>, nextId: int)
    requires KeyedEvidence(table) && forall v :: v in table ==> v.id < nextId
    ensures KeyedEvidence(AddEvidence(table, q, planned, nextId))
    ensures forall v :: v in AddEvidence(table, q, planned, nextId) ==> v.id < nextId + |planned|
  {
    if planned != [] { AddedKeyed(table, q, Front(planned), nextId); }
  }

  /** A contact's evidence grows by exactly one grant for each gained endpoint. */
  ghost predicate Grown(q: Request, gains: seq<Endpoint>, old_: seq<Evidence>, new_: seq<Evidence>) {
    && NewestFirst(old_) && NewestFirst(new_) && KeyedEvidence(new_)
    && (forall v :: v in old_ ==> v in new_)
    && (forall v :: v in new_ ==> v in old_ || exists e :: e in gains && Grants(q, v, e))
    && (forall e :: e in gains ==> exists v :: v in new_ && Grants(q, v, e))
  }

  lemma EvidenceAfter(q: Request, table: seq<Evidence>, planned: seq<Endpoint>, nextId: int, user: int, gains: seq<Endpoint>)
    requires KeyedEvidence(table) && forall v :: v in table ==> v.id < nextId
    requires forall e :: e in gains <==> e in planned && e.user == user
    ensures Grown(q, gains, ContactEvidence(q, table, user), ContactEvidence(q, AddEvidence(table, q, planned, nextId), user))
  {
    var table' := AddEvidence(table, q, planned, nextId);
    EvidenceOfIs(q, table, user);
    EvidenceOfIs(q, table', user);
    AddedKeyed(table, q, planned, nextId);
    var ev, ev' := ContactEvidence(q, table, user), ContactEvidence(q, table', user);
    forall v | v in ev ensures v in ev' {
      AddedFrom(table, q, planned, nextId, v);
    }
    forall v | v in ev' && v !in ev ensures exists e :: e in gains && Grants(q, v, e) {
      AddedFrom(table, q, planned, nextId, v);
      var e :| e in planned && Grants(q, v, e);
      assert e in gains;
    }
    forall e | e in gains ensures exists v :: v in ev' && Grants(q, v, e) {
      var v := AddedFor(table, q, planned, nextId, e);
    }
  }

  lemma ReferenceInjective(q: Request, a: Endpoint, b: Endpoint)
    requires Reference(q, a) == Reference(q, b)
    ensures a.id == b.id
  {
    var prefix := "admin-attestation:" + Decimal(q.project) + ":" + q.digest + ":";
    assert Reference(q, a)[|prefix|..] == Decimal(a.id) && Reference(q, b)[|prefix|..] == Decimal(b.id);
    DecimalInjective(a.id, b.id);
  }

  /** Grants refuse nothing, so they cannot hide or create a newest refusal. */
  lemma LatestAfter(q: Request, gains: seq<Endpoint>, ev: seq<Evidence>, ev': seq<Evidence>, e: Endpoint)
    requires Grown(q, gains, ev, ev')
    requires var latest := First(ev, (v: Evidence) => Applies(v, e)); latest.None? || !Refuses(latest.value)
    ensures var latest := First(ev', (v: Evidence) => Applies(v, e)); latest.None? || !Refuses(latest.value)
  {
    var test := (v: Evidence) => Applies(v, e);
    var latest := First(ev', test);
    if latest.Some? && Refuses(latest.value) {
      assert latest.value in ev;
      FirstIsNewest(ev, test, latest.value);
      FirstIsNewest(ev', test, First(ev, test).value);
    }
  }

  /** New evidence never carries the reference of an endpoint it is not for. */
  lemma ReferenceAfter(q: Request, gains: seq<Endpoint>, ev: seq<Evidence>, ev': seq<Evidence>, e: Endpoint)
    requires Grown(q, gains, ev, ev')
    requires forall g :: g in gains ==> g.id != e.id
    ensures First(ev, (v: Evidence) => v.ref == Some(Reference(q, e))) == First(ev', (v: Evidence) => v.ref == Some(Reference(q, e)))
  {
    forall v | v in ev' && v.ref == Some(Reference(q, e)) ensures v in ev {
      if v !in ev {
        var g :| g in gains && Grants(q, v, g);
        ReferenceInjective(q, e, g);
      }
    }
    FirstSame(ev, ev', (v: Evidence) => v.ref == Some(Reference(q, e)));
  }

  /** One endpoint judged again after apply: refusals stand, and everything
      the first run attested or found evidenced is evidenced. */
  lemma JudgedAgain(q: Request, gains: seq<Endpoint>, ev: seq<Evidence>, ev': seq<Evidence>, e: Endpoint)
    requires Grown(q, gains, ev, ev')
    requires forall g :: g in gains && g.id == e.id ==> g == e
    requires e in gains <==> Judge(q, e, ev).Attest?
    ensures !Judge(q, e, ev).Blocked? ==> Judge(q, e, ev').Evidenced?
  {
    if !Judge(q, e, ev).Blocked? {
      LatestAfter(q, gains, ev, ev', e);
      if e in gains {
        var v :| v in ev' && Grants(q, v, e);
        assert Active(v, e, q.now);
      } else {
        ReferenceAfter(q, gains, ev, ev', e);
      }
    }
  }

  /** A contact that gains nothing is judged as before. */
  lemma JudgedSame(q: Request, ev: seq<Evidence>, ev': seq<Evidence>, e: Endpoint)
    requires Grown(q, [], ev, ev')
    ensures Judge(q, e, ev') == Judge(q, e, ev)
  {
    FirstSame(ev, ev', (v: Evidence) => Applies(v, e));
    FirstSame(ev, ev', (v: Evidence) => v.ref == Some(Reference(q, e)));
  }

  /** The second run excludes whom the first excluded and gives nobody more. */
  lemma OutcomeOfAgain(q: Request, u: User, u': User, endpoints: seq<Endpoint>, ev: seq<Evidence>, ev': seq<Evidence>)
    requires u' == u || u' == Refresh(u, q.now)
    requires Grown(q, GainsOf(q, u, endpoints, ev), ev, ev')
    requires forall e, g :: e in endpoints && g in endpoints && g.id == e.id ==> g == e
    ensures OutcomeOf(q, u', endpoints, ev') == OutcomeOf(q, u, endpoints, ev)
    ensures GainsOf(q, u', endpoints, ev') == []
  {
    if OutcomeOf(q, u, endpoints, ev).Eligible? {
      forall e | e in endpoints ensures Judge(q, e, ev').Evidenced? {
        assert !Judge(q, e, ev).Blocked?;
        JudgedAgain(q, Attested(q, endpoints, ev), ev, ev', e);
      }
      NoneAttested(q, endpoints, ev');
    } else {
      forall e | e in endpoints ensures Judge(q, e, ev') == Judge(q, e, ev) {
        JudgedSame(q, ev, ev', e);
      }
    }
  }

  lemma {:induction false} NoneAttested(q: Request, endpoints: seq<Endpoint>, evidence: seq<Evidence>)
    requires forall e :: e in endpoints ==> !Judge(q, e, evidence).Attest?
    ensures Attested(q, endpoints, evidence) == []
  {
    if endpoints != [] { NoneAttested(q, endpoints[1..], evidence); }
  }

  /** The row that the apply phase leaves for a contact. */
  function Refreshed(s: Store, q: Request, u: User): User {
    if u in EligibleUsers(q, s.t, s.Users(q)) then Refresh(u, q.now) else u
  }

  lemma OutcomeAgain(s: Store, q: Request, u: User)
    requires s.Valid() && u in s.Users(q)
    ensures s.Apply(q).t.Outcome(q, Refreshed(s, q, u)) == s.t.Outcome(q, u)
    ensures s.Apply(q).t.Gains(q, Refreshed(s, q, u)) == []
  {
    PlannedForUser(s, q, u);
    EvidenceAfter(q, s.t.evidence, s.Plan(q), s.nextId, u.id, s.t.Gains(q, u));
    EndpointsOfIs(q, s.t.endpoints, u.id);
    OutcomeOfAgain(q, u, Refreshed(s, q, u), s.t.EndpointsOf(q, u), s.t.EvidenceOf(q, u), s.Apply(q).t.EvidenceOf(q, u));
  }

  lemma UsersAfter(s: Store, q: Request, u': User)
    requires s.Valid() && u' in s.Apply(q).t.users
    ensures exists u :: u in s.t.users && u' == Refreshed(s, q, u) && u'.id == u.id
  {
    var k :| 0 <= k < |s.Apply(q).t.users| && s.Apply(q).t.users[k] == u';
    assert u' == Refreshed(s, q, s.t.users[k]);
  }

  lemma ApplyKeepsValid(s: Store, q: Request)
    requires s.Valid()
    ensures s.Apply(q).Valid()
  {
    AddedKeyed(s.t.evidence, q, s.Plan(q), s.nextId);
    forall u' | u' in s.Apply(q).t.users ensures exists u :: u in s.t.users && u' == Refreshed(s, q, u) && u'.id == u.id {
      UsersAfter(s, q, u');
    }
  }

  /** Replay: applying and planning again at the same clock plans nothing and
      leaves every consent table as it is. */
  lemma ConsentReplay(s: Store, q: Request)
    requires s.Valid()
    ensures s.Apply(q).Plan(q) == []
    ensures s.Apply(q).Apply(q) == s.Apply(q)
  {
    hide OutcomeOf, GainsOf, AddEvidence, RefreshUsers, Planned, SelectUsers, EligibleUsers;
    var s' := s.Apply(q);
    forall u' | u' in s'.Users(q) ensures s'.t.Gains(q, u') == [] { ContactAgain(s, q, u'); }
    NothingPlanned(q, s'.t, s'.Users(q));
    NothingAdded(s'.t.evidence, q, s'.nextId);
    RefreshedAlready(s, q);
  }

  lemma NothingAdded(table: seq<Evidence>, q: Request, nextId: int)
    ensures AddEvidence(table, q, [], nextId) == table
  {
  }

  /** After apply a contact gains nothing, and its caches are up to date. */
  lemma ContactAgain(s: Store, q: Request, u': User)
    requires s.Valid() && u' in s.Apply(q).Users(q)
    ensures s.Apply(q).t.Gains(q, u') == []
    ensures s.Apply(q).t.Outcome(q, u').Eligible? ==> Refresh(u', q.now) == u'
  {
    hide OutcomeOf, GainsOf, AddEvidence;
    UsersAfter(s, q, u');
    var u :| u in s.t.users && u' == Refreshed(s, q, u) && u'.id == u.id;
    OutcomeAgain(s, q, u);
  }

  lemma RefreshedAlready(s: Store, q: Request)
    requires s.Valid()
    ensures var s' := s.Apply(q); RefreshUsers(s'.t.users, EligibleUsers(q, s'.t, s'.Users(q)), q.now) == s'.t.users
  {
    hide OutcomeOf, GainsOf, AddEvidence, RefreshUsers, SelectUsers, EligibleUsers, Planned, Refresh;
    var s' := s.Apply(q);
    ApplyKeepsValid(s, q);
    EligibleAre(s', q);
    forall u' | u' in EligibleUsers(q, s'.t, s'.Users(q)) ensures Refresh(u', q.now) == u' { ContactAgain(s, q, u'); }
    SameRefresh(q, s'.t.users, EligibleUsers(q, s'.t, s'.Users(q)));
  }

  lemma EligibleAre(s: Store, q: Request)
    ensures forall u :: u in EligibleUsers(q, s.t, s.Users(q)) <==> u in s.Users(q) && s.t.Outcome(q, u).Eligible?
    ensures forall u :: u in s.Users(q) ==> u in s.t.users
  {
    hide OutcomeOf;
  }

  /** Refreshing contacts that are up to date changes no row. */
  lemma SameRefresh(q: Request, users: seq<User>, eligible: seq<User>)
    requires (forall x, y :: x in users && y in users && x.id == y.id ==> x == y)
    requires forall u :: u in eligible ==> u in users && Refresh(u, q.now) == u
    ensures RefreshUsers(users, eligible, q.now) == users
  {
  }

  lemma {:induction false} NothingPlanned(q: Request, t: Tables, users: seq<User>)
    requires forall u :: u in users ==> t.Gains(q, u) == []
    ensures Planned(q, t, users) == []
  {
    if users != [] { NothingPlanned(q, t, Front(users)); }
  }

  // -------------------------------------------------------------- readiness

  datatype Verification = Verification(
    project: int, user: int, endpoint: Option<int>, kind: string, identifierHash: string,
    canonicalStatus: string, lastAttempt: string, expiresAt: int)

  predicate CurrentGrant(v: Evidence, q: Request) {
    SelectsEvidence(v, q.project) && v.status == "granted" && (v.expiresAt == None || v.expiresAt.value > q.now)
  }

  /** The report's granted endpoints. */
  function GrantedEndpoints(q: Request, evidence: seq<Evidence>): set<int> {
    set v | v in evidence && CurrentGrant(v, q) && v.endpoint.Some? :: v.endpoint.value
  }

  predicate FreshlyValid(w: Verification, e: Endpoint, q: Request) {
    w.project == q.project && w.kind == "email" && w.canonicalStatus == "valid" && w.lastAttempt == "succeeded"
    && w.expiresAt > q.now && w.user == e.user && w.endpoint == Some(e.id) && w.identifierHash == e.valueHash
  }

  predicate Reachable(q: Request, t: Tables, states: seq<Verification>, e: Endpoint) {
    && SelectsEndpoint(e, q.project)
    && (exists u :: u in t.users && SelectsUser(u, q.project) && u.id == e.user && !OptedOut(u))
    && e.id in GrantedEndpoints(q, t.evidence)
    && exists w :: w in states && FreshlyValid(w, e, q)
  }

  /** The report's campaign-eligible contacts. */
  function EligibleContacts(q: Request, t: Tables, states: seq<Verification>): set<int> {
    set e | e in t.endpoints && Reachable(q, t, states, e) :: e.user
  }

  lemma GrantedAfter(q: Request, table: seq<Evidence>, planned: seq<Endpoint>, nextId: int)
    ensures GrantedEndpoints(q, AddEvidence(table, q, planned, nextId))
         == GrantedEndpoints(q, table) + (set e | e in planned :: e.id)
  {
    var after := AddEvidence(table, q, planned, nextId);
    forall x | x in GrantedEndpoints(q, after) ensures x in GrantedEndpoints(q, table) + (set e | e in planned :: e.id) {
      var v :| v in after && CurrentGrant(v, q) && v.endpoint == Some(x);
      AddedFrom(table, q, planned, nextId, v);
    }
    forall v | v in table ensures v in after {
      AddedFrom(table, q, planned, nextId, v);
    }
    forall e | e in planned ensures e.id in GrantedEndpoints(q, after) {
      var v := AddedFor(table, q, planned, nextId, e);
    }
  }

  lemma StaysReachable(s: Store, q: Request, states: seq<Verification>, e: Endpoint)
    requires Reachable(q, s.t, states, e)
    ensures Reachable(q, s.Apply(q).t, states, e)
  {
    GrantedAfter(q, s.t.evidence, s.Plan(q), s.nextId);
    var u :| u in s.t.users && SelectsUser(u, q.project) && u.id == e.user && !OptedOut(u);
    var k :| 0 <= k < |s.t.users| && s.t.users[k] == u;
    var u' := s.Apply(q).t.users[k];
    assert u' in s.Apply(q).t.users && SelectsUser(u', q.project) && u'.id == e.user && !OptedOut(u');
  }

  /** The report agrees with the apply phase: the granted endpoints grow by
      exactly the planned ones, and no contact stops being eligible. */
  lemma ReadinessAfter(s: Store, q: Request, states: seq<Verification>)
    ensures GrantedEndpoints(q, s.Apply(q).t.evidence)
         == GrantedEndpoints(q, s.t.evidence) + (set e | e in s.Plan(q) :: e.id)
    ensures EligibleContacts(q, s.t, states) <= EligibleContacts(q, s.Apply(q).t, states)
  {
    GrantedAfter(q, s.t.evidence, s.Plan(q), s.nextId);
    forall e | e in s.t.endpoints && Reachable(q, s.t, states, e) ensures Reachable(q, s.Apply(q).t, states, e) {
      StaysReachable(s, q, states, e);
    }
  }

  /** Some row of the contact carries the reference this attestation would give
      the endpoint. */
  predicate ReferenceUsed(q: Request, e: Endpoint, evidence: seq<Evidence>) {
    exists v :: v in evidence && v.ref == Some(Reference(q, e))
  }

  /** What an apply run achieves for an endpoint of an eligible contact: it is
      granted afterwards if and only if it was granted before or no evidence of
      the contact carries its reference yet. A row that carries it without
      granting the endpoint, because it has expired or names no endpoint, stops
      the grant for good. */
  lemma GrantedAfterIff(s: Store, q: Request, u: User, e: Endpoint)
    requires s.Valid() && u in s.Users(q) && s.t.Outcome(q, u).Eligible? && e in s.t.EndpointsOf(q, u)
    ensures e.id in GrantedEndpoints(q, s.Apply(q).t.evidence)
      <==> e.id in GrantedEndpoints(q, s.t.evidence) || !ReferenceUsed(q, e, s.t.EvidenceOf(q, u))
  {
    hide OutcomeOf, Having;
    GrantedAfter(q, s.t.evidence, s.Plan(q), s.nextId);
    PlannedForUser(s, q, u);
    EndpointsOfIs(q, s.t.endpoints, u.id);
    forall x | x in s.Plan(q) && x.id == e.id ensures x == e { PlanIsOfTable(s, q, x); }
    if e.id !in GrantedEndpoints(q, s.t.evidence) { AttestedIff(s, q, u, e); }
  }

  lemma PlanIsOfTable(s: Store, q: Request, e: Endpoint)
    requires e in s.Plan(q)
    ensures e in s.t.endpoints
  {
    PlannedMembers(q, s.t, s.Users(q));
    var u :| u in s.Users(q) && e in s.t.Gains(q, u);
    GainsAreOwn(s.t, q, u);
  }

  /** An eligible contact's endpoint without a current grant is attested exactly
      when its reference is unused. */
  lemma AttestedIff(s: Store, q: Request, u: User, e: Endpoint)
    requires s.t.Outcome(q, u).Eligible? && e in s.t.EndpointsOf(q, u) && e.id !in GrantedEndpoints(q, s.t.evidence)
    ensures e in s.t.Gains(q, u) <==> !ReferenceUsed(q, e, s.t.EvidenceOf(q, u))
  {
    hide Judge, Having;
    var ev := s.t.EvidenceOf(q, u);
    EvidenceOfIs(q, s.t.evidence, u.id);
    forall v | v in ev ensures !Active(v, e, q.now) {
      assert v in s.t.evidence && SelectsEvidence(v, q.project);
    }
    assert !Judge(q, e, ev).Blocked?;
    JudgeAttests(q, e, ev);
  }

  lemma JudgeAttests(q: Request, e: Endpoint, ev: seq<Evidence>)
    requires !Judge(q, e, ev).Blocked? && forall v :: v in ev ==> !Active(v, e, q.now)
    ensures Judge(q, e, ev).Attest? <==> !ReferenceUsed(q, e, ev)
  {
  }

  /** The two kinds of row that do so, each as the only evidence there is: an
      expired grant for the endpoint, and a grant, expired or not, that names no
      endpoint. */
  lemma UsedReferenceIsNotRenewed(q: Request, e: Endpoint, v: Evidence)
    requires v.ref == Some(Reference(q, e)) && v.status == "granted"
    requires v.endpoint == None || (v.endpoint == Some(e.id) && v.expiresAt.Some? && v.expiresAt.value <= q.now)
    ensures Judge(q, e, [v]).Evidenced? && Attested(q, [e], [v]) == [] && GrantedEndpoints(q, [v]) == {}
  {
    var reused := First([v], (x: Evidence) => x.ref == Some(Reference(q, e)));
    assert v in [v] && reused.Some?;
    NoneAttested(q, [e], [v]);
  }
}
