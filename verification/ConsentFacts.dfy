/** What the consent half does, told in the columns of its tables and in
    literals: which contacts it considers, what stops an endpoint, which grants
    are planned and written, and what the readiness report counts. */
module ConsentFacts {
  import opened Common
  import opened ConsentPlan
  import opened ConsentReplay

  // ----------------------------------------------------------------- the rows

  /** A contact that is considered: of the project, active, no sandbox. */
  ghost predicate Considered(u: User, q: Request) { u.project == q.project && u.status == "active" && !u.isSandbox }

  ghost predicate OwnEndpoint(s: Store, q: Request, u: User, e: Endpoint) {
    e in s.t.endpoints && e.project == q.project && e.kind == "email" && e.status == "active" && e.user == u.id
  }

  ghost predicate OwnEvidence(s: Store, q: Request, u: User, v: Evidence) {
    v in s.t.evidence && v.project == q.project && v.channel == "email" && v.permission == "marketing" && v.user == u.id
  }

  /** The evidence is about the endpoint: it names it, or names none. */
  ghost predicate About(v: Evidence, e: Endpoint) { v.endpoint == None || v.endpoint == Some(e.id) }

  ghost predicate Newer(x: Evidence, v: Evidence) { x.capturedAt > v.capturedAt || (x.capturedAt == v.capturedAt && x.id > v.id) }

  /** The newest evidence about the endpoint is a denial or a withdrawal. */
  ghost predicate Refused(s: Store, q: Request, u: User, e: Endpoint) {
    exists v :: OwnEvidence(s, q, u, v) && About(v, e) && (v.status == "denied" || v.status == "withdrawn")
      && forall x :: OwnEvidence(s, q, u, x) && About(x, e) ==> !Newer(x, v)
  }

  /** A grant that names the endpoint and has not expired. */
  ghost predicate Current(s: Store, q: Request, u: User, e: Endpoint) {
    exists v :: OwnEvidence(s, q, u, v) && v.endpoint == Some(e.id) && v.status == "granted" && (v.expiresAt.None? || v.expiresAt.value > q.now)
  }

  function Text(q: Request, e: Endpoint): string { "admin-attestation:" + Decimal(q.project) + ":" + q.digest + ":" + Decimal(e.id) }

  /** Some evidence of the contact carries the reference of this attestation. */
  ghost predicate Used(s: Store, q: Request, u: User, e: Endpoint) {
    exists v :: OwnEvidence(s, q, u, v) && v.ref == Some(Text(q, e))
  }

  /** The newest that carries it is no grant. */
  ghost predicate Spoiled(s: Store, q: Request, u: User, e: Endpoint) {
    exists v :: OwnEvidence(s, q, u, v) && v.ref == Some(Text(q, e)) && v.status != "granted"
      && forall x :: OwnEvidence(s, q, u, x) && x.ref == Some(Text(q, e)) ==> !Newer(x, v)
  }

  ghost predicate Stopped(s: Store, q: Request, u: User, e: Endpoint) {
    Refused(s, q, u, e) || (!Current(s, q, u, e) && Spoiled(s, q, u, e))
  }

  ghost predicate Fresh(s: Store, q: Request, u: User, e: Endpoint) {
    !Refused(s, q, u, e) && !Current(s, q, u, e) && !Used(s, q, u, e)
  }

  lemma UsersAre(s: Store, q: Request)
    ensures forall u :: u in s.Users(q) <==> u in s.t.users && Considered(u, q)
  {
  }

  lemma EndpointsAre(s: Store, q: Request, u: User)
    ensures forall e :: e in s.t.EndpointsOf(q, u) <==> OwnEndpoint(s, q, u, e)
  {
    EndpointsOfIs(q, s.t.endpoints, u.id);
  }

  lemma EvidenceIs(s: Store, q: Request, u: User)
    ensures NewestFirst(s.t.EvidenceOf(q, u)) && forall v :: v in s.t.EvidenceOf(q, u) <==> OwnEvidence(s, q, u, v)
  {
    EvidenceOfIs(q, s.t.evidence, u.id);
  }

  // ------------------------------------------------------------ one endpoint

  /** The first row found that passes a test is the one that none is newer than. */
  lemma FirstIs(evidence: seq<Evidence>, test: Evidence -> bool, v: Evidence)
    requires NewestFirst(evidence) && KeyedEvidence(evidence)
    ensures First(evidence, test) == Some(v) <==> v in evidence && test(v) && forall x :: x in evidence && test(x) ==> !Newer(x, v)
  {
    var found := First(evidence, test);
    if found == Some(v) {
      forall x | x in evidence && test(x) ensures !Newer(x, v) { FirstIsNewest(evidence, test, x); }
    }
    if v in evidence && test(v) && forall x :: x in evidence && test(x) ==> !Newer(x, v) {
      FirstIsNewest(evidence, test, v);
      assert found.value in evidence && test(found.value);
    }
  }

  lemma KeyedOwn(s: Store, q: Request, u: User)
    requires s.Valid()
    ensures KeyedEvidence(s.t.EvidenceOf(q, u))
  {
    EvidenceIs(s, q, u);
  }

  lemma LatestIs(s: Store, q: Request, u: User, e: Endpoint)
    requires s.Valid()
    ensures var latest := First(s.t.EvidenceOf(q, u), (v: Evidence) => Applies(v, e));
      (latest.Some? && Refuses(latest.value)) <==> Refused(s, q, u, e)
  {
    hide First, Having;
    var evidence, test := s.t.EvidenceOf(q, u), (v: Evidence) => Applies(v, e);
    EvidenceIs(s, q, u);
    KeyedOwn(s, q, u);
    forall v ensures test(v) <==> About(v, e) { }
    forall v ensures Refuses(v) <==> v.status == "denied" || v.status == "withdrawn" { }
    var latest := First(evidence, test);
    if latest.Some? { FirstIs(evidence, test, latest.value); }
    if Refused(s, q, u, e) {
      var v :| OwnEvidence(s, q, u, v) && About(v, e) && (v.status == "denied" || v.status == "withdrawn")
        && (forall x :: OwnEvidence(s, q, u, x) && About(x, e) ==> !Newer(x, v));
      FirstIs(evidence, test, v);
    }
  }

  lemma CurrentIs(s: Store, q: Request, u: User, e: Endpoint)
    ensures First(s.t.EvidenceOf(q, u), (v: Evidence) => Active(v, e, q.now)).Some? <==> Current(s, q, u, e)
  {
    hide Having;
    EvidenceIs(s, q, u);
  }

  lemma ReusedIs(s: Store, q: Request, u: User, e: Endpoint)
    requires s.Valid()
    ensures var reused := First(s.t.EvidenceOf(q, u), (v: Evidence) => v.ref == Some(Reference(q, e)));
      (reused.Some? <==> Used(s, q, u, e)) && (reused.Some? && reused.value.status != "granted" <==> Spoiled(s, q, u, e))
  {
    hide Having, Decimal;
    var evidence, test := s.t.EvidenceOf(q, u), (v: Evidence) => v.ref == Some(Reference(q, e));
    assert Reference(q, e) == Text(q, e);
    EvidenceIs(s, q, u);
    KeyedOwn(s, q, u);
    var reused := First(evidence, test);
    if reused.Some? { FirstIs(evidence, test, reused.value); }
    if Spoiled(s, q, u, e) {
      var v :| OwnEvidence(s, q, u, v) && v.ref == Some(Text(q, e)) && v.status != "granted"
        && (forall x :: OwnEvidence(s, q, u, x) && x.ref == Some(Text(q, e)) ==> !Newer(x, v));
      FirstIs(evidence, test, v);
    }
  }

  /** What the loop decides for an endpoint: a standing refusal stops it, then a
      current grant is enough, then a used reference is, if it still grants, and
      stops it otherwise; only then is a grant planned. */
  lemma EndpointIs(s: Store, q: Request, u: User, e: Endpoint)
    requires s.Valid()
    ensures var v := Judge(q, e, s.t.EvidenceOf(q, u));
      (v.Blocked? <==> Stopped(s, q, u, e)) && (v.Attest? <==> Fresh(s, q, u, e))
  {
    hide First, Having, Reference, Refused, Current, Used, Spoiled, Refuses, Applies, Active;
    LatestIs(s, q, u, e);
    CurrentIs(s, q, u, e);
    ReusedIs(s, q, u, e);
  }

  // ------------------------------------------------------------- one contact

  ghost predicate SaysNo(u: User) { u.globalOptOut || u.isSubscribed == Some(false) || "email" in u.optedOutChannels }

  ghost predicate HasStopped(s: Store, q: Request, u: User) { exists e :: OwnEndpoint(s, q, u, e) && Stopped(s, q, u, e) }

  ghost predicate HasEndpoint(s: Store, q: Request, u: User) { exists e :: OwnEndpoint(s, q, u, e) }

  /** The outcome of a contact: said no, not subscribed, no endpoint, an endpoint
      stopped, or eligible, in this order. */
  lemma ContactIs(s: Store, q: Request, u: User)
    requires s.Valid()
    ensures s.t.Outcome(q, u) ==
      if SaysNo(u) then ExcludedOptedOut
      else if u.isSubscribed == None then ExcludedNotSubscribed
      else if !HasEndpoint(s, q, u) then ExcludedMissingEndpoint
      else if HasStopped(s, q, u) then ExcludedRefused
      else Eligible
  {
    hide Judge, Having, Stopped, Fresh;
    EndpointsAre(s, q, u);
    var endpoints, evidence := s.t.EndpointsOf(q, u), s.t.EvidenceOf(q, u);
    forall e | e in endpoints ensures Judge(q, e, evidence).Blocked? <==> Stopped(s, q, u, e) { EndpointIs(s, q, u, e); }
    if endpoints != [] { assert endpoints[0] in endpoints; }
    NoOrSubscribed(u);
  }

  lemma NoOrSubscribed(u: User)
    ensures u.isSubscribed == None || u.isSubscribed == Some(true) || u.isSubscribed == Some(false)
  {
    match u.isSubscribed
    case None =>
    case Some(b) => if b { } else { }
  }

  /** A contact that is granted something: considered, subscribed, not opted out,
      with endpoints of which none is stopped. */
  ghost predicate Passes(s: Store, q: Request, u: User) {
    u in s.t.users && Considered(u, q) && !SaysNo(u) && u.isSubscribed == Some(true) && HasEndpoint(s, q, u) && !HasStopped(s, q, u)
  }

  lemma EligibleAreThose(s: Store, q: Request)
    requires s.Valid()
    ensures forall u :: u in EligibleUsers(q, s.t, s.Users(q)) <==> Passes(s, q, u)
  {
    hide OutcomeOf, Considered, HasEndpoint, HasStopped;
    EligibleAre(s, q);
    UsersAre(s, q);
    forall u | u in s.Users(q) ensures s.t.Outcome(q, u).Eligible? <==> Passes(s, q, u) {
      ContactIs(s, q, u);
      NoOrSubscribed(u);
    }
  }

  /** The planned grants: exactly the fresh endpoints of the contacts that pass. */
  lemma PlanIs(s: Store, q: Request)
    requires s.Valid()
    ensures forall e :: e in s.Plan(q) <==> exists u :: Passes(s, q, u) && OwnEndpoint(s, q, u, e) && Fresh(s, q, u, e)
  {
    hide Passes, OwnEndpoint, Fresh, GainsOf, Planned, EligibleUsers, Having, OutcomeOf, SelectUsers;
    PlannedMembers(q, s.t, s.Users(q));
    EligibleAreThose(s, q);
    EligibleAre(s, q);
    forall u, e | u in s.Users(q) ensures e in s.t.Gains(q, u) <==> Passes(s, q, u) && OwnEndpoint(s, q, u, e) && Fresh(s, q, u, e) {
      GainsAre(s, q, u, e);
    }
  }

  lemma GainsAre(s: Store, q: Request, u: User, e: Endpoint)
    requires s.Valid()
    ensures e in s.t.Gains(q, u) <==> s.t.Outcome(q, u).Eligible? && OwnEndpoint(s, q, u, e) && Fresh(s, q, u, e)
  {
    hide Judge, OwnEndpoint, Fresh, OutcomeOf, Having;
    EndpointsAre(s, q, u);
    EndpointIs(s, q, u, e);
  }

  /** Each planned endpoint is planned once. */
  lemma PlanIsDistinct(s: Store, q: Request)
    requires s.Valid() && Distinct(s.t.users) && Distinct(s.t.endpoints)
    ensures Distinct(s.Plan(q))
  {
    WhereDistinct(s.t.users, (u: User) => SelectsUser(u, q.project));
    GainsDistinct(s, q, s.Users(q));
  }

  lemma {:induction false} GainsDistinct(s: Store, q: Request, users: seq<User>)
    requires s.Valid() && Distinct(s.t.endpoints) && Distinct(users) && forall u :: u in users ==> u in s.t.users
    ensures Distinct(Planned(q, s.t, users))
  {
    hide GainsOf, Having, Distinct;
    if users == [] {
      NonePlanned(q, s.t);
    } else {
      var front, u := Front(users), Last(users);
      assert forall x :: x in front ==> x in users;
      LastIsOther(users);
      GainsDistinct(s, q, front);
      OwnGainsDistinct(s, q, u);
      GainsApart(s, q, front, u);
      DistinctJoin(Planned(q, s.t, front), s.t.Gains(q, u));
    }
  }

  lemma NonePlanned(q: Request, t: Tables)
    ensures Distinct(Planned(q, t, []))
  {
  }

  lemma LastIsOther(users: seq<User>)
    requires users != [] && Distinct(users)
    ensures Distinct(Front(users)) && Last(users) !in Front(users) && Last(users) in users
  {
  }

  lemma GainsApart(s: Store, q: Request, users: seq<User>, u: User)
    requires s.Valid() && (forall x :: x in users ==> x in s.t.users) && u in s.t.users && u !in users
    ensures forall e :: e in Planned(q, s.t, users) ==> e !in s.t.Gains(q, u)
  {
    hide GainsOf, Having;
    PlannedMembers(q, s.t, users);
    forall e | e in Planned(q, s.t, users) ensures e !in s.t.Gains(q, u) {
      var x :| x in users && e in s.t.Gains(q, x);
      GainsAreOwn(s.t, q, x);
      GainsAreOwn(s.t, q, u);
    }
  }

  lemma DistinctJoin<T>(a: seq<T>, b: seq<T>)
    requires Distinct(a) && Distinct(b) && forall x :: x in a ==> x !in b
    ensures Distinct(a + b)
  {
    var both := a + b;
    forall i, j | 0 <= i < j < |both| ensures both[i] != both[j] {
      if i < |a| <= j { assert both[i] in a && both[j] in b; }
    }
  }

  lemma OwnGainsDistinct(s: Store, q: Request, u: User)
    requires Distinct(s.t.endpoints)
    ensures Distinct(s.t.Gains(q, u))
  {
    hide Judge, OutcomeOf;
    var kept := Where(s.t.endpoints, (e: Endpoint) => SelectsEndpoint(e, q.project));
    WhereDistinct(s.t.endpoints, (e: Endpoint) => SelectsEndpoint(e, q.project));
    DistinctPermutation(kept, SelectEndpoints(s.t.endpoints, q.project));
    HavingDistinct(SelectEndpoints(s.t.endpoints, q.project), OwnerOfEndpoint, u.id);
    var own, evidence := s.t.EndpointsOf(q, u), s.t.EvidenceOf(q, u);
    WhereDistinct(own, (e: Endpoint) => Judge(q, e, evidence).Attest?);
  }

  lemma {:induction false} HavingDistinct<T, K>(rows: seq<T>, key: T -> K, k: K)
    requires Distinct(rows)
    ensures Distinct(Having(rows, key, k))
  {
    if rows != [] {
      HavingDistinct(rows[1..], key, k);
      assert rows[0] !in rows[1..];
    }
  }

  // ------------------------------------------------------------------- writes

  /** A grant for the endpoint under its own reference, of now, without expiry. */
  function Grant(q: Request, e: Endpoint, id: int): Evidence {
    Evidence(id, q.project, e.user, Some(e.id), "email", "marketing", "granted", Some(Text(q, e)), q.now, None)
  }

  /** The evidence table afterwards: the old rows, then a grant for each planned
      endpoint, in order. */
  lemma EvidenceAfterIs(s: Store, q: Request)
    ensures var plan, after := s.Plan(q), s.Apply(q).t.evidence;
      && |after| == |s.t.evidence| + |plan| && s.t.evidence <= after
      && forall i :: 0 <= i < |plan| ==> after[|s.t.evidence| + i] == Grant(q, plan[i], s.nextId + i)
  {
    AddedAt(s.t.evidence, q, s.Plan(q), s.nextId);
  }

  lemma {:induction false} AddedAt(table: seq<Evidence>, q: Request, planned: seq<Endpoint>, nextId: int)
    ensures var after := AddEvidence(table, q, planned, nextId);
      && |after| == |table| + |planned| && table <= after
      && forall i :: 0 <= i < |planned| ==> after[|table| + i] == Grant(q, planned[i], nextId + i)
  {
    hide Decimal;
    if planned != [] { AddedAt(table, q, Front(planned), nextId); }
  }

  function Consented(u: User, q: Request): User {
    u.(cache := ConsentCache(Some(q.now), u.cache.otherChannels, true, "legacy-subscriber-v1"))
  }

  /** The contacts afterwards: those that pass have the email consent of now, the
      marketing flag and the version in their cached columns, and nothing else of
      anybody changes. */
  lemma ContactsAfter(s: Store, q: Request)
    requires s.Valid()
    ensures var users, after := s.t.users, s.Apply(q).t.users;
      && |after| == |users| && s.Apply(q).t.endpoints == s.t.endpoints
      && forall k :: 0 <= k < |users| ==> after[k] == if Passes(s, q, users[k]) then Consented(users[k], q) else users[k]
  {
    hide Passes, OutcomeOf, EligibleUsers, Planned, AddEvidence;
    EligibleAreThose(s, q);
  }

  // ----------------------------------------------------------------- counters

  /** The five counters of the contacts, by name. */
  lemma CountersAre(q: Request, t: Tables, users: seq<User>)
    ensures var c := Tally(q, t, users);
      && c.optedOut == |Where(users, (u: User) => t.Outcome(q, u) == ExcludedOptedOut)|
      && c.notSubscribed == |Where(users, (u: User) => t.Outcome(q, u) == ExcludedNotSubscribed)|
      && c.missingEndpoint == |Where(users, (u: User) => t.Outcome(q, u) == ExcludedMissingEndpoint)|
      && c.refused == |Where(users, (u: User) => t.Outcome(q, u) == ExcludedRefused)|
      && c.eligible == |Where(users, (u: User) => t.Outcome(q, u) == Eligible)|
  {
    hide Where, OutcomeOf;
    TallyCounts(q, t, users, ExcludedOptedOut);
    TallyCounts(q, t, users, ExcludedNotSubscribed);
    TallyCounts(q, t, users, ExcludedMissingEndpoint);
    TallyCounts(q, t, users, ExcludedRefused);
    TallyCounts(q, t, users, Eligible);
  }

  /** The evidenced endpoints counted for one contact are those before the first
      one that stops it, or all of them. */
  lemma {:induction false} SeenIs(q: Request, endpoints: seq<Endpoint>, evidence: seq<Evidence>, k: nat)
    requires k <= |endpoints| && forall i :: 0 <= i < k ==> !Judge(q, endpoints[i], evidence).Blocked?
    requires k < |endpoints| ==> Judge(q, endpoints[k], evidence).Blocked?
    ensures Seen(q, endpoints, evidence) == |Where(endpoints[..k], (e: Endpoint) => Judge(q, e, evidence).Evidenced?)|
  {
    hide Judge;
    if k > 0 {
      SeenIs(q, endpoints[1..], evidence, k - 1);
      assert endpoints[..k][1..] == endpoints[1..][..k - 1];
    }
  }

  /** The sum over the first n contacts, leaving out those that said no or are not
      subscribed, whose endpoints are not looked at. */
  ghost function SeenUpTo(q: Request, t: Tables, users: seq<User>, n: nat): nat
    requires n <= |users|
  {
    if n == 0 then 0
    else
      var u := users[n - 1];
      SeenUpTo(q, t, users, n - 1) + if SaysNo(u) || u.isSubscribed == None then 0 else Seen(q, t.EndpointsOf(q, u), t.EvidenceOf(q, u))
  }

  lemma SeenOfIs(q: Request, t: Tables, u: User)
    ensures t.SeenOf(q, u) == if SaysNo(u) || u.isSubscribed == None then 0 else Seen(q, t.EndpointsOf(q, u), t.EvidenceOf(q, u))
  {
    hide Seen, Having, Where, OrderBy;
    NoOrSubscribed(u);
  }

  lemma TotalSeenNext(q: Request, t: Tables, users: seq<User>, n: nat)
    requires n < |users|
    ensures TotalSeen(q, t, users[..n + 1]) == TotalSeen(q, t, users[..n]) + t.SeenOf(q, users[n])
  {
    hide Tables.SeenOf;
    FrontOfPrefix(users, n);
  }

  lemma {:induction false} TotalSeenIs(q: Request, t: Tables, users: seq<User>, n: nat)
    requires n <= |users|
    ensures TotalSeen(q, t, users[..n]) == SeenUpTo(q, t, users, n)
  {
    hide Tables.SeenOf, Tables.EndpointsOf, Tables.EvidenceOf, Seen, SaysNo, TotalSeen;
    if n == 0 {
      NoneSeen(q, t);
    } else {
      TotalSeenIs(q, t, users, n - 1);
      TotalSeenNext(q, t, users, n - 1);
      SeenOfIs(q, t, users[n - 1]);
    }
  }

  lemma NoneSeen(q: Request, t: Tables)
    ensures TotalSeen(q, t, []) == 0
  {
  }

  // ---------------------------------------------------------------- readiness

  /** The report's granted endpoints: those named by a marketing grant for email,
      of the project, that has not expired. */
  lemma GrantedAre(q: Request, evidence: seq<Evidence>, x: int)
    ensures x in GrantedEndpoints(q, evidence) <==>
      exists v :: v in evidence && v.project == q.project && v.channel == "email" && v.permission == "marketing" && v.status == "granted"
        && (v.expiresAt.None? || v.expiresAt.value > q.now) && v.endpoint == Some(x)
  {
  }

  /** A state that shows the endpoint valid: same project, contact, endpoint and
      address, the last attempt succeeded, not expired. */
  ghost predicate Shows(w: Verification, e: Endpoint, q: Request) {
    && w.project == q.project && w.kind == "email" && w.canonicalStatus == "valid" && w.lastAttempt == "succeeded" && w.expiresAt > q.now
    && w.user == e.user && w.endpoint == Some(e.id) && w.identifierHash == e.valueHash
  }

  /** The report's eligible contacts: considered, not opted out, with an active
      email endpoint that is granted and shown valid. */
  lemma EligibleContactsAre(s: Store, q: Request, states: seq<Verification>, x: int)
    ensures x in EligibleContacts(q, s.t, states) <==>
      exists u, e :: u in s.t.users && u.id == x && Considered(u, q) && !SaysNo(u) && OwnEndpoint(s, q, u, e)
        && e.id in GrantedEndpoints(q, s.t.evidence) && exists w :: w in states && Shows(w, e, q)
  {
    hide GrantedEndpoints;
    forall w, e ensures FreshlyValid(w, e, q) <==> Shows(w, e, q) { }
    if x in EligibleContacts(q, s.t, states) {
      var e :| e in s.t.endpoints && Reachable(q, s.t, states, e) && e.user == x;
      var u :| u in s.t.users && SelectsUser(u, q.project) && u.id == e.user && !OptedOut(u);
      assert OwnEndpoint(s, q, u, e);
    }
    if u, e :| u in s.t.users && u.id == x && Considered(u, q) && !SaysNo(u) && OwnEndpoint(s, q, u, e) && e.id in GrantedEndpoints(q, s.t.evidence) && (exists w :: w in states && Shows(w, e, q)) {
      assert Reachable(q, s.t, states, e);
    }
  }
}
