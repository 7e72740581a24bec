/** The consent half of scripts/prepare_campaign_rollout.py: which endpoints an
    administrator's attestation may cover, and what the readiness report counts. */
module ConsentPlan {
  import opened Common

  datatype User = User(
    id: int, project: int, status: string, isSandbox: bool, isSubscribed: Option<bool>,
    globalOptOut: bool, optedOutChannels: seq<string>, cache: ConsentCache)

  /** The legacy consent columns of a contact that the apply phase refreshes. */
  datatype ConsentCache = ConsentCache(emailGrantedAt: Option<int>, otherChannels: map<string, int>, marketing: bool, version: string)

  datatype Endpoint = Endpoint(id: int, project: int, user: int, kind: string, status: string, valueHash: string)

  datatype Evidence = Evidence(
    id: int, project: int, user: int, endpoint: Option<int>, channel: string, permission: string,
    status: string, ref: Option<string>, capturedAt: int, expiresAt: Option<int>)

  /** What one run is given: the project, the digest of the attestation
      reference, and the clock. */
  datatype Request = Request(project: int, digest: string, now: int)

  // ---------------------------------------------------------------- queries

  predicate SelectsUser(u: User, project: int) {
    u.project == project && u.status == "active" && !u.isSandbox
  }

  predicate SelectsEndpoint(e: Endpoint, project: int) {
    e.project == project && e.kind == "email" && e.status == "active"
  }

  predicate SelectsEvidence(v: Evidence, project: int) {
    v.project == project && v.channel == "email" && v.permission == "marketing"
  }

  function SelectUsers(table: seq<User>, project: int): seq<User> {
    Where(table, (u: User) => SelectsUser(u, project))
  }

  function SelectEndpoints(table: seq<Endpoint>, project: int): seq<Endpoint> {
    OrderBy(Where(table, (e: Endpoint) => SelectsEndpoint(e, project)), (e: Endpoint) => (e.user, e.id, 0))
  }

  /** By contact, newest first. */
  function EvidenceOrder(v: Evidence): SortKey { (v.user, -v.capturedAt, -v.id) }

  function SelectEvidence(table: seq<Evidence>, project: int): seq<Evidence> {
    OrderBy(Where(table, (v: Evidence) => SelectsEvidence(v, project)), EvidenceOrder)
  }

  function OwnerOfEndpoint(e: Endpoint): int { e.user }

  function OwnerOfEvidence(v: Evidence): int { v.user }

  // --------------------------------------------------------------- judgement

  predicate OptedOut(u: User) {
    u.globalOptOut || u.isSubscribed == Some(false) || "email" in u.optedOutChannels
  }

  predicate Applies(v: Evidence, e: Endpoint) {
    v.endpoint == None || v.endpoint == Some(e.id)
  }

  predicate Refuses(v: Evidence) {
    v.status == "denied" || v.status == "withdrawn"
  }

  /** An unexpired grant for exactly this endpoint. */
  predicate Active(v: Evidence, e: Endpoint, now: int) {
    v.endpoint == Some(e.id) && v.status == "granted" && (v.expiresAt == None || v.expiresAt.value > now)
  }

  function Reference(q: Request, e: Endpoint): string {
    "admin-attestation:" + Decimal(q.project) + ":" + q.digest + ":" + Decimal(e.id)
  }

  datatype Verdict = Blocked | Evidenced | Attest

  /** The decision for one endpoint, given its owner's evidence newest first. */
  function Judge(q: Request, e: Endpoint, evidence: seq<Evidence>): Verdict {
    var latest := First(evidence, (v: Evidence) => Applies(v, e));
    if latest.Some? && Refuses(latest.value) then Blocked
    else if First(evidence, (v: Evidence) => Active(v, e, q.now)).Some? then Evidenced
    else
      var reused := First(evidence, (v: Evidence) => v.ref == Some(Reference(q, e)));
      if reused.None? then Attest
      else if reused.value.status == "granted" then Evidenced
      else Blocked
  }

  datatype Outcome = ExcludedOptedOut | ExcludedNotSubscribed | ExcludedMissingEndpoint | ExcludedRefused | Eligible

  predicate AnyBlocked(q: Request, endpoints: seq<Endpoint>, evidence: seq<Evidence>) {
    exists e :: e in endpoints && Judge(q, e, evidence).Blocked?
  }

  function OutcomeOf(q: Request, u: User, endpoints: seq<Endpoint>, evidence: seq<Evidence>): Outcome {
    if OptedOut(u) then ExcludedOptedOut
    else if u.isSubscribed != Some(true) then ExcludedNotSubscribed
    else if endpoints == [] then ExcludedMissingEndpoint
    else if AnyBlocked(q, endpoints, evidence) then ExcludedRefused
    else Eligible
  }

  /** The endpoints of an eligible contact that still lack evidence. */
  function Attested(q: Request, endpoints: seq<Endpoint>, evidence: seq<Evidence>): seq<Endpoint> {
    Where(endpoints, (e: Endpoint) => Judge(q, e, evidence).Attest?)
  }

  /** How many endpoints the loop finds evidenced before it ends or breaks. */
  function Seen(q: Request, endpoints: seq<Endpoint>, evidence: seq<Evidence>): nat {
    if endpoints == [] then 0
    else
      match Judge(q, endpoints[0], evidence)
      case Blocked => 0
      case Evidenced => 1 + Seen(q, endpoints[1..], evidence)
      case Attest => Seen(q, endpoints[1..], evidence)
  }

  /** Of a contact that no refusal stops, each endpoint is either evidenced or
      attested. */
  lemma {:induction false} SeenOrAttested(q: Request, endpoints: seq<Endpoint>, evidence: seq<Evidence>)
    requires !AnyBlocked(q, endpoints, evidence)
    ensures Seen(q, endpoints, evidence) + |Attested(q, endpoints, evidence)| == |endpoints|
  {
    hide Judge;
    if endpoints != [] {
      assert endpoints == [endpoints[0]] + endpoints[1..];
      assert forall e :: e in endpoints[1..] ==> e in endpoints;
      SeenOrAttested(q, endpoints[1..], evidence);
    }
  }

  /** One contact's evidence, newest first. */
  function ContactEvidence(q: Request, table: seq<Evidence>, user: int): seq<Evidence> {
    Having(SelectEvidence(table, q.project), OwnerOfEvidence, user)
  }

  function ContactEndpoints(q: Request, table: seq<Endpoint>, user: int): seq<Endpoint> {
    Having(SelectEndpoints(table, q.project), OwnerOfEndpoint, user)
  }

  /** What the plan adds for a contact: nothing unless all endpoints pass. */
  function GainsOf(q: Request, u: User, endpoints: seq<Endpoint>, evidence: seq<Evidence>): seq<Endpoint> {
    if OutcomeOf(q, u, endpoints, evidence).Eligible? then Attested(q, endpoints, evidence) else []
  }

  /** The tables one plan reads. */
  datatype Tables = Tables(users: seq<User>, endpoints: seq<Endpoint>, evidence: seq<Evidence>) {
    function EndpointsOf(q: Request, u: User): seq<Endpoint> { ContactEndpoints(q, endpoints, u.id) }

    function EvidenceOf(q: Request, u: User): seq<Evidence> { ContactEvidence(q, evidence, u.id) }

    function Outcome(q: Request, u: User): Outcome {
      OutcomeOf(q, u, EndpointsOf(q, u), EvidenceOf(q, u))
    }

    /** A contact excluded before its endpoints are looked at counts for none. */
    function SeenOf(q: Request, u: User): nat {
      if OptedOut(u) || u.isSubscribed != Some(true) then 0 else Seen(q, EndpointsOf(q, u), EvidenceOf(q, u))
    }

    function Gains(q: Request, u: User): seq<Endpoint> { GainsOf(q, u, EndpointsOf(q, u), EvidenceOf(q, u)) }
  }

  /** All endpoints the plan attests, contact by contact. */
  function Planned(q: Request, t: Tables, users: seq<User>): seq<Endpoint> {
    if users == [] then [] else Planned(q, t, Front(users)) + t.Gains(q, Last(users))
  }

  function EligibleUsers(q: Request, t: Tables, users: seq<User>): seq<User> {
    Where(users, (u: User) => t.Outcome(q, u).Eligible?)
  }

  datatype Counts = Counts(optedOut: nat, notSubscribed: nat, missingEndpoint: nat, refused: nat, eligible: nat) {
    function Total(): nat { optedOut + notSubscribed + missingEndpoint + refused + eligible }

    function At(o: Outcome): nat {
      match o
      case ExcludedOptedOut => optedOut
      case ExcludedNotSubscribed => notSubscribed
      case ExcludedMissingEndpoint => missingEndpoint
      case ExcludedRefused => refused
      case Eligible => eligible
    }

    function Bump(o: Outcome): Counts {
      match o
      case ExcludedOptedOut => this.(optedOut := optedOut + 1)
      case ExcludedNotSubscribed => this.(notSubscribed := notSubscribed + 1)
      case ExcludedMissingEndpoint => this.(missingEndpoint := missingEndpoint + 1)
      case ExcludedRefused => this.(refused := refused + 1)
      case Eligible => this.(eligible := eligible + 1)
    }
  }

  function Tally(q: Request, t: Tables, users: seq<User>): Counts {
    if users == [] then Counts(0, 0, 0, 0, 0)
    else Tally(q, t, Front(users)).Bump(t.Outcome(q, Last(users)))
  }

  /** The counter of evidenced endpoints. */
  function TotalSeen(q: Request, t: Tables, users: seq<User>): nat {
    if users == [] then 0 else TotalSeen(q, t, Front(users)) + t.SeenOf(q, Last(users))
  }

  function Meeting(q: Request, t: Tables, users: seq<User>, o: Outcome): seq<User> {
    Where(users, (u: User) => t.Outcome(q, u) == o)
  }

  /** Each counter is the number of contacts that meet its outcome. */
  lemma {:induction false} TallyCounts(q: Request, t: Tables, users: seq<User>, o: Outcome)
    ensures Tally(q, t, users).At(o) == |Meeting(q, t, users, o)|
  {
    hide Meeting, OutcomeOf;
    if users == [] {
      MeetingNobody(q, t, o);
    } else {
      TallyCounts(q, t, Front(users), o);
      MeetingLast(q, t, users, o);
      BumpAt(Tally(q, t, Front(users)), t.Outcome(q, Last(users)), o);
    }
  }

  lemma BumpAt(c: Counts, met: Outcome, o: Outcome)
    ensures c.Bump(met).At(o) == c.At(o) + (if met == o then 1 else 0)
  {
  }

  lemma MeetingNobody(q: Request, t: Tables, o: Outcome)
    ensures Meeting(q, t, [], o) == []
  {
  }

  lemma MeetingLast(q: Request, t: Tables, users: seq<User>, o: Outcome)
    requires users != []
    ensures |Meeting(q, t, users, o)| == |Meeting(q, t, Front(users), o)| + (if t.Outcome(q, Last(users)) == o then 1 else 0)
  {
    hide Where, OutcomeOf, Judge;
    assert users[..|users| - 1 + 1] == users;
    CountNext(users, |users| - 1, (u: User) => t.Outcome(q, u) == o);
  }

  /** Conservation: the five outcomes partition the contacts. */
  lemma {:induction false} TallyTotal(q: Request, t: Tables, users: seq<User>)
    ensures Tally(q, t, users).Total() == |users|
  {
    hide OutcomeOf, Judge, Having;
    if users != [] {
      TallyTotal(q, t, Front(users));
      BumpTotal(Tally(q, t, Front(users)), t.Outcome(q, Last(users)));
    }
  }

  lemma BumpTotal(c: Counts, o: Outcome)
    ensures c.Bump(o).Total() == c.Total() + 1
  {
  }

  /** The three look-ups the endpoint loop makes, in its own order. */
  method JudgeEndpoint(q: Request, endpoint: Endpoint, evidence: seq<Evidence>) returns (v: Verdict)
    ensures v == Judge(q, endpoint, evidence)
  {
    var applicable := Where(evidence, (v: Evidence) => Applies(v, endpoint));
    WhereHead(evidence, (v: Evidence) => Applies(v, endpoint));
    if applicable != [] && Refuses(applicable[0]) {
      return Blocked;
    }
    var exactActive := First(applicable, (v: Evidence) => Active(v, endpoint, q.now));
    if exactActive.Some? {
      return Evidenced;
    }
    var existing := First(evidence, (v: Evidence) => v.ref == Some(Reference(q, endpoint)));
    if existing.Some? {
      return if existing.value.status == "granted" then Evidenced else Blocked;
    }
    return Attest;
  }

  /** The endpoint loop of one contact, stopping at the first refusal. */
  method JudgeEndpoints(q: Request, endpoints: seq<Endpoint>, evidence: seq<Evidence>)
    returns (blocked: bool, plans: seq<Endpoint>, seen: nat)
    ensures blocked <==> AnyBlocked(q, endpoints, evidence)
    ensures !blocked ==> plans == Attested(q, endpoints, evidence)
    ensures seen == Seen(q, endpoints, evidence)
  {
    hide Judge;
    blocked, plans, seen := false, [], 0;
    for i := 0 to |endpoints|
      invariant !blocked && !AnyBlocked(q, endpoints[..i], evidence)
      invariant plans == Attested(q, endpoints[..i], evidence)
      invariant seen + Seen(q, endpoints[i..], evidence) == Seen(q, endpoints, evidence)
    {
      assert endpoints[i..][0] == endpoints[i] && endpoints[i..][1..] == endpoints[i + 1..];
      var v := JudgeEndpoint(q, endpoints[i], evidence);
      JudgedSnoc(q, endpoints, evidence, i);
      if v.Blocked? {
        blocked := true;
        break;
      }
      if v.Attest? {
        plans := plans + [endpoints[i]];
      } else {
        seen := seen + 1;
      }
    }
    if !blocked {
      assert endpoints[..|endpoints|] == endpoints;
    }
  }

  lemma JudgedSnoc(q: Request, endpoints: seq<Endpoint>, evidence: seq<Evidence>, i: nat)
    requires i < |endpoints|
    ensures var v := Judge(q, endpoints[i], evidence);
      && (v.Blocked? ==> AnyBlocked(q, endpoints, evidence))
      && (AnyBlocked(q, endpoints[..i + 1], evidence) <==> AnyBlocked(q, endpoints[..i], evidence) || v.Blocked?)
      && Attested(q, endpoints[..i + 1], evidence) ==
         (if v.Attest? then Attested(q, endpoints[..i], evidence) + [endpoints[i]] else Attested(q, endpoints[..i], evidence))
  {
    var e := endpoints[i];
    assert endpoints[..i + 1] == endpoints[..i] + [e];
    WhereAppend(endpoints[..i], [e], (e: Endpoint) => Judge(q, e, evidence).Attest?);
    assert e in endpoints && e in endpoints[..i + 1];
    assert forall x :: x in endpoints[..i + 1] <==> x in endpoints[..i] || x == e;
  }

  /** The planning loop over the contacts. */
  method PlanConsent(q: Request, t: Tables) returns (counts: Counts, planned: seq<Endpoint>, cacheUsers: seq<User>, seen: nat)
    ensures seen == TotalSeen(q, t, SelectUsers(t.users, q.project))
    ensures planned == Planned(q, t, SelectUsers(t.users, q.project))
    ensures cacheUsers == EligibleUsers(q, t, SelectUsers(t.users, q.project))
    ensures forall o :: counts.At(o) == |Meeting(q, t, SelectUsers(t.users, q.project), o)|
    ensures counts.Total() == |SelectUsers(t.users, q.project)|
  {
    hide Judge, Seen, AnyBlocked, Attested, OutcomeOf, OptedOut, Having, Where;
    var users := SelectUsers(t.users, q.project);
    NoUsers(q, t);
    var endpointsByUser := GroupBy(SelectEndpoints(t.endpoints, q.project), OwnerOfEndpoint);
    var evidenceByUser := GroupBy(SelectEvidence(t.evidence, q.project), OwnerOfEvidence);
    counts, planned, cacheUsers, seen := Counts(0, 0, 0, 0, 0), [], [], 0;
    for i := 0 to |users|
      invariant counts == Tally(q, t, users[..i])
      invariant planned == Planned(q, t, users[..i])
      invariant cacheUsers == EligibleUsers(q, t, users[..i])
      invariant seen == TotalSeen(q, t, users[..i])
    {
      var user := users[i];
      PlanSnoc(q, t, users, i);
      FrontOfPrefix(users, i);
      var o, gains, evidenced := DecideUser(q, user, Group(endpointsByUser, user.id), Group(evidenceByUser, user.id));
      counts, seen := counts.Bump(o), seen + evidenced;
      if o.Eligible? {
        planned, cacheUsers := planned + gains, cacheUsers + [user];
      }
    }
    assert users[..|users|] == users;
    forall o ensures counts.At(o) == |Meeting(q, t, users, o)| { TallyCounts(q, t, users, o); }
    TallyTotal(q, t, users);
  }

  /** One turn of the loop: the exclusions in their order, then the endpoints. */
  method DecideUser(q: Request, user: User, endpoints: seq<Endpoint>, evidence: seq<Evidence>)
    returns (o: Outcome, gains: seq<Endpoint>, seen: nat)
    ensures o == OutcomeOf(q, user, endpoints, evidence)
    ensures o.Eligible? ==> gains == Attested(q, endpoints, evidence)
    ensures seen == if OptedOut(user) || user.isSubscribed != Some(true) then 0 else Seen(q, endpoints, evidence)
  {
    if OptedOut(user) {
      return ExcludedOptedOut, [], 0;
    }
    if user.isSubscribed != Some(true) {
      return ExcludedNotSubscribed, [], 0;
    }
    if endpoints == [] {
      return ExcludedMissingEndpoint, [], 0;
    }
    var blocked, plans, evidenced := JudgeEndpoints(q, endpoints, evidence);
    if blocked {
      return ExcludedRefused, [], evidenced;
    }
    return Eligible, plans, evidenced;
  }

  lemma NoUsers(q: Request, t: Tables)
    ensures EligibleUsers(q, t, []) == []
  {
  }

  lemma PlanSnoc(q: Request, t: Tables, users: seq<User>, i: nat)
    requires i < |users|
    ensures var o := t.Outcome(q, users[i]);
      && Tally(q, t, users[..i + 1]) == Tally(q, t, users[..i]).Bump(o)
      && EligibleUsers(q, t, users[..i + 1]) ==
         (if o.Eligible? then EligibleUsers(q, t, users[..i]) + [users[i]] else EligibleUsers(q, t, users[..i]))
      && Planned(q, t, users[..i + 1]) ==
         (if o.Eligible? then Planned(q, t, users[..i]) + t.Gains(q, users[i]) else Planned(q, t, users[..i]))
  {
    FrontOfPrefix(users, i);
    assert users[..i + 1] == users[..i] + [users[i]];
    WhereAppend(users[..i], [users[i]], (u: User) => t.Outcome(q, u).Eligible?);
  }
}
