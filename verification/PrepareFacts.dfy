/** How far back prepare() looks, in numbers, and what its readiness says. */
module PrepareFacts {
  import opened Common
  import opened Prepare
  import C = ConsentPlan
  import CR = ConsentReplay
  import CF = ConsentFacts

  /** Instants in microseconds: seven days ago; the first of the month, Monday and
      midnight for a monthly, weekly and daily cap; each cooldown and the conflict
      window ago. */
  ghost predicate Reaches(c: Clock, p: Policy, t: int) {
    var midnight := c.now - c.now % 86_400_000_000;
    || t == c.now - 604_800_000_000
    || (p.monthly && t == midnight - (c.dayOfMonth - 1) * 86_400_000_000)
    || (p.weekly && t == midnight - c.weekday * 86_400_000_000)
    || (p.daily && t == midnight)
    || (exists x :: x in p.cooldowns && x != 0 && t == c.now - x * 1_000_000)
    || (p.conflictWindow != 0 && t == c.now - p.conflictWindow * 1_000_000)
  }

  /** The start time is the earliest of them; without a policy seven days ago. */
  lemma SinceIs(c: Clock, p: Policy)
    requires c.Valid()
    ensures Reaches(c, p, Since(c, Some(p))) && forall t :: Reaches(c, p, t) ==> Since(c, Some(p)) <= t
    ensures Since(c, None) == c.now - 604_800_000_000
  {
    hide Minimum, Maximum, Since, CoreStarts;
    forall t | Reaches(c, p, t) ensures Since(c, Some(p)) <= t { EachReached(c, p, t); }
    SinceReaches(c, p);
    NoPolicy(c);
  }

  lemma NoPolicy(c: Clock)
    ensures Since(c, None) == c.now - 604_800_000_000
  {
  }

  lemma EachReached(c: Clock, p: Policy, t: int)
    requires c.Valid() && Reaches(c, p, t)
    ensures Since(c, Some(p)) <= t
  {
    hide Maximum;
    var starts := CoreStarts(c, p);
    assert starts[0] == c.now - 604_800_000_000 && starts[0] in starts;
    if t != c.now - 604_800_000_000 { SinceCovers(c, p, t); }
  }

  lemma SinceReaches(c: Clock, p: Policy)
    requires c.Valid()
    ensures Reaches(c, p, Since(c, Some(p)))
  {
    hide Maximum;
    assert Since(c, Some(p)) in CoreStarts(c, p);
    if Cooldowns(p) != [] {
      var x := Maximum(Cooldowns(p));
      assert x in p.cooldowns && x != 0;
    }
  }

  /** Blank is: nothing but the white space of Python's strip. */
  lemma BlankIs(s: string)
    ensures IsBlank(s) <==> forall c :: c in s ==> IsSpace(c)
  {
    hide SPACES, IsSpace;
    forall c ensures c in SPACES <==> IsSpace(c) { SpacesAre(c); }
  }

  /** The readiness of a database: the endpoints that an unexpired grant names, and
      the contacts with an email endpoint that is granted and shown valid. */
  lemma MeasureIs(db: Database, q: C.Request, x: int)
    ensures x in db.Measure(q).granted <==> exists v :: v in db.evidence && Grants(v, q, x)
    ensures x in db.Measure(q).eligible <==> exists u, e :: u in db.users && u.id == x && e in db.endpoints && Reached(db, q, u, e)
  {
    hide CR.GrantedEndpoints, CR.EligibleContacts, CF.Shows, CF.SaysNo;
    var s := CR.Store(C.Tables(db.users, db.endpoints, db.evidence), db.nextEvidence);
    forall y ensures y in CR.GrantedEndpoints(q, db.evidence) <==> exists v :: v in db.evidence && Grants(v, q, y) { CF.GrantedAre(q, db.evidence, y); }
    CF.EligibleContactsAre(s, q, db.verifications, x);
  }

  ghost predicate Grants(v: C.Evidence, q: C.Request, x: int) {
    && v.project == q.project && v.channel == "email" && v.permission == "marketing" && v.status == "granted"
    && (v.expiresAt.None? || v.expiresAt.value > q.now) && v.endpoint == Some(x)
  }

  ghost predicate Reached(db: Database, q: C.Request, u: C.User, e: C.Endpoint)
    reads db
  {
    && u.project == q.project && u.status == "active" && !u.isSandbox && !CF.SaysNo(u)
    && e.project == q.project && e.kind == "email" && e.status == "active" && e.user == u.id
    && (exists v :: v in db.evidence && Grants(v, q, e.id)) && exists w :: w in db.verifications && CF.Shows(w, e, q)
  }
}
