/** prepare() of scripts/prepare_campaign_rollout.py: choose the start time,
    plan both halves, and either roll back or apply them in place. */
module Prepare {
  import opened Common
  import C = ConsentPlan
  import CR = ConsentReplay
  import L = LedgerPlan
  import LP = LedgerParity

  const SECOND := 1_000_000
  const DAY := 86_400 * SECOND

  // ------------------------------------------------------------- start time

  /** An instant together with its calendar position (Monday is 0). */
  datatype Clock = Clock(now: int, dayOfMonth: int, weekday: int) {
    ghost predicate Valid() { 1 <= dayOfMonth <= 31 && 0 <= weekday <= 6 }

    function Midnight(): int { now - now % DAY }
    function MonthStart(): int { Midnight() - (dayOfMonth - 1) * DAY }
    function WeekStart(): int { Midnight() - weekday * DAY }
  }

  datatype Policy = Policy(monthly: bool, weekly: bool, daily: bool, cooldowns: seq<int>, conflictWindow: int)

  function Maximum(s: seq<int>): (m: int)
    requires s != []
    ensures m in s && forall x :: x in s ==> x <= m
  {
    if |s| == 1 then s[0]
    else
      var m := Maximum(s[1..]);
      assert forall x :: x in s ==> x == s[0] || x in s[1..];
      if s[0] > m then s[0] else m
  }

  function Minimum(s: seq<int>): (m: int)
    requires s != []
    ensures m in s && forall x :: x in s ==> m <= x
  {
    if |s| == 1 then s[0]
    else
      var m := Minimum(s[1..]);
      assert forall x :: x in s ==> x == s[0] || x in s[1..];
      if s[0] < m then s[0] else m
  }

  /** Adding starts that some listed start already precedes changes nothing. */
  lemma MinimumDominated(core: seq<int>, all: seq<int>, m: int)
    requires core != [] && all != [] && m in core
    requires forall x :: x in core ==> x in all
    requires forall x :: x in all ==> x in core || m <= x
    ensures Minimum(core) == Minimum(all)
  {
  }

  /** A moment some active limit of the policy still looks back to. */
  ghost predicate LooksBackTo(c: Clock, p: Policy, t: int) {
    || (p.monthly && t == c.MonthStart())
    || (p.weekly && t == c.WeekStart())
    || (p.daily && t == c.Midnight())
    || (exists x :: x in p.cooldowns && x != 0 && t == c.now - x * SECOND)
    || (p.conflictWindow != 0 && t == c.now - p.conflictWindow * SECOND)
  }

  function Cooldowns(p: Policy): seq<int> { Where(p.cooldowns, (x: int) => x != 0) }

  function Optional(present: bool, start: int): seq<int> {
    if present then [start] else []
  }

  function CoolingStart(c: Clock, p: Policy): seq<int> {
    if Cooldowns(p) != [] then [c.now - Maximum(Cooldowns(p)) * SECOND] else []
  }

  function CoreStarts(c: Clock, p: Policy): seq<int> {
    [c.now - 7 * DAY] + Optional(p.monthly, c.MonthStart()) + CoolingStart(c, p)
    + Optional(p.conflictWindow != 0, c.now - p.conflictWindow * SECOND)
  }

  function AllStarts(c: Clock, p: Policy): seq<int> {
    [c.now - 7 * DAY] + Optional(p.monthly, c.MonthStart()) + Optional(p.weekly, c.WeekStart())
    + Optional(p.daily, c.Midnight()) + CoolingStart(c, p)
    + Optional(p.conflictWindow != 0, c.now - p.conflictWindow * SECOND)
  }

  /** A week or a day never starts more than seven days ago. */
  lemma WeeklyAndDailyNeverMatter(c: Clock, p: Policy)
    requires c.Valid()
    ensures Minimum(AllStarts(c, p)) == Minimum(CoreStarts(c, p))
  {
    var core, all := CoreStarts(c, p), AllStarts(c, p);
    assert core[0] == c.now - 7 * DAY && core[0] in core;
    forall x | x in all ensures x in core || core[0] <= x {
      if x in Optional(p.weekly, c.WeekStart()) || x in Optional(p.daily, c.Midnight()) {
        assert core[0] <= x;
      }
    }
    MinimumDominated(core, all, core[0]);
  }

  /** The start time in its shortest form: weekly and daily caps play no part. */
  function Since(c: Clock, policy: Option<Policy>): int {
    if policy.None? then c.now - 7 * DAY else Minimum(CoreStarts(c, policy.value))
  }

  /** The start time reaches back at least to everything the policy looks at. */
  lemma SinceCovers(c: Clock, p: Policy, t: int)
    requires c.Valid() && LooksBackTo(c, p, t)
    ensures Since(c, Some(p)) <= t && Since(c, Some(p)) <= Since(c, None)
  {
    hide Maximum, Minimum;
    var starts := CoreStarts(c, p);
    assert starts[0] == c.now - 7 * DAY && starts[0] in starts;
    if p.monthly { assert c.MonthStart() in starts; }
    if p.conflictWindow != 0 { assert c.now - p.conflictWindow * SECOND in starts; }
    if x :| x in p.cooldowns && x != 0 && t == c.now - x * SECOND {
      CoolingCovers(c, p, x);
      assert c.now - Maximum(Cooldowns(p)) * SECOND in starts;
    }
  }

  lemma CoolingCovers(c: Clock, p: Policy, x: int)
    requires x in p.cooldowns && x != 0
    ensures Cooldowns(p) != [] && CoolingStart(c, p) == [c.now - Maximum(Cooldowns(p)) * SECOND]
    ensures c.now - Maximum(Cooldowns(p)) * SECOND <= c.now - x * SECOND
  {
    assert x in Cooldowns(p);
  }

  /** The source's own computation, over all six candidate starts. */
  method RelevantSince(c: Clock, policy: Option<Policy>) returns (since: int)
    requires c.Valid()
    ensures since == Since(c, policy)
  {
    hide Minimum, Maximum;
    var starts := [c.now - 7 * DAY];
    if policy.None? {
      return Minimum(starts);
    }
    var p := policy.value;
    ghost var s := starts;
    if p.monthly {
      starts := starts + [c.MonthStart()];
    }
    assert starts == s + Optional(p.monthly, c.MonthStart());
    s := starts;
    if p.weekly {
      starts := starts + [c.WeekStart()];
    }
    assert starts == s + Optional(p.weekly, c.WeekStart());
    s := starts;
    if p.daily {
      starts := starts + [c.Midnight()];
    }
    assert starts == s + Optional(p.daily, c.Midnight());
    s := starts;
    var cooldowns := Cooldowns(p);
    if cooldowns != [] {
      starts := starts + [c.now - Maximum(cooldowns) * SECOND];
    }
    assert starts == s + CoolingStart(c, p);
    s := starts;
    if p.conflictWindow != 0 {
      starts := starts + [c.now - p.conflictWindow * SECOND];
    }
    assert starts == s + Optional(p.conflictWindow != 0, c.now - p.conflictWindow * SECOND);
    since := Minimum(starts);
    WeeklyAndDailyNeverMatter(c, p);
  }

  // --------------------------------------------------------------- database

  datatype Readiness = Readiness(granted: set<int>, eligible: set<int>)

  datatype Report = Report(
    consent: C.Counts, newEndpoints: nat, ledger: L.Counts, before: Readiness, after: Option<Readiness>)

  datatype Failure = BlankAttestation | DependenciesUnmet(errors: seq<string>)

  predicate IsBlank(s: string) {
    forall c :: c in s ==> c in SPACES
  }

  lemma EligibleAreUsers(q: C.Request, t: C.Tables)
    ensures forall u :: u in C.EligibleUsers(q, t, C.SelectUsers(t.users, q.project)) ==> u in t.users
  {
    hide C.OutcomeOf;
  }

  /** The rows of one tenant database that prepare() reads and writes. */
  class Database {
    var users: seq<C.User>
    var endpoints: seq<C.Endpoint>
    var evidence: seq<C.Evidence>
    var verifications: seq<CR.Verification>
    var sendLogs: seq<L.SendLog>
    var ledger: seq<L.LedgerRow>
    var nextEvidence: int
    var nextLedger: int

    constructor (t: C.Tables, w: seq<CR.Verification>, logs: seq<L.SendLog>, rows: seq<L.LedgerRow>, evidenceId: int, ledgerId: int)
      ensures Consent() == CR.Store(t, evidenceId) && verifications == w
      ensures sendLogs == logs && ledger == rows && nextLedger == ledgerId
    {
      users, endpoints, evidence, verifications := t.users, t.endpoints, t.evidence, w;
      sendLogs, ledger, nextEvidence, nextLedger := logs, rows, evidenceId, ledgerId;
    }

    function Consent(): CR.Store
      reads this
    {
      CR.Store(C.Tables(users, endpoints, evidence), nextEvidence)
    }

    function LedgerRun(project: int, since: int): LP.Run
      reads this
    {
      LP.Run(L.SelectLogs(sendLogs, project, since), L.SelectLedger(ledger, project, since), ledger, project, since, nextLedger)
    }

    ghost predicate Valid()
      reads this
    {
      Consent().Valid() && LedgerValid()
    }

    ghost predicate LedgerValid()
      reads this
    {
      && L.KeyedLogs(sendLogs)
      && L.KeyedRows(ledger) && forall r :: r in ledger ==> r.id < nextLedger
    }

    function Measure(q: C.Request): Readiness
      reads this
    {
      var t := C.Tables(users, endpoints, evidence);
      Readiness(CR.GrantedEndpoints(q, evidence), CR.EligibleContacts(q, t, verifications))
    }

    lemma RunIsValid(project: int, since: int)
      requires LedgerValid()
      ensures LedgerRun(project, since).Valid()
    {
      L.SelectLogsMembers(sendLogs, project, since);
      L.SelectLogsKeyed(sendLogs, project, since);
      L.SelectLedgerMembers(ledger, project, since);
    }

    /** Adds one grant for every planned endpoint. */
    method AddGrants(q: C.Request, planned: seq<C.Endpoint>)
      modifies this`evidence, this`nextEvidence
      ensures evidence == CR.AddEvidence(old(evidence), q, planned, old(nextEvidence))
      ensures nextEvidence == old(nextEvidence) + |planned|
    {
      hide CR.NewEvidence;
      for i := 0 to |planned|
        invariant evidence == CR.AddEvidence(old(evidence), q, planned[..i], old(nextEvidence))
        invariant nextEvidence == old(nextEvidence) + i
      {
        FrontOfPrefix(planned, i);
        evidence := evidence + [CR.NewEvidence(q, planned[i], nextEvidence)];
        nextEvidence := nextEvidence + 1;
      }
      assert planned[..|planned|] == planned;
    }

    /** Refreshes the cached consent columns of the eligible contacts. */
    method RefreshCaches(eligible: seq<C.User>, now: int)
      requires forall x, y :: x in users && y in users && x.id == y.id ==> x == y
      requires forall u :: u in eligible ==> u in users
      modifies this`users
      ensures users == CR.RefreshUsers(old(users), eligible, now)
    {
      for i := 0 to |eligible|
        invariant users == CR.RefreshUsers(old(users), eligible[..i], now)
      {
        var id := eligible[i].id;
        ghost var before := users;
        users := seq(|users|, k requires 0 <= k < |users| reads this => if users[k].id == id then CR.Refresh(users[k], now) else users[k]);
        assert forall u :: u in eligible[..i + 1] <==> u in eligible[..i] || u == eligible[i];
        assert forall k :: 0 <= k < |users| ==> old(users)[k] in old(users) && before[k].id == old(users)[k].id;
      }
      assert eligible[..|eligible|] == eligible;
    }

    /** Rewrites the matched ledger rows in place, then adds the new ones. */
    method ApplyLedger(project: int, rewrites: seq<(int, L.SendLog)>, creations: seq<L.SendLog>)
      requires forall l :: l in creations ==> l.user.Some?
      modifies this`ledger, this`nextLedger
      ensures ledger == LP.ApplyCreations(LP.ApplyRewrites(old(ledger), rewrites), creations, project, old(nextLedger))
      ensures nextLedger == old(nextLedger) + |creations|
    {
      hide LP.NewRow, LP.SetRow;
      for i := 0 to |rewrites|
        invariant ledger == LP.ApplyRewrites(old(ledger), rewrites[..i])
        invariant nextLedger == old(nextLedger)
      {
        FrontOfPrefix(rewrites, i);
        ledger := LP.SetRow(ledger, rewrites[i].0, rewrites[i].1);
      }
      assert rewrites[..|rewrites|] == rewrites;
      for i := 0 to |creations|
        invariant ledger == LP.ApplyCreations(LP.ApplyRewrites(old(ledger), rewrites), creations[..i], project, old(nextLedger))
        invariant nextLedger == old(nextLedger) + i
      {
        FrontOfPrefix(creations, i);
        ledger := ledger + [LP.NewRow(creations[i], project, nextLedger)];
        nextLedger := nextLedger + 1;
      }
      assert creations[..|creations|] == creations;
    }

    /** Both plans, computed before anything changes. */
    method PlanBoth(q: C.Request, since: int)
      returns (consent: C.Counts, planned: seq<C.Endpoint>, eligible: seq<C.User>,
               counts: L.Counts, creations: seq<L.SendLog>, rewrites: seq<(int, L.SendLog)>)
      requires Valid()
      ensures planned == Consent().Plan(q) && consent.Total() == |Consent().Users(q)|
      ensures eligible == C.EligibleUsers(q, Consent().t, Consent().Users(q))
      ensures LedgerRun(q.project, since).Valid()
      ensures var d := LedgerRun(q.project, since);
        && counts == L.Tally(d.Outcomes()) && creations == L.Creations(d.logs, d.Outcomes())
        && rewrites == L.Rewrites(d.logs, d.Outcomes())
    {
      hide C.Planned, C.EligibleUsers, L.Plan, L.Rewrites, L.Creations, L.SelectLogs, L.SelectLedger;
      var seen;
      consent, planned, eligible, seen := C.PlanConsent(q, C.Tables(users, endpoints, evidence));
      RunIsValid(q.project, since);
      counts, creations, rewrites := L.PlanLedger(
        L.SelectLogs(sendLogs, q.project, since), L.SelectLedger(ledger, q.project, since));
    }

    method CommitConsent(q: C.Request, planned: seq<C.Endpoint>, eligible: seq<C.User>)
      requires Consent().Valid()
      requires planned == Consent().Plan(q) && eligible == C.EligibleUsers(q, Consent().t, Consent().Users(q))
      modifies this`users, this`evidence, this`nextEvidence
      ensures Consent() == old(Consent().Apply(q)) && Consent().Valid()
    {
      hide C.Planned, C.EligibleUsers, C.SelectUsers, CR.RefreshUsers, CR.AddEvidence, C.OutcomeOf;
      ghost var before := Consent();
      CR.ApplyKeepsValid(before, q);
      EligibleAreUsers(q, before.t);
      AddGrants(q, planned);
      RefreshCaches(eligible, q.now);
      assert Consent() == before.Apply(q);
    }

    method CommitLedger(project: int, since: int, creations: seq<L.SendLog>, rewrites: seq<(int, L.SendLog)>)
      requires LedgerValid() && LedgerRun(project, since).Valid()
      requires var d := LedgerRun(project, since);
        creations == L.Creations(d.logs, d.Outcomes()) && rewrites == L.Rewrites(d.logs, d.Outcomes())
      modifies this`ledger, this`nextLedger
      ensures LedgerValid() && LedgerRun(project, since) == old(LedgerRun(project, since).Again())
    {
      hide L.Plan, L.Rewrites, L.Creations, L.SelectLogs, L.SelectLedger, LP.ApplyRewrites, LP.ApplyCreations, L.KeyedLogs;
      ghost var d := LedgerRun(project, since);
      LP.AfterIsKeyed(d);
      LP.CreationsAreLogs(d.logs, d.Outcomes());
      ApplyLedger(project, rewrites, creations);
    }

    /** The writes of an apply run. */
    method Commit(q: C.Request, since: int, planned: seq<C.Endpoint>, eligible: seq<C.User>,
                  creations: seq<L.SendLog>, rewrites: seq<(int, L.SendLog)>)
      requires Valid() && LedgerRun(q.project, since).Valid()
      requires planned == Consent().Plan(q) && eligible == C.EligibleUsers(q, Consent().t, Consent().Users(q))
      requires var d := LedgerRun(q.project, since);
        creations == L.Creations(d.logs, d.Outcomes()) && rewrites == L.Rewrites(d.logs, d.Outcomes())
      modifies this`users, this`evidence, this`nextEvidence, this`ledger, this`nextLedger
      ensures Valid()
      ensures Consent() == old(Consent().Apply(q))
      ensures LedgerRun(q.project, since) == old(LedgerRun(q.project, since).Again())
    {
      hide C.Planned, C.EligibleUsers, CR.RefreshUsers, CR.AddEvidence, L.Plan, L.Rewrites, L.Creations, L.SelectLogs, L.SelectLedger, LP.ApplyRewrites, LP.ApplyCreations, L.KeyedLogs, L.KeyedRows;
      CommitConsent(q, planned, eligible);
      CommitLedger(q.project, since, creations, rewrites);
    }

    /** The whole command. A dry run changes nothing; an apply run commits both
        plans before it looks at the rollout dependencies, so a dependency
        failure is reported over data that has already changed. */
    method Run(q: C.Request, c: Clock, policy: Option<Policy>, ref: string, note: string,
               apply: bool, activate: bool, dependencyErrors: seq<string>)
      returns (r: Result<Report, Failure>)
      requires Valid() && c.Valid() && c.now == q.now
      modifies this`users, this`evidence, this`nextEvidence, this`ledger, this`nextLedger
      ensures Valid() && LedgerRun(q.project, Since(c, policy)).Valid()
      ensures r.Err? <==> IsBlank(ref) || IsBlank(note) || (apply && activate && dependencyErrors != [])
      ensures r.Err? ==> r.error == if IsBlank(ref) || IsBlank(note) then BlankAttestation else DependenciesUnmet(dependencyErrors)
      ensures IsBlank(ref) || IsBlank(note) || !apply ==> unchanged(this)
      ensures !IsBlank(ref) && !IsBlank(note) && apply ==>
        && Consent() == old(Consent().Apply(q))
        && LedgerRun(q.project, Since(c, policy)) == old(LedgerRun(q.project, Since(c, policy)).Again())
      ensures r.Ok? ==>
        && r.value.consent.Total() == |old(Consent().Users(q))|
        && r.value.newEndpoints == |old(Consent().Plan(q))|
        && r.value.ledger == L.Tally(old(LedgerRun(q.project, Since(c, policy)).Outcomes()))
        && r.value.before == old(Measure(q))
        && r.value.after == if apply then Some(Measure(q)) else None
    {
      hide C.Planned, C.EligibleUsers, CR.RefreshUsers, CR.AddEvidence, L.Plan, L.Rewrites, L.Creations, L.SelectLogs, L.SelectLedger, LP.ApplyRewrites, LP.ApplyCreations, CR.GrantedEndpoints, CR.EligibleContacts, Since, IsBlank;
      var since := RelevantSince(c, policy);
      RunIsValid(q.project, since);
      if IsBlank(ref) || IsBlank(note) {
        return Err(BlankAttestation);
      }
      var consent, planned, eligible, counts, creations, rewrites := PlanBoth(q, since);
      var before := Measure(q);
      if !apply {
        return Ok(Report(consent, |planned|, counts, before, None));
      }
      Commit(q, since, planned, eligible, creations, rewrites);
      RunIsValid(q.project, since);
      if activate && dependencyErrors != [] {
        return Err(DependenciesUnmet(dependencyErrors));
      }
      r := Ok(Report(consent, |planned|, counts, before, Some(Measure(q))));
    }

    /** An apply run over a settled database finds nothing to do. */
    method RunSettled(q: C.Request, c: Clock, policy: Option<Policy>, ref: string, note: string) returns (replay: Report)
      requires Valid() && c.Valid() && c.now == q.now && !IsBlank(ref) && !IsBlank(note)
      requires Consent().Plan(q) == [] && Consent().Apply(q) == Consent()
      requires LedgerRun(q.project, Since(c, policy)).Valid() && LP.Settled(LedgerRun(q.project, Since(c, policy)))
      modifies this`users, this`evidence, this`nextEvidence, this`ledger, this`nextLedger
      ensures Consent() == old(Consent()) && ledger == old(ledger)
      ensures replay.newEndpoints == 0 && replay.after == Some(replay.before)
      ensures replay.ledger.created == 0 && replay.ledger.canonicalized == 0
    {
      hide C.Planned, C.EligibleUsers, CR.RefreshUsers, CR.AddEvidence, L.Plan, L.Rewrites, L.Creations, L.SelectLogs, L.SelectLedger, LP.ApplyRewrites, LP.ApplyCreations, CR.GrantedEndpoints, CR.EligibleContacts, Since;
      LP.SettledChangesNothing(LedgerRun(q.project, Since(c, policy)));
      LP.SettledTally(LedgerRun(q.project, Since(c, policy)).Outcomes());
      var second := Run(q, c, policy, ref, note, true, false, []);
      replay := second.value;
    }

    /** Two apply runs at the same clock. When the first plan steals no row and
        leaves no log ambiguous, the second changes nothing. */
    method RunTwice(q: C.Request, c: Clock, policy: Option<Policy>, ref: string, note: string) returns (replay: Report)
      requires Valid() && c.Valid() && c.now == q.now && !IsBlank(ref) && !IsBlank(note)
      requires LedgerRun(q.project, Since(c, policy)).Valid()
      requires LP.NoTheft(LedgerRun(q.project, Since(c, policy)).Outcomes())
      requires forall o :: o in LedgerRun(q.project, Since(c, policy)).Outcomes() ==> !o.Ambiguous?
      modifies this`users, this`evidence, this`nextEvidence, this`ledger, this`nextLedger
      ensures Consent() == old(Consent().Apply(q))
      ensures ledger == old(LedgerRun(q.project, Since(c, policy)).After())
      ensures replay.newEndpoints == 0 && replay.after == Some(replay.before)
      ensures replay.ledger.created == 0 && replay.ledger.canonicalized == 0
    {
      hide C.Planned, C.EligibleUsers, CR.RefreshUsers, CR.AddEvidence, L.Plan, L.Rewrites, L.Creations, L.SelectLogs, L.SelectLedger, LP.ApplyRewrites, LP.ApplyCreations, CR.GrantedEndpoints, CR.EligibleContacts, Since;
      CR.ConsentReplay(Consent(), q);
      LP.ReplayChangesNothing(LedgerRun(q.project, Since(c, policy)));
      var first := Run(q, c, policy, ref, note, true, false, []);
      replay := RunSettled(q, c, policy, ref, note);
    }
  }
}
