/** The contact-ledger half of scripts/prepare_campaign_rollout.py: matching
    SendLog rows to ContactLedger rows, and rewriting the matched ledger rows.
    Times are integers in microseconds. */
module LedgerPlan {
  import opened Common

  const MATCH_WINDOW := 5_000_000
  const MAX_SOURCE := 30
  const SUBMITTED_STATUSES := {"sent", "delivered", "read", "opened", "submission_unknown"}

  datatype SendLog = SendLog(
    id: int, project: int, user: Option<int>, channel: string, sourceType: string,
    status: string, sentAt: Option<int>, deliveredAt: Option<int>, queuedAt: int)

  datatype LedgerRow = LedgerRow(
    id: int, project: int, user: int, channel: string, source: string,
    sourceId: Option<string>, sentAt: int)

  /** What identifies one send: (user, channel, source, source id). */
  datatype Key = Key(user: int, channel: string, source: string, sourceId: string)

  function EventTime(l: SendLog): int {
    if l.sentAt.Some? then l.sentAt.value
    else if l.deliveredAt.Some? then l.deliveredAt.value
    else l.queuedAt
  }

  function Source(l: SendLog): string {
    if l.sourceType != "" then l.sourceType else "send_log"
  }

  function LogKey(l: SendLog): Key
    requires l.user.Some?
  {
    Key(l.user.value, l.channel, Source(l), Decimal(l.id))
  }

  function RowKey(r: LedgerRow): Option<Key> {
    if r.sourceId.Some? && r.sourceId.value != ""
    then Some(Key(r.user, r.channel, r.source, r.sourceId.value))
    else None
  }

  // ---------------------------------------------------------------- queries

  predicate SelectsLog(l: SendLog, project: int, since: int) {
    l.project == project && l.user.Some? && l.status in SUBMITTED_STATUSES && EventTime(l) >= since
  }

  function SelectLogs(table: seq<SendLog>, project: int, since: int): seq<SendLog> {
    OrderBy(Where(table, (l: SendLog) => SelectsLog(l, project, since)), (l: SendLog) => (EventTime(l), l.id, 0))
  }

  predicate SelectsRow(r: LedgerRow, project: int, since: int) {
    r.project == project && r.sentAt >= since - MATCH_WINDOW
  }

  function SelectLedger(table: seq<LedgerRow>, project: int, since: int): seq<LedgerRow> {
    OrderBy(Where(table, (r: LedgerRow) => SelectsRow(r, project, since)), (r: LedgerRow) => (r.sentAt, r.id, 0))
  }

  lemma SelectLogsMembers(table: seq<SendLog>, project: int, since: int)
    ensures forall l :: l in SelectLogs(table, project, since) <==> l in table && SelectsLog(l, project, since)
  {
    OrderByMembers(Where(table, (l: SendLog) => SelectsLog(l, project, since)), (l: SendLog) => (EventTime(l), l.id, 0));
  }

  lemma SelectLedgerMembers(table: seq<LedgerRow>, project: int, since: int)
    ensures forall r :: r in SelectLedger(table, project, since) <==> r in table && SelectsRow(r, project, since)
  {
    OrderByMembers(Where(table, (r: LedgerRow) => SelectsRow(r, project, since)), (r: LedgerRow) => (r.sentAt, r.id, 0));
  }

  /** Primary keys: the rows are distinct and an id names one row. */
  ghost predicate KeyedLogs(logs: seq<SendLog>) {
    Distinct(logs) && forall x, y :: x in logs && y in logs && x.id == y.id ==> x == y
  }

  ghost predicate KeyedRows(rows: seq<LedgerRow>) {
    Distinct(rows) && forall x, y :: x in rows && y in rows && x.id == y.id ==> x == y
  }

  lemma SelectLogsKeyed(table: seq<SendLog>, project: int, since: int)
    requires KeyedLogs(table)
    ensures KeyedLogs(SelectLogs(table, project, since))
  {
    var kept := Where(table, (l: SendLog) => SelectsLog(l, project, since));
    WhereDistinct(table, (l: SendLog) => SelectsLog(l, project, since));
    SelectLogsMembers(table, project, since);
    DistinctPermutation(kept, SelectLogs(table, project, since));
  }

  // ------------------------------------------------------------ the matcher

  /** The dictionary comprehension over `ledgers`: a later row wins. */
  function ExactIndex(rows: seq<LedgerRow>): map<Key, LedgerRow> {
    if rows == [] then map[]
    else
      var m := ExactIndex(Front(rows));
      if RowKey(Last(rows)).Some? then m[RowKey(Last(rows)).value := Last(rows)] else m
  }

  predicate InWindow(l: SendLog, r: LedgerRow) {
    -MATCH_WINDOW <= r.sentAt - EventTime(l) <= MATCH_WINDOW
  }

  predicate IsCandidate(l: SendLog, r: LedgerRow, used: set<int>)
    requires l.user.Some?
  {
    r.user == l.user.value && r.channel == l.channel && r.id !in used && InWindow(l, r)
  }

  function Candidates(l: SendLog, rows: seq<LedgerRow>, used: set<int>): (found: seq<LedgerRow>)
    requires l.user.Some?
    ensures forall r :: r in found <==> r in rows && IsCandidate(l, r, used)
  {
    Where(rows, (r: LedgerRow) => IsCandidate(l, r, used))
  }

  datatype Outcome = TooLong | Already(row: int) | Canonicalize(row: int) | Ambiguous | New

  function Decide(l: SendLog, rows: seq<LedgerRow>, used: set<int>): Outcome
    requires l.user.Some?
  {
    if |Source(l)| > MAX_SOURCE then TooLong
    else if LogKey(l) in ExactIndex(rows) then Already(ExactIndex(rows)[LogKey(l)].id)
    else
      var found := Candidates(l, rows, used);
      if |found| == 1 then Canonicalize(found[0].id)
      else if |found| > 1 then Ambiguous
      else New
  }

  /** The `used` set after these decisions. */
  function UsedBy(os: seq<Outcome>): set<int> {
    set o | o in os && (o.Already? || o.Canonicalize?) :: o.row
  }

  /** The decision for every log, in the order the query returns them. */
  function Plan(logs: seq<SendLog>, rows: seq<LedgerRow>): (os: seq<Outcome>)
    requires forall l :: l in logs ==> l.user.Some?
    ensures |os| == |logs|
  {
    if logs == [] then []
    else
      var os := Plan(Front(logs), rows);
      os + [Decide(Last(logs), rows, UsedBy(os))]
  }

  /** The (row, log) pairs to rewrite. */
  function Rewrites(logs: seq<SendLog>, os: seq<Outcome>): seq<(int, SendLog)>
    requires |os| == |logs|
  {
    if logs == [] then []
    else Rewrites(Front(logs), Front(os)) + (if Last(os).Canonicalize? then [(Last(os).row, Last(logs))] else [])
  }

  /** The logs that get a ledger row of their own. */
  function Creations(logs: seq<SendLog>, os: seq<Outcome>): seq<SendLog>
    requires |os| == |logs|
  {
    if logs == [] then []
    else Creations(Front(logs), Front(os)) + (if Last(os).New? then [Last(logs)] else [])
  }

  datatype Counts = Counts(tooLong: nat, already: nat, canonicalized: nat, ambiguous: nat, created: nat) {
    function Total(): nat { tooLong + already + canonicalized + ambiguous + created }
  }

  function Tally(os: seq<Outcome>): (c: Counts) {
    if os == [] then Counts(0, 0, 0, 0, 0)
    else
      var c := Tally(Front(os));
      match Last(os)
      case TooLong => c.(tooLong := c.tooLong + 1)
      case Already(_) => c.(already := c.already + 1)
      case Canonicalize(_) => c.(canonicalized := c.canonicalized + 1)
      case Ambiguous => c.(ambiguous := c.ambiguous + 1)
      case New => c.(created := c.created + 1)
  }

  /** Conservation: every log meets exactly one of the five outcomes. */
  lemma {:induction false} TallyTotal(os: seq<Outcome>)
    ensures Tally(os).Total() == |os|
  {
    if os != [] {
      TallyTotal(Front(os));
    }
  }

  type Contact = (int, string)

  function ContactOf(r: LedgerRow): Contact { (r.user, r.channel) }

  /** The `exact` dictionary. */
  method IndexLedger(ledgers: seq<LedgerRow>) returns (exact: map<Key, LedgerRow>)
    ensures exact == ExactIndex(ledgers)
  {
    exact := map[];
    for i := 0 to |ledgers|
      invariant exact == ExactIndex(ledgers[..i])
    {
      FrontOfPrefix(ledgers, i);
      if RowKey(ledgers[i]).Some? {
        exact := exact[RowKey(ledgers[i]).value := ledgers[i]];
      }
    }
    assert ledgers[..|ledgers|] == ledgers;
  }

  function Unused(l: SendLog, rows: seq<LedgerRow>, used: set<int>): seq<LedgerRow> {
    Where(rows, (r: LedgerRow) => r.id !in used && InWindow(l, r))
  }

  /** The matching loop: one pass over the logs with a growing `used` set. */
  method PlanLedger(logs: seq<SendLog>, ledgers: seq<LedgerRow>)
    returns (counts: Counts, creations: seq<SendLog>, rewrites: seq<(int, SendLog)>)
    requires forall l :: l in logs ==> l.user.Some?
    ensures rewrites == Rewrites(logs, Plan(logs, ledgers))
    ensures creations == Creations(logs, Plan(logs, ledgers))
    ensures counts == Tally(Plan(logs, ledgers)) && counts.Total() == |logs|
  {
    var exact := IndexLedger(ledgers);
    var byContact := GroupBy(ledgers, ContactOf);
    var used: set<int> := {};
    ghost var os: seq<Outcome> := [];
    counts, creations, rewrites := Counts(0, 0, 0, 0, 0), [], [];
    for i := 0 to |logs|
      invariant os == Plan(logs[..i], ledgers) && used == UsedBy(os)
      invariant rewrites == Rewrites(logs[..i], os)
      invariant creations == Creations(logs[..i], os)
      invariant counts == Tally(os)
    {
      var log := logs[i];
      PlanStep(logs, ledgers, i);
      CandidatesByContact(log, ledgers, used);
      if |Source(log)| > MAX_SOURCE {
        os := os + [TooLong];
        counts := counts.(tooLong := counts.tooLong + 1);
      } else if LogKey(log) in exact {
        os := os + [Already(exact[LogKey(log)].id)];
        used := used + {exact[LogKey(log)].id};
        counts := counts.(already := counts.already + 1);
      } else {
        var matches := Unused(log, Group(byContact, (log.user.value, log.channel)), used);
        if |matches| == 1 {
          os := os + [Canonicalize(matches[0].id)];
          used := used + {matches[0].id};
          rewrites := rewrites + [(matches[0].id, log)];
          counts := counts.(canonicalized := counts.canonicalized + 1);
        } else if |matches| > 1 {
          os := os + [Ambiguous];
          counts := counts.(ambiguous := counts.ambiguous + 1);
        } else {
          os := os + [New];
          creations := creations + [log];
          counts := counts.(created := counts.created + 1);
        }
      }
    }
    assert logs[..|logs|] == logs;
    TallyTotal(os);
  }

  /** What one turn of the loop adds to each accumulator. */
  lemma PlanStep(logs: seq<SendLog>, ledgers: seq<LedgerRow>, i: nat)
    requires forall l :: l in logs ==> l.user.Some?
    requires i < |logs|
    ensures var os := Plan(logs[..i], ledgers);
      var o := Decide(logs[i], ledgers, UsedBy(os));
      && Plan(logs[..i + 1], ledgers) == os + [o]
      && UsedBy(os + [o]) == (if o.Already? || o.Canonicalize? then UsedBy(os) + {o.row} else UsedBy(os))
      && Rewrites(logs[..i + 1], os + [o]) ==
         (if o.Canonicalize? then Rewrites(logs[..i], os) + [(o.row, logs[i])] else Rewrites(logs[..i], os))
      && Creations(logs[..i + 1], os + [o]) ==
         (if o.New? then Creations(logs[..i], os) + [logs[i]] else Creations(logs[..i], os))
      && Front(os + [o]) == os && Last(os + [o]) == o
  {
    var os := Plan(logs[..i], ledgers);
    var o := Decide(logs[i], ledgers, UsedBy(os));
    FrontOfPrefix(logs, i);
    FrontOfSnoc(os, o);
    UsedBySnoc(os, o);
  }

  lemma UsedBySnoc(os: seq<Outcome>, o: Outcome)
    ensures UsedBy(os + [o]) == UsedBy(os) + (if o.Already? || o.Canonicalize? then {o.row} else {})
  {
    assert forall x :: x in os + [o] <==> x in os || x == o;
  }

  /** Filtering one contact's group is filtering the whole table. */
  lemma {:induction false} CandidatesByContact(l: SendLog, rows: seq<LedgerRow>, used: set<int>)
    requires l.user.Some?
    ensures Unused(l, Having(rows, ContactOf, (l.user.value, l.channel)), used) == Candidates(l, rows, used)
  {
    if rows != [] {
      CandidatesByContact(l, rows[1..], used);
    }
  }
}
