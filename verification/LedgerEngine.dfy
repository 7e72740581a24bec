/** The engine's parity report over the ledger that an apply run leaves: which
    logs it counts as matched, when its ratio is one, and its duplicate keys,
    read off the logs and the ledger before planning. */
module LedgerEngine {
  import opened Common
  import opened LedgerPlan
  import opened LedgerParity
  import opened LedgerContention

  // --------------------------------------------------- which rows are taken

  /** The row is within the window of a log that needs one, and records no log
      itself. */
  ghost predicate Wanted(d: Run, r: LedgerRow)
    requires d.Valid()
  {
    && r in d.rows
    && (exists j :: 0 <= j < |d.logs| && Searches(d, j) && IsCandidate(d.logs[j], r, {}))
    && !RecordsSome(d, r)
  }

  ghost predicate RecordsSome(d: Run, r: LedgerRow)
    requires d.Valid()
  {
    exists k :: 0 <= k < |d.logs| && Recorded(d, k) && ExactIndex(d.rows)[LogKey(d.logs[k])] == r
  }

  /** Where no log has a choice and nothing is contended, the rows rewritten in
      place are exactly the wanted ones. */
  lemma RewrittenIff(d: Run, r: LedgerRow)
    requires d.Valid() && OneInWindow(d) && Uncontended(d) && r in d.table
    ensures r.id in Rewritten(d.Outcomes()) <==> Wanted(d, r)
  {
    hide Wanted, Uncontended, OneInWindow, RecordsSome;
    if r.id in Rewritten(d.Outcomes()) { RewrittenIsWanted(d, r); }
    if Wanted(d, r) { WantedIsRewritten(d, r); }
  }

  lemma RewrittenIsWanted(d: Run, r: LedgerRow)
    requires d.Valid() && Uncontended(d) && r in d.table && r.id in Rewritten(d.Outcomes())
    ensures Wanted(d, r)
  {
    hide Uncontended, ExactIndex, Plan;
    var os := d.Outcomes();
    var o :| o in os && o.Canonicalize? && o.row == r.id;
    var j :| 0 <= j < |os| && os[j] == o;
    var x := CanonicalizeMeans(d.logs, d.rows, j);
    SameRow(d.table, x, r);
    VerdictOf(d, j);
    assert Searches(d, j) && IsCandidate(d.logs[j], r, {});
    UncontendedIsSafe(d);
    forall k | 0 <= k < |d.logs| && Recorded(d, k) ensures ExactIndex(d.rows)[LogKey(d.logs[k])] != r { VerdictOf(d, k); }
  }

  lemma WantedIsRewritten(d: Run, r: LedgerRow)
    requires d.Valid() && OneInWindow(d) && Wanted(d, r)
    ensures r.id in Rewritten(d.Outcomes())
  {
    hide ExactIndex, Plan;
    var os := d.Outcomes();
    var j :| 0 <= j < |d.logs| && Searches(d, j) && IsCandidate(d.logs[j], r, {});
    var used := UsedBy(os[..j]);
    PlanAt(d.logs, d.rows, j);
    if r.id in used {
      var o :| o in os[..j] && (o.Already? || o.Canonicalize?) && o.row == r.id;
      var k :| 0 <= k < j && os[k] == o;
      if o.Already? { AlreadyIsRecorded(d, k, r); }
      assert o in os;
    } else {
      OnlyCandidate(d.logs[j], d.rows, used, r);
      assert os[j] in os;
    }
  }

  lemma AlreadyIsRecorded(d: Run, k: nat, r: LedgerRow)
    requires d.Valid() && k < |d.logs| && d.Outcomes()[k].Already? && d.Outcomes()[k].row == r.id && r in d.rows
    ensures RecordsSome(d, r)
  {
    VerdictOf(d, k);
    ExactIndexMeaning(d.rows, LogKey(d.logs[k]));
    SameRow(d.table, ExactIndex(d.rows)[LogKey(d.logs[k])], r);
  }

  // ------------------------------------------------------------ matched logs

  /** A source type that the ledger's column can hold and that is not blank. */
  predicate Ordinary(l: SendLog) { 0 < |l.sourceType| <= MAX_SOURCE }

  /** After apply the engine counts a log as matched if and only if its source
      type is ordinary, or an old row carries it as it is and is not wanted.
      Everything here can be read before planning. */
  lemma EngineMatchedByInput(d: Run, i: nat)
    requires d.Valid() && i < |d.logs| && OneInWindow(d) && Uncontended(d)
    ensures EngineMatched(d.logs[i], d.After())
      <==> Ordinary(d.logs[i]) || exists r :: r in d.table && EngineRow(r, d.logs[i]) && !Wanted(d, r)
  {
    hide OneInWindow, Uncontended, Wanted, EngineRow;
    var l := d.logs[i];
    EngineMatchedIff(d, i);
    forall r | r in d.table ensures r.id in Rewritten(d.Outcomes()) <==> Wanted(d, r) { RewrittenIff(d, r); }
    VerdictKind(d.logs, d.rows, i);
    if Ordinary(l) { OrdinaryIsMatched(d, i); }
  }

  lemma OrdinaryIsMatched(d: Run, i: nat)
    requires d.Valid() && i < |d.logs| && OneInWindow(d) && Uncontended(d) && Ordinary(d.logs[i])
    ensures EngineMatched(d.logs[i], d.After())
  {
    hide Uncontended;
    var o := d.Outcomes()[i];
    EngineMatchedIff(d, i);
    VerdictKind(d.logs, d.rows, i);
    if o.Already? {
      var r := AlreadyRow(d, i);
      UncontendedIsSafe(d);
      assert EngineRow(r, d.logs[i]) && r.id !in Rewritten(d.Outcomes());
    } else if o.Ambiguous? {
      NeverAmbiguous(d, i);
    }
  }

  lemma NeverAmbiguous(d: Run, i: nat)
    requires d.Valid() && i < |d.logs| && OneInWindow(d)
    ensures !d.Outcomes()[i].Ambiguous?
  {
    var l, used := d.logs[i], UsedBy(d.Outcomes()[..i]);
    PlanAt(d.logs, d.rows, i);
    FewerCandidates(l, d.rows, used);
  }

  lemma FewerCandidates(l: SendLog, rows: seq<LedgerRow>, used: set<int>)
    requires l.user.Some?
    ensures |Candidates(l, rows, used)| <= |Candidates(l, rows, {})|
  {
    var all, unused := (x: LedgerRow) => IsCandidate(l, x, {}), (x: LedgerRow) => x.id !in used;
    WhereRefined(rows, all, (x: LedgerRow) => IsCandidate(l, x, used), unused);
    WhereShrinks(Where(rows, all), unused);
  }

  lemma {:induction false} WhereShrinks<T>(rows: seq<T>, keep: T -> bool)
    ensures |Where(rows, keep)| <= |rows|
  {
    if rows != [] { WhereShrinks(rows[1..], keep); }
  }

  /** A row that the ledger's column allows and that is not blank. */
  ghost predicate RowsOrdinary(table: seq<LedgerRow>) { forall r :: r in table ==> 0 < |r.source| <= MAX_SOURCE }

  /** Over such rows the source type alone decides. */
  lemma OrdinaryIff(d: Run, i: nat)
    requires d.Valid() && i < |d.logs| && OneInWindow(d) && Uncontended(d) && RowsOrdinary(d.table)
    ensures EngineMatched(d.logs[i], d.After()) <==> Ordinary(d.logs[i])
  {
    hide OneInWindow, Uncontended, Wanted;
    EngineMatchedByInput(d, i);
  }

  /** The first kind of log the planner cannot serve: a source type wider than
      the ledger's column is skipped, and no row the column allows matches it. */
  lemma OverlongIsNeverMatched(d: Run, i: nat)
    requires d.Valid() && i < |d.logs| && |d.logs[i].sourceType| > MAX_SOURCE
    requires forall r :: r in d.table ==> |r.source| <= MAX_SOURCE
    ensures d.Outcomes()[i].TooLong? && !EngineMatched(d.logs[i], d.After())
  {
    EngineMatchedIff(d, i);
    VerdictKind(d.logs, d.rows, i);
  }

  /** The second: a blank source type is written as another one, so such a log
      is matched only by an old blank row that the plan leaves alone. */
  lemma BlankMatchedIff(d: Run, i: nat)
    requires d.Valid() && i < |d.logs| && d.logs[i].sourceType == ""
    ensures EngineMatched(d.logs[i], d.After()) <==> EngineSurvivor(d, d.logs[i])
  {
    EngineMatchedIff(d, i);
  }

  /** At one blank log and one blank row with its id: outside the window the log
      gets a row of its own and the old one matches it; inside, the old row is
      rewritten and nothing matches. */
  lemma BlankLogAndRow(l: SendLog, r: LedgerRow, since: int, nextId: int)
    requires var d := Run([l], [r], [r], l.project, since, nextId); d.Valid()
    requires l.sourceType == "" && EngineRow(r, l)
    ensures EngineMatched(l, Run([l], [r], [r], l.project, since, nextId).After()) <==> !InWindow(l, r)
  {
    hide OneInWindow, Uncontended, Wanted, EngineRow, EngineMatched, InWindow, Ordinary;
    var d := Run([l], [r], [r], l.project, since, nextId);
    OnePair(d, l, r);
    EngineMatchedByInput(d, 0);
    BlankIsNotOrdinary(l);
    assert forall x :: x in d.table ==> x == r;
  }

  lemma OnePair(d: Run, l: SendLog, r: LedgerRow)
    requires d.Valid() && d.logs == [l] && d.rows == [r] == d.table && l.sourceType == "" && EngineRow(r, l)
    ensures OneInWindow(d) && Uncontended(d) && (Wanted(d, r) <==> InWindow(l, r))
  {
    hide InWindow, Source;
    NotRecorded(l, r);
    assert d.logs[0] == l && r in d.rows;
    assert Searches(d, 0) && !Recorded(d, 0);
    WhereShrinks([r], (x: LedgerRow) => IsCandidate(l, x, {}));
  }

  lemma NotRecorded(l: SendLog, r: LedgerRow)
    requires l.user.Some? && l.sourceType == "" && EngineRow(r, l)
    ensures LogKey(l) !in ExactIndex([r]) && |Source(l)| <= MAX_SOURCE
  {
    ExactIndexMeaning([r], LogKey(l));
    assert RowKey(r) != Some(LogKey(l));
  }

  lemma BlankIsNotOrdinary(l: SendLog)
    requires l.sourceType == ""
    ensures !Ordinary(l)
  {
  }

  // --------------------------------------------------------------- the ratio

  const WEEK := 7 * 86_400 * 1_000_000

  /** The logs the engine expects in the ledger: its time is the send time or,
      without one, the queue time; a delivery time alone does not count. */
  predicate Expected(l: SendLog, project: int, now: int) {
    l.project == project && l.user.Some? && l.status in SUBMITTED_STATUSES
    && (if l.sentAt.Some? then l.sentAt.value else l.queuedAt) >= now - WEEK
  }

  /** The ratio of the report is one: every expected log is matched. */
  ghost predicate AllMatched(table: seq<SendLog>, project: int, now: int, ledger: seq<LedgerRow>) {
    forall l :: l in table && Expected(l, project, now) ==> EngineMatched(l, ledger)
  }

  /** The planner looks back at least a week; it misses an expected log exactly
      when that log was not sent but was delivered before the start. */
  lemma ExpectedIsPlanned(l: SendLog, project: int, now: int, since: int)
    requires Expected(l, project, now) && since <= now - WEEK
    ensures SelectsLog(l, project, since) <==> l.sentAt.Some? || l.deliveredAt.None? || l.deliveredAt.value >= since
  {
  }

  /** The problem that a planning run over whole tables poses. */
  function Problem(table: seq<SendLog>, ledger: seq<LedgerRow>, project: int, since: int, nextId: int): Run {
    Run(SelectLogs(table, project, since), SelectLedger(ledger, project, since), ledger, project, since, nextId)
  }

  /** After apply the engine's ratio is one if and only if every log it expects
      has an ordinary source type. */
  lemma RatioIsOneIff(table: seq<SendLog>, ledger: seq<LedgerRow>, project: int, since: int, nextId: int, now: int)
    requires var d := Problem(table, ledger, project, since, nextId);
      d.Valid() && OneInWindow(d) && Uncontended(d) && RowsOrdinary(ledger)
    requires since <= now - WEEK
    requires forall l :: l in table && Expected(l, project, now) ==> l.sentAt.Some? || l.deliveredAt.None? || l.deliveredAt.value >= since
    ensures AllMatched(table, project, now, Problem(table, ledger, project, since, nextId).After())
      <==> forall l :: l in table && Expected(l, project, now) ==> Ordinary(l)
  {
    hide OneInWindow, Uncontended, RowsOrdinary, Ordinary, EngineMatched, SelectsLog;
    var d := Problem(table, ledger, project, since, nextId);
    SelectLogsMembers(table, project, since);
    forall l | l in table && Expected(l, project, now) ensures EngineMatched(l, d.After()) <==> Ordinary(l) {
      ExpectedIsPlanned(l, project, now, since);
      var i :| 0 <= i < |d.logs| && d.logs[i] == l;
      OrdinaryIff(d, i);
    }
  }

  // ---------------------------------------------------------- duplicate keys

  /** What the engine groups by. */
  predicate SameEngineKey(a: LedgerRow, b: LedgerRow) {
    a.project == b.project && a.sourceId.Some? && a.sourceId == b.sourceId && a.source == b.source && a.user == b.user && a.channel == b.channel
  }

  /** Apply adds no duplicate to the report, nor to any window that starts no
      earlier than the planner's: two rows of the window that share a key
      afterwards are two old rows that it left alone. */
  lemma NoNewDuplicates(d: Run, a: LedgerRow, b: LedgerRow)
    requires d.Valid() && a in d.After() && b in d.After() && a.id != b.id && SameEngineKey(a, b)
    requires SelectsRow(a, d.project, d.since) && SelectsRow(b, d.project, d.since)
    ensures a in d.rows && b in d.rows && a.id !in Rewritten(d.Outcomes()) && b.id !in Rewritten(d.Outcomes())
  {
    OldOrWritten(d, a);
    OldOrWritten(d, b);
    if FromLog(d, a) { LoneKey(d, a, b); } else if FromLog(d, b) { LoneKey(d, b, a); }
  }

  lemma OldOrWritten(d: Run, r: LedgerRow)
    requires d.Valid() && r in d.After()
    ensures FromLog(d, r) || (r in d.table && r.id !in Rewritten(d.Outcomes()))
  {
    var k :| 0 <= k < |d.After()| && d.After()[k] == r;
    RowOrigin(d, k);
  }

  /** No other row of the window carries the key of a written row. */
  lemma LoneKey(d: Run, a: LedgerRow, b: LedgerRow)
    requires d.Valid() && a in d.After() && b in d.After() && FromLog(d, a) && SameEngineKey(a, b) && SelectsRow(b, d.project, d.since)
    ensures a.id == b.id
  {
    var i :| 0 <= i < |d.logs| && Written(d.Outcomes()[i]) && Records(a, d.logs[i], d.project);
    assert RowKey(b) == Some(LogKey(d.logs[i]));
    VerdictKind(d.logs, d.rows, i);
    ExactIndexMeaning(d.rows, LogKey(d.logs[i]));
    OldOrWritten(d, b);
    OneRowPerLog(d, i, a);
    OneRowPerLog(d, i, b);
  }

  /** The log that a created row was created for. */
  lemma {:induction false} CreatedFor(logs: seq<SendLog>, os: seq<Outcome>, c: nat) returns (i: nat)
    requires |os| == |logs| && c < |Creations(logs, os)|
    ensures i < |os| && os[i].New? && logs[i] == Creations(logs, os)[c] && Rank(logs, os, i) == c
  {
    var n, early := |logs| - 1, Creations(Front(logs), Front(os));
    if c < |early| {
      i := CreatedFor(Front(logs), Front(os), c);
      assert logs[..i] == Front(logs)[..i] && os[..i] == Front(os)[..i];
    } else {
      i := n;
      assert logs[..n] == Front(logs) && os[..n] == Front(os);
    }
  }

  /** A row of the window under a written log's key is the one assigned to it. */
  lemma OneRowPerLog(d: Run, i: nat, r: LedgerRow)
    requires d.Valid() && i < |d.logs| && Written(d.Outcomes()[i]) && r in d.After()
    requires SelectsRow(r, d.project, d.since) && RowKey(r) == Some(LogKey(d.logs[i]))
    ensures r.id == Assigned(d, i)
  {
    hide ExactIndex, Plan, Decide, Rewrites, ApplyRewrites, ApplyCreations;
    var k :| 0 <= k < |d.After()| && d.After()[k] == r;
    Shape(d);
    if k < |d.table| { RewrittenRow(d, i, k); } else { CreatedRow(d, i, k); }
  }

  lemma RewrittenRow(d: Run, i: nat, k: nat)
    requires d.Valid() && i < |d.logs| && Written(d.Outcomes()[i]) && k < |d.table| <= |d.After()|
    requires var r := d.After()[k]; SelectsRow(r, d.project, d.since) && RowKey(r) == Some(LogKey(d.logs[i]))
    ensures d.After()[k].id == Assigned(d, i)
  {
    hide Plan, Decide, ExactIndex, Rewrites, Creations, ApplyRewrites, ApplyCreations;
    var os := d.Outcomes();
    Shape(d);
    RewrittenAt(d.table, d.logs, os, k);
    if d.table[k].id in Rewritten(os) {
      var j :| 0 <= j < |os| && os[j] == Canonicalize(d.table[k].id);
      var row := CanonicalizeMeans(d.logs, d.rows, j);
      SameRow(d.table, row, d.table[k]);
      assert Records(d.After()[k], d.logs[j], d.project);
      if j != i { DifferentKeys(d.logs, j, i); }
    } else {
      assert forall j :: 0 <= j < |os| ==> os[j] in os;
      VerdictKind(d.logs, d.rows, i);
      ExactIndexMeaning(d.rows, LogKey(d.logs[i]));
    }
  }

  lemma CreatedRow(d: Run, i: nat, k: nat)
    requires d.Valid() && i < |d.logs| && Written(d.Outcomes()[i]) && |d.table| <= k < |d.After()|
    requires RowKey(d.After()[k]) == Some(LogKey(d.logs[i]))
    ensures d.After()[k].id == Assigned(d, i)
  {
    hide Plan, Decide, ExactIndex, Rewrites, ApplyRewrites, ApplyCreations;
    Shape(d);
    var j := CreatedFor(d.logs, d.Outcomes(), k - |d.table|);
    if j != i { DifferentKeys(d.logs, j, i); }
  }

  /** In the whole table apply adds a second row with a written log's key exactly
      when a row that the planner's query did not return carries that key. */
  lemma SecondRowIff(d: Run, i: nat)
    requires d.Valid() && i < |d.logs| && Written(d.Outcomes()[i])
    ensures (exists r :: r in d.After() && r.id != Assigned(d, i) && RowKey(r) == Some(LogKey(d.logs[i])))
      <==> exists r :: r in d.table && !SelectsRow(r, d.project, d.since) && RowKey(r) == Some(LogKey(d.logs[i]))
  {
    hide ExactIndex, Plan;
    var key := Some(LogKey(d.logs[i]));
    if r :| r in d.table && !SelectsRow(r, d.project, d.since) && RowKey(r) == key {
      UnselectedStays(d, r);
      var w := WrittenRow(d, i);
      if r.id == w.id { AfterIsKeyed(d); }
    }
    if r :| r in d.After() && r.id != Assigned(d, i) && RowKey(r) == key {
      if SelectsRow(r, d.project, d.since) { OneRowPerLog(d, i, r); }
      OldOrWritten(d, r);
    }
  }

  lemma UnselectedStays(d: Run, r: LedgerRow)
    requires d.Valid() && r in d.table && !SelectsRow(r, d.project, d.since)
    ensures r in d.After()
  {
    hide ExactIndex, Plan;
    var os := d.Outcomes();
    if r.id in Rewritten(os) {
      var o :| o in os && o.Canonicalize? && o.row == r.id;
      var j :| 0 <= j < |os| && os[j] == o;
      var x := CanonicalizeMeans(d.logs, d.rows, j);
      SameRow(d.table, x, r);
    }
    UntouchedRow(d, r);
  }
}
