/** When the ledger matcher takes a row that records another log, read off the
    logs and the ledger before planning; and what an already-canonical log's row
    says of the log's time. */
module LedgerContention {
  import opened Common
  import opened LedgerPlan
  import opened LedgerParity

  /** The matcher would look for a row for this log. */
  predicate Searches(d: Run, i: nat)
    requires i < |d.logs| && d.logs[i].user.Some?
  {
    |Source(d.logs[i])| <= MAX_SOURCE && LogKey(d.logs[i]) !in ExactIndex(d.rows)
  }

  /** The row that already records this log. */
  predicate Recorded(d: Run, i: nat)
    requires i < |d.logs| && d.logs[i].user.Some?
  {
    |Source(d.logs[i])| <= MAX_SOURCE && LogKey(d.logs[i]) in ExactIndex(d.rows)
  }

  /** Log i would look for a row, and the row that records the later log j is of
      its contact and in its window. */
  ghost predicate Contends(d: Run, i: int, j: int)
    requires d.Valid()
  {
    0 <= i < j < |d.logs| && Searches(d, i) && Recorded(d, j) && IsCandidate(d.logs[i], ExactIndex(d.rows)[LogKey(d.logs[j])], {})
  }

  ghost predicate Uncontended(d: Run)
    requires d.Valid()
  {
    forall i, j :: !Contends(d, i, j)
  }

  lemma VerdictOf(d: Run, i: nat)
    requires d.Valid() && i < |d.logs|
    ensures d.Outcomes()[i].Canonicalize? ==> Searches(d, i)
    ensures d.Outcomes()[i].Already? <==> Recorded(d, i)
    ensures d.Outcomes()[i].Already? ==> d.Outcomes()[i].row == ExactIndex(d.rows)[LogKey(d.logs[i])].id
  {
    PlanAt(d.logs, d.rows, i);
  }

  /** A row is only ever taken from a later log: an earlier one has claimed its
      own already. */
  lemma TheftIsContention(d: Run, i: nat, j: nat)
    requires d.Valid() && i < |d.logs| && j < |d.logs|
    requires d.Outcomes()[i].Canonicalize? && d.Outcomes()[j].Already? && d.Outcomes()[i].row == d.Outcomes()[j].row
    ensures Contends(d, i, j)
  {
    var r := CanonicalizeMeans(d.logs, d.rows, i);
    VerdictOf(d, i);
    VerdictOf(d, j);
    ExactIndexMeaning(d.rows, LogKey(d.logs[j]));
    var x := ExactIndex(d.rows)[LogKey(d.logs[j])];
    assert x in d.table && r in d.table && x.id == r.id;
    SameRow(d.table, x, r);
  }

  lemma SameRow(table: seq<LedgerRow>, x: LedgerRow, r: LedgerRow)
    requires KeyedRows(table) && x in table && r in table && x.id == r.id
    ensures x == r
  {
  }

  /** Without contention, which logs and ledger show before anything is planned,
      every planned log ends with a row of its own that carries its key. */
  lemma UncontendedIsSafe(d: Run)
    requires d.Valid() && Uncontended(d)
    ensures NoTheft(d.Outcomes()) && AllCarried(d) && AssignsDistinctRows(d)
  {
    hide AllCarried, AssignsDistinctRows, Contends;
    var os := d.Outcomes();
    forall i, j | 0 <= i < |os| && 0 <= j < |os| && os[i].Canonicalize? && os[j].Already? ensures os[i].row != os[j].row {
      if os[i].row == os[j].row { TheftIsContention(d, i, j); }
    }
    ParityIff(d);
    InjectiveIff(d);
  }

  /** No log has a choice of rows. */
  ghost predicate OneInWindow(d: Run)
    requires d.Valid()
  {
    forall i :: 0 <= i < |d.logs| && Searches(d, i) ==> |Candidates(d.logs[i], d.rows, {})| <= 1
  }

  /** Where no log has a choice of rows, absence of contention is exactly what
      parity needs. */
  lemma ParityByInput(d: Run)
    requires d.Valid() && OneInWindow(d)
    ensures AllCarried(d) <==> Uncontended(d)
  {
    hide AllCarried, Contends;
    ParityIff(d);
    if Uncontended(d) { UncontendedIsSafe(d); }
    if i, j :| Contends(d, i, j) { ContentionIsTheft(d, i, j); }
  }

  lemma ContentionIsTheft(d: Run, i: int, j: int)
    requires d.Valid() && OneInWindow(d) && Contends(d, i, j)
    ensures !NoTheft(d.Outcomes())
  {
    hide ExactIndex, Plan;
    var os, l, r := d.Outcomes(), d.logs[i], ExactIndex(d.rows)[LogKey(d.logs[j])];
    var used := UsedBy(os[..i]);
    PlanAt(d.logs, d.rows, i);
    VerdictOf(d, j);
    ExactIndexMeaning(d.rows, LogKey(d.logs[j]));
    if r.id in used {
      var o :| o in os[..i] && (o.Already? || o.Canonicalize?) && o.row == r.id;
      var k :| 0 <= k < i && os[k] == o;
      if o.Already? { OneOwner(d, k, j); }
    } else {
      OnlyCandidate(l, d.rows, used, r);
    }
  }

  /** Two recorded logs do not share a row. */
  lemma OneOwner(d: Run, k: nat, j: nat)
    requires d.Valid() && k < |d.logs| && j < |d.logs| && d.Outcomes()[k].Already? && d.Outcomes()[j].Already?
    requires d.Outcomes()[k].row == d.Outcomes()[j].row
    ensures k == j
  {
    var a := AlreadyRow(d, k);
    var b := AlreadyRow(d, j);
    SameRow(d.table, a, b);
    if k != j { DifferentKeys(d.logs, k, j); }
  }

  lemma OnlyCandidate(l: SendLog, rows: seq<LedgerRow>, used: set<int>, r: LedgerRow)
    requires l.user.Some? && |Candidates(l, rows, {})| <= 1 && r in rows && IsCandidate(l, r, {}) && r.id !in used
    ensures Candidates(l, rows, used) == [r]
  {
    var all, unused := (x: LedgerRow) => IsCandidate(l, x, {}), (x: LedgerRow) => x.id !in used;
    WhereRefined(rows, all, (x: LedgerRow) => IsCandidate(l, x, used), unused);
    assert r in Candidates(l, rows, {});
    assert Candidates(l, rows, {}) == [r];
    assert Where([r], unused) == [r] + Where([r][1..], unused);
  }

  /** Whatever else is in the tables, a log whose only unused candidate is the
      row that records another log takes it, and parity fails. */
  lemma TheftWhenever(d: Run, i: nat, j: nat)
    requires d.Valid() && i < |d.logs| && j < |d.logs| && Searches(d, i) && Recorded(d, j)
    requires Candidates(d.logs[i], d.rows, UsedBy(d.Outcomes()[..i])) == [ExactIndex(d.rows)[LogKey(d.logs[j])]]
    ensures d.Outcomes()[j].Already? && d.Outcomes()[i] == Canonicalize(d.Outcomes()[j].row)
    ensures !AllCarried(d) && !AssignsDistinctRows(d) && i < j
  {
    hide AllCarried, AssignsDistinctRows, Contends;
    PlanAt(d.logs, d.rows, i);
    VerdictOf(d, j);
    ParityIff(d);
    InjectiveIff(d);
    TheftIsContention(d, i, j);
    EarlierOnly(d, i, j);
  }

  lemma EarlierOnly(d: Run, i: int, j: int)
    requires d.Valid() && Contends(d, i, j)
    ensures i < j
  {
  }

  // ---------------------------------------------------- the row's own time

  /** A log that the first run wrote is found again under a row that records
      it, time included. */
  lemma WrittenStaysRecorded(d: Run, i: nat) returns (r: LedgerRow)
    requires d.Valid() && i < |d.logs| && Written(d.Outcomes()[i])
    ensures d.Again().Valid() && d.Again().Outcomes()[i].Already?
    ensures r in d.After() && r.id == d.Again().Outcomes()[i].row && Records(r, d.logs[i], d.project)
  {
    AgainIsValid(d);
    KnownAgain(d, i);
    SecondVerdict(d, i);
    VerdictKind(d.logs, d.rows, i);
    r := AlreadyRow(d.Again(), i);
    var k :| 0 <= k < |d.After()| && d.After()[k] == r;
    RowOrigin(d, k);
    SelectLedgerMembers(d.After(), d.project, d.since);
    ExactIndexMeaning(d.rows, LogKey(d.logs[i]));
    if FromLog(d, r) { OwnerOf(d, r, i); }
  }

  /** An already-canonical log's row is told by its key alone: the planner leaves
      it as it is, so it records the log's time exactly when it did before. A
      row of an unrelated send that carries the id in the same source passes. */
  lemma AlreadyIgnoresTime(d: Run, i: nat) returns (r: LedgerRow)
    requires d.Valid() && i < |d.logs| && d.Outcomes()[i].Already? && d.Outcomes()[i].row !in Rewritten(d.Outcomes())
    ensures r in d.rows && r in d.After() && r.id == d.Outcomes()[i].row && RowKey(r) == Some(LogKey(d.logs[i]))
    ensures Records(r, d.logs[i], d.project) <==> r.sentAt == EventTime(d.logs[i])
  {
    r := AlreadyRow(d, i);
    UntouchedRow(d, r);
  }
}
