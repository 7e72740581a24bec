/** What applying a ledger plan achieves: which logs end up with a ledger row
    of their own, and when a second run finds nothing left to do. */
module LedgerParity {
  import opened Common
  import opened LedgerPlan

  // ------------------------------------------------------------ apply phase

  function Rewrite(r: LedgerRow, l: SendLog): LedgerRow {
    r.(source := Source(l), sourceId := Some(Decimal(l.id)), sentAt := EventTime(l))
  }

  /** One in-place rewrite: the row with this id takes the log's key and time. */
  function SetRow(table: seq<LedgerRow>, id: int, l: SendLog): seq<LedgerRow> {
    seq(|table|, k requires 0 <= k < |table| => if table[k].id == id then Rewrite(table[k], l) else table[k])
  }

  function ApplyRewrites(table: seq<LedgerRow>, rewrites: seq<(int, SendLog)>): (t: seq<LedgerRow>)
    ensures |t| == |table|
  {
    if rewrites == [] then table
    else SetRow(ApplyRewrites(table, Front(rewrites)), Last(rewrites).0, Last(rewrites).1)
  }

  function NewRow(l: SendLog, project: int, id: int): LedgerRow
    requires l.user.Some?
  {
    LedgerRow(id, project, l.user.value, l.channel, Source(l), Some(Decimal(l.id)), EventTime(l))
  }

  function ApplyCreations(table: seq<LedgerRow>, creations: seq<SendLog>, project: int, nextId: int): seq<LedgerRow>
    requires forall l :: l in creations ==> l.user.Some?
  {
    if creations == [] then table
    else
      ApplyCreations(table, Front(creations), project, nextId)
      + [NewRow(Last(creations), project, nextId + |creations| - 1)]
  }

  lemma {:induction false} CreationsAreLogs(logs: seq<SendLog>, os: seq<Outcome>)
    requires |os| == |logs|
    ensures forall l :: l in Creations(logs, os) ==> l in logs
  {
    if logs != [] { CreationsAreLogs(Front(logs), Front(os)); }
  }

  /** One planning-and-apply problem: the logs and the ledger rows its queries
      return, the whole ledger table, and the next id of the table. */
  datatype Run = Run(logs: seq<SendLog>, rows: seq<LedgerRow>, table: seq<LedgerRow>, project: int, since: int, nextId: int) {

    ghost predicate Valid() {
      && KeyedLogs(logs) && (forall l :: l in logs ==> l.user.Some? && l.project == project && EventTime(l) >= since)
      && (forall r :: r in rows <==> r in table && SelectsRow(r, project, since))
      && KeyedRows(table) && forall r :: r in table ==> r.id < nextId
    }

    function Outcomes(): (os: seq<Outcome>)
      requires forall l :: l in logs ==> l.user.Some?
      ensures |os| == |logs|
    {
      Plan(logs, rows)
    }

    function After(): seq<LedgerRow>
      requires forall l :: l in logs ==> l.user.Some?
    {
      CreationsAreLogs(logs, Outcomes());
      ApplyCreations(ApplyRewrites(table, Rewrites(logs, Outcomes())), Creations(logs, Outcomes()), project, nextId)
    }

    /** The same problem after the apply phase, with the queries run again. */
    function Again(): Run
      requires forall l :: l in logs ==> l.user.Some?
    {
      Run(logs, SelectLedger(After(), project, since), After(), project, since, nextId + |Creations(logs, Outcomes())|)
    }
  }

  // -------------------------------------------------------- facts of a plan

  lemma {:induction false} PlanAt(logs: seq<SendLog>, rows: seq<LedgerRow>, i: nat)
    requires forall l :: l in logs ==> l.user.Some?
    requires i < |logs|
    ensures Plan(logs, rows)[i] == Decide(logs[i], rows, UsedBy(Plan(logs, rows)[..i]))
  {
    var os := Plan(Front(logs), rows);
    if i < |logs| - 1 {
      PlanAt(Front(logs), rows, i);
      assert Plan(logs, rows)[..i] == os[..i];
    } else {
      assert Plan(logs, rows)[..i] == os;
    }
  }

  /** Which verdicts depend on the log and the dictionary alone. */
  lemma VerdictKind(logs: seq<SendLog>, rows: seq<LedgerRow>, i: nat)
    requires forall l :: l in logs ==> l.user.Some?
    requires i < |logs|
    ensures var o := Plan(logs, rows)[i];
      && (o.TooLong? <==> |Source(logs[i])| > MAX_SOURCE)
      && (o.Already? <==> !o.TooLong? && LogKey(logs[i]) in ExactIndex(rows))
  {
    PlanAt(logs, rows, i);
  }

  /** The dictionary knows a key exactly when some row carries it. */
  lemma {:induction false} ExactIndexMeaning(rows: seq<LedgerRow>, k: Key)
    ensures k in ExactIndex(rows) <==> exists r :: r in rows && RowKey(r) == Some(k)
    ensures k in ExactIndex(rows) ==> ExactIndex(rows)[k] in rows && RowKey(ExactIndex(rows)[k]) == Some(k)
  {
    if rows != [] {
      ExactIndexMeaning(Front(rows), k);
      assert forall r :: r in rows <==> r in Front(rows) || r == Last(rows);
    }
  }

  /** A canonicalized row lies in the log's window and belongs to its contact,
      and no earlier log of the run uses it. */
  lemma CanonicalizeMeans(logs: seq<SendLog>, rows: seq<LedgerRow>, i: nat) returns (r: LedgerRow)
    requires forall l :: l in logs ==> l.user.Some?
    requires i < |logs| && Plan(logs, rows)[i].Canonicalize?
    ensures r in rows && r.id == Plan(logs, rows)[i].row
    ensures r.user == logs[i].user.value && r.channel == logs[i].channel && InWindow(logs[i], r)
    ensures var l := logs[i];
      && (l.sentAt.Some? ==> -5_000_000 <= r.sentAt - l.sentAt.value <= 5_000_000)
      && (l.sentAt.None? && l.deliveredAt.Some? ==> -5_000_000 <= r.sentAt - l.deliveredAt.value <= 5_000_000)
      && (l.sentAt.None? && l.deliveredAt.None? ==> -5_000_000 <= r.sentAt - l.queuedAt <= 5_000_000)
    ensures LogKey(logs[i]) !in ExactIndex(rows)
    ensures forall j :: 0 <= j < i && (Plan(logs, rows)[j].Canonicalize? || Plan(logs, rows)[j].Already?) ==>
      Plan(logs, rows)[j].row != r.id
  {
    PlanAt(logs, rows, i);
    var os := Plan(logs, rows);
    r := Candidates(logs[i], rows, UsedBy(os[..i]))[0];
    assert IsCandidate(logs[i], r, UsedBy(os[..i]));
    forall j | 0 <= j < i && (os[j].Canonicalize? || os[j].Already?) ensures os[j].row != r.id {
      assert os[..i][j] == os[j];
      assert os[j].row in UsedBy(os[..i]);
    }
  }

  lemma DifferentKeys(logs: seq<SendLog>, i: nat, j: nat)
    requires KeyedLogs(logs) && forall l :: l in logs ==> l.user.Some?
    requires i < |logs| && j < |logs| && i != j
    ensures LogKey(logs[i]) != LogKey(logs[j])
  {
    assert logs[i] != logs[j];
    if LogKey(logs[i]) == LogKey(logs[j]) {
      DecimalInjective(logs[i].id, logs[j].id);
    }
  }

  ghost predicate DistinctRewrites(os: seq<Outcome>) {
    forall i, j :: 0 <= i < j < |os| && os[i].Canonicalize? && os[j].Canonicalize? ==> os[i].row != os[j].row
  }

  lemma RewritesAreDistinct(logs: seq<SendLog>, rows: seq<LedgerRow>)
    requires forall l :: l in logs ==> l.user.Some?
    ensures DistinctRewrites(Plan(logs, rows))
  {
    var os := Plan(logs, rows);
    forall i, j | 0 <= i < j < |os| && os[i].Canonicalize? && os[j].Canonicalize? ensures os[i].row != os[j].row {
      var _ := CanonicalizeMeans(logs, rows, j);
    }
  }

  // ------------------------------------------------------ the applied table

  lemma RewritesStep(table: seq<LedgerRow>, logs: seq<SendLog>, os: seq<Outcome>)
    requires |os| == |logs|
    ensures logs == [] ==> ApplyRewrites(table, Rewrites(logs, os)) == table
    ensures logs != [] ==>
      var early := ApplyRewrites(table, Rewrites(Front(logs), Front(os)));
      ApplyRewrites(table, Rewrites(logs, os)) == if Last(os).Canonicalize? then SetRow(early, Last(os).row, Last(logs)) else early
  {
    if logs != [] {
      var early := Rewrites(Front(logs), Front(os));
      if Last(os).Canonicalize? {
        RewriteSnoc(table, early, (Last(os).row, Last(logs)));
      } else {
        assert Rewrites(logs, os) == early;
      }
    }
  }

  lemma RewriteSnoc(table: seq<LedgerRow>, rewrites: seq<(int, SendLog)>, last: (int, SendLog))
    ensures ApplyRewrites(table, rewrites + [last]) == SetRow(ApplyRewrites(table, rewrites), last.0, last.1)
  {
    FrontOfSnoc(rewrites, last);
  }

  lemma SetRowAt(table: seq<LedgerRow>, id: int, l: SendLog, k: nat)
    requires k < |table|
    ensures SetRow(table, id, l)[k] == if table[k].id == id then Rewrite(table[k], l) else table[k]
    ensures Rewrite(table[k], l).id == table[k].id
  {
  }

  /** What the rewrites do to the row at position k. */
  lemma {:induction false} RewrittenAt(table: seq<LedgerRow>, logs: seq<SendLog>, os: seq<Outcome>, k: nat)
    requires |os| == |logs| && k < |table| && DistinctRewrites(os)
    ensures var t := ApplyRewrites(table, Rewrites(logs, os));
      && |t| == |table| && t[k].id == table[k].id
      && (forall i :: 0 <= i < |os| && os[i] == Canonicalize(table[k].id) ==> t[k] == Rewrite(table[k], logs[i]))
      && ((forall i :: 0 <= i < |os| ==> os[i] != Canonicalize(table[k].id)) ==> t[k] == table[k])
  {
    hide ApplyRewrites, SetRow, Rewrite;
    var n := |logs| - 1;
    RewritesStep(table, logs, os);
    if logs != [] {
      var early := ApplyRewrites(table, Rewrites(Front(logs), Front(os)));
      RewrittenAt(table, Front(logs), Front(os), k);
      assert forall i :: 0 <= i < n ==> Front(os)[i] == os[i] && Front(logs)[i] == logs[i];
      if os[n].Canonicalize? { SetRowAt(early, os[n].row, logs[n], k); }
    }
  }

  lemma {:induction false} CreatedAt(table: seq<LedgerRow>, creations: seq<SendLog>, project: int, nextId: int)
    requires forall l :: l in creations ==> l.user.Some?
    ensures |ApplyCreations(table, creations, project, nextId)| == |table| + |creations|
    ensures table <= ApplyCreations(table, creations, project, nextId)
    ensures forall c :: 0 <= c < |creations| ==>
      ApplyCreations(table, creations, project, nextId)[|table| + c] == NewRow(creations[c], project, nextId + c)
  {
    hide NewRow;
    if creations != [] {
      CreatedAt(table, Front(creations), project, nextId);
      assert forall c :: 0 <= c < |creations| - 1 ==> Front(creations)[c] == creations[c];
    }
  }

  /** The position in Creations of the log at index i. */
  function Rank(logs: seq<SendLog>, os: seq<Outcome>, i: nat): nat
    requires |os| == |logs| && i <= |logs|
  {
    |Creations(logs[..i], os[..i])|
  }

  lemma {:induction false} CreationsAt(logs: seq<SendLog>, os: seq<Outcome>)
    requires |os| == |logs|
    ensures forall i :: 0 <= i < |os| && os[i].New? ==>
      Rank(logs, os, i) < |Creations(logs, os)| && Creations(logs, os)[Rank(logs, os, i)] == logs[i]
    ensures forall l :: l in Creations(logs, os) ==> exists i :: 0 <= i < |os| && os[i].New? && logs[i] == l
    ensures forall i, j :: 0 <= i < j < |os| && os[i].New? ==> Rank(logs, os, i) < Rank(logs, os, j)
  {
    if logs != [] {
      var n := |logs| - 1;
      CreationsAt(Front(logs), Front(os));
      assert logs[..n] == Front(logs) && os[..n] == Front(os);
      forall i | 0 <= i <= n ensures Rank(logs, os, i) == Rank(Front(logs), Front(os), i) {
        assert logs[..i] == Front(logs)[..i] && os[..i] == Front(os)[..i];
      }
      assert Front(logs)[..n] == Front(logs) && Front(os)[..n] == Front(os);
      forall l | l in Creations(logs, os) ensures exists i :: 0 <= i < |os| && os[i].New? && logs[i] == l {
        if l in Creations(Front(logs), Front(os)) {
          var i :| 0 <= i < n && Front(os)[i].New? && Front(logs)[i] == l;
          assert os[i].New? && logs[i] == l;
        } else {
          assert os[n].New? && logs[n] == l;
        }
      }
    }
  }

  /** The ledger row that the plan gives log i. */
  function Assigned(d: Run, i: nat): int
    requires d.Valid() && i < |d.logs|
    requires Planned(d.Outcomes()[i])
  {
    var os := d.Outcomes();
    if os[i].New? then d.nextId + Rank(d.logs, os, i) else os[i].row
  }

  predicate Planned(o: Outcome) { o.Already? || o.Canonicalize? || o.New? }

  predicate Written(o: Outcome) { o.Canonicalize? || o.New? }

  /** The ids the apply phase rewrites in place. */
  function Rewritten(os: seq<Outcome>): set<int> {
    set o | o in os && o.Canonicalize? :: o.row
  }

  /** The row records this log, at the log's time. */
  predicate Records(r: LedgerRow, l: SendLog, project: int)
    requires l.user.Some?
  {
    r.project == project && RowKey(r) == Some(LogKey(l)) && r.sentAt == EventTime(l)
  }

  /** The table after apply: the old rows, some rewritten, then the new ones. */
  lemma Shape(d: Run)
    requires d.Valid()
    ensures var os, t := d.Outcomes(), d.After();
      && DistinctRewrites(os) && |t| == |d.table| + |Creations(d.logs, os)|
      && (forall k :: 0 <= k < |d.table| ==> t[k] == ApplyRewrites(d.table, Rewrites(d.logs, os))[k])
      && (forall l :: l in Creations(d.logs, os) ==> l in d.logs)
      && (forall c :: 0 <= c < |Creations(d.logs, os)| ==>
            t[|d.table| + c] == NewRow(Creations(d.logs, os)[c], d.project, d.nextId + c))
  {
    hide Plan, Decide, ExactIndex, Rewrites, Creations, ApplyRewrites, ApplyCreations, NewRow;
    var os := d.Outcomes();
    RewritesAreDistinct(d.logs, d.rows);
    CreationsAreLogs(d.logs, os);
    CreatedAt(ApplyRewrites(d.table, Rewrites(d.logs, os)), Creations(d.logs, os), d.project, d.nextId);
  }

  /** Every rewritten or created log has its row, under its assigned id. */
  lemma WrittenRow(d: Run, i: nat) returns (r: LedgerRow)
    requires d.Valid() && i < |d.logs| && Written(d.Outcomes()[i])
    ensures r in d.After() && r.id == Assigned(d, i) && Records(r, d.logs[i], d.project)
    ensures var l := d.logs[i];
      && r.project == d.project && Some(r.user) == l.user && r.channel == l.channel && r.sourceId == Some(Decimal(l.id))
      && r.source == (if l.sourceType != "" then l.sourceType else "send_log")
      && (l.sentAt.Some? ==> r.sentAt == l.sentAt.value)
      && (l.sentAt.None? && l.deliveredAt.Some? ==> r.sentAt == l.deliveredAt.value)
      && (l.sentAt.None? && l.deliveredAt.None? ==> r.sentAt == l.queuedAt)
  {
    hide Plan, Decide, ExactIndex, Rewrites, Creations, ApplyRewrites, ApplyCreations;
    var os := d.Outcomes();
    Shape(d);
    if os[i].Canonicalize? {
      var row := CanonicalizeMeans(d.logs, d.rows, i);
      var k :| 0 <= k < |d.table| && d.table[k] == row;
      RewrittenAt(d.table, d.logs, os, k);
      r := d.After()[k];
    } else {
      CreationsAt(d.logs, os);
      r := d.After()[|d.table| + Rank(d.logs, os, i)];
    }
  }

  /** A row that is not rewritten stays as it is. */
  lemma UntouchedRow(d: Run, r: LedgerRow)
    requires d.Valid() && r in d.table && r.id !in Rewritten(d.Outcomes())
    ensures r in d.After()
  {
    hide Plan, Decide, ExactIndex, Rewrites, Creations, ApplyRewrites, ApplyCreations;
    Shape(d);
    var k :| 0 <= k < |d.table| && d.table[k] == r;
    RewrittenAt(d.table, d.logs, d.Outcomes(), k);
    assert d.After()[k] == r;
  }

  ghost predicate FromLog(d: Run, r: LedgerRow)
    requires d.Valid()
  {
    exists i :: 0 <= i < |d.logs| && Written(d.Outcomes()[i]) && Records(r, d.logs[i], d.project)
  }

  /** Nothing else is in the table afterwards. */
  lemma RowOrigin(d: Run, k: nat)
    requires d.Valid() && k < |d.After()|
    ensures var r := d.After()[k]; (r in d.table && r.id !in Rewritten(d.Outcomes())) || FromLog(d, r)
    ensures k < |d.table| ==> d.After()[k].id == d.table[k].id
    ensures k >= |d.table| ==> d.After()[k].id == d.nextId + (k - |d.table|)
  {
    hide Plan, Decide, ExactIndex, Rewrites, Creations, ApplyRewrites, ApplyCreations;
    Shape(d);
    if k < |d.table| {
      RewrittenOrigin(d, k);
    } else {
      CreatedOrigin(d, k);
    }
  }

  lemma RewrittenOrigin(d: Run, k: nat)
    requires d.Valid() && k < |d.table| <= |d.After()|
    ensures var r := d.After()[k];
      r.id == d.table[k].id && ((r in d.table && r.id !in Rewritten(d.Outcomes())) || FromLog(d, r))
  {
    hide Plan, Decide, ExactIndex, Rewrites, Creations;
    var os := d.Outcomes();
    Shape(d);
    RewrittenAt(d.table, d.logs, os, k);
    if d.table[k].id in Rewritten(os) {
      var i :| 0 <= i < |os| && os[i] == Canonicalize(d.table[k].id);
      var row := CanonicalizeMeans(d.logs, d.rows, i);
      assert row == d.table[k];
      assert Written(os[i]) && Records(d.After()[k], d.logs[i], d.project);
    } else {
      assert forall i :: 0 <= i < |os| ==> os[i] in os;
      assert d.After()[k] == d.table[k];
    }
  }

  lemma CreatedOrigin(d: Run, k: nat)
    requires d.Valid() && |d.table| <= k < |d.After()|
    ensures FromLog(d, d.After()[k]) && d.After()[k].id == d.nextId + (k - |d.table|)
  {
    hide Plan, Decide, ExactIndex, Rewrites, Creations;
    var os := d.Outcomes();
    Shape(d);
    CreationsAt(d.logs, os);
    var l := Creations(d.logs, os)[k - |d.table|];
    assert l in Creations(d.logs, os);
    var i :| 0 <= i < |os| && os[i].New? && d.logs[i] == l;
    assert Written(os[i]) && Records(d.After()[k], d.logs[i], d.project);
  }

  lemma AfterIds(d: Run)
    requires d.Valid()
    ensures |d.After()| == |d.table| + |Creations(d.logs, d.Outcomes())|
    ensures forall i, j :: 0 <= i < j < |d.After()| ==> d.After()[i].id != d.After()[j].id
    ensures forall i :: 0 <= i < |d.After()| ==> d.After()[i].id < d.Again().nextId
  {
    hide Plan, Rewrites, Creations, ApplyRewrites, ApplyCreations, FromLog, Rewritten;
    Shape(d);
    forall i | 0 <= i < |d.After()|
      ensures d.After()[i].id == if i < |d.table| then d.table[i].id else d.nextId + (i - |d.table|)
    {
      RowOrigin(d, i);
    }
  }

  lemma KeyedByIds(t: seq<LedgerRow>)
    requires forall i, j :: 0 <= i < j < |t| ==> t[i].id != t[j].id
    ensures KeyedRows(t)
  {
  }

  lemma AfterIsKeyed(d: Run)
    requires d.Valid()
    ensures KeyedRows(d.After()) && forall r :: r in d.After() ==> r.id < d.Again().nextId
    ensures |d.After()| == |d.table| + |Creations(d.logs, d.Outcomes())|
  {
    hide Plan, Rewrites, Creations, ApplyRewrites, ApplyCreations;
    AfterIds(d);
    KeyedByIds(d.After());
  }

  // ----------------------------------------------------------------- parity

  /** No row the plan rewrites is the row that already records another log.
      This reads off the plan alone, before anything is applied. */
  ghost predicate NoTheft(os: seq<Outcome>) {
    forall i, j :: 0 <= i < |os| && 0 <= j < |os| && os[i].Canonicalize? && os[j].Already? ==> os[i].row != os[j].row
  }

  /** Afterwards the row assigned to log i carries log i's key. */
  ghost predicate Carried(d: Run, i: nat)
    requires d.Valid() && i < |d.logs| && Planned(d.Outcomes()[i])
  {
    exists r :: r in d.After() && r.id == Assigned(d, i) && RowKey(r) == Some(LogKey(d.logs[i]))
  }

  ghost predicate AllCarried(d: Run)
    requires d.Valid()
  {
    forall i {:trigger Carried(d, i)} :: 0 <= i < |d.logs| && Planned(d.Outcomes()[i]) ==> Carried(d, i)
  }

  ghost predicate AssignsDistinctRows(d: Run)
    requires d.Valid()
  {
    forall i, j :: 0 <= i < j < |d.logs| && Planned(d.Outcomes()[i]) && Planned(d.Outcomes()[j]) ==>
      Assigned(d, i) != Assigned(d, j)
  }

  /** An already-canonical log's row is in the table under its own key. */
  lemma AlreadyRow(d: Run, i: nat) returns (r: LedgerRow)
    requires d.Valid() && i < |d.logs| && d.Outcomes()[i].Already?
    ensures r in d.rows && r in d.table && r.id == Assigned(d, i) && RowKey(r) == Some(LogKey(d.logs[i]))
  {
    PlanAt(d.logs, d.rows, i);
    ExactIndexMeaning(d.rows, LogKey(d.logs[i]));
    r := ExactIndex(d.rows)[LogKey(d.logs[i])];
  }

  /** Ledger parity: every planned log is carried by its own row afterwards,
      exactly when the plan steals no row. */
  lemma ParityIff(d: Run)
    requires d.Valid()
    ensures AllCarried(d) <==> NoTheft(d.Outcomes())
  {
    var os := d.Outcomes();
    if NoTheft(os) {
      forall i | 0 <= i < |d.logs| && Planned(os[i]) ensures Carried(d, i) {
        if Written(os[i]) {
          var r := WrittenRow(d, i);
        } else {
          var r := AlreadyRow(d, i);
          UntouchedRow(d, r);
        }
      }
    }
    if AllCarried(d) {
      AfterIsKeyed(d);
      forall i, j | 0 <= i < |os| && 0 <= j < |os| && os[i].Canonicalize? && os[j].Already? ensures os[i].row != os[j].row {
        assert Carried(d, i) && Carried(d, j);
        DifferentKeys(d.logs, i, j);
      }
    }
  }

  /** The assignment is injective under the same condition. */
  lemma InjectiveIff(d: Run)
    requires d.Valid()
    ensures AssignsDistinctRows(d) <==> NoTheft(d.Outcomes())
  {
    hide AssignsDistinctRows, NoTheft;
    if NoTheft(d.Outcomes()) { NoTheftIsInjective(d); }
    if AssignsDistinctRows(d) { InjectiveHasNoTheft(d); }
  }

  lemma NoTheftIsInjective(d: Run)
    requires d.Valid() && NoTheft(d.Outcomes())
    ensures AssignsDistinctRows(d)
  {
    hide NoTheft, Assigned;
    ParityIff(d);
    AfterIsKeyed(d);
    var os := d.Outcomes();
    forall i, j | 0 <= i < j < |d.logs| && Planned(os[i]) && Planned(os[j]) ensures Assigned(d, i) != Assigned(d, j) {
      assert Carried(d, i) && Carried(d, j);
      DifferentKeys(d.logs, i, j);
    }
  }

  lemma InjectiveHasNoTheft(d: Run)
    requires d.Valid() && AssignsDistinctRows(d)
    ensures NoTheft(d.Outcomes())
  {
    var os := d.Outcomes();
    forall i, j | 0 <= i < |os| && 0 <= j < |os| && os[i].Canonicalize? && os[j].Already? ensures os[i].row != os[j].row {
      assert i < j || j < i;
      assert Assigned(d, i) == os[i].row && Assigned(d, j) == os[j].row;
    }
  }

  /** The matcher steals whenever it can: of two sends to one contact, only the
      later one recorded and that row within five seconds of the earlier one,
      the earlier one takes the row and the later one is still reported as
      already canonical. */
  lemma TheftHappens(l1: SendLog, l2: SendLog, r: LedgerRow, project: int, since: int, nextId: int)
    requires var d := Run([l1, l2], [r], [r], project, since, nextId); d.Valid()
    requires |Source(l1)| <= MAX_SOURCE && |Source(l2)| <= MAX_SOURCE
    requires RowKey(r) == Some(LogKey(l2)) && l1.user == l2.user && l1.channel == l2.channel && InWindow(l1, r)
    ensures var d := Run([l1, l2], [r], [r], project, since, nextId);
      d.Outcomes() == [Canonicalize(r.id), Already(r.id)] && !AllCarried(d)
  {
    hide LogKey, RowKey, Source;
    var d := Run([l1, l2], [r], [r], project, since, nextId);
    DifferentKeys([l1, l2], 0, 1);
    IndexOfOne(r, LogKey(l2));
    CandidateOfOne(l1, l2, r);
    assert Front([l1, l2]) == [l1] && Front([l1]) == [] && UsedBy([]) == {};
    assert Plan([l1], [r]) == [Canonicalize(r.id)];
    assert d.Outcomes() == [Canonicalize(r.id), Already(r.id)];
    assert !NoTheft(d.Outcomes()) by { assert d.Outcomes()[0].row == d.Outcomes()[1].row; }
    ParityIff(d);
  }

  lemma IndexOfOne(r: LedgerRow, k: Key)
    requires RowKey(r) == Some(k)
    ensures ExactIndex([r]) == map[k := r]
  {
    assert Front([r]) == [];
  }

  lemma CandidateOfOne(l1: SendLog, l2: SendLog, r: LedgerRow)
    requires l1.user.Some? && l1.user == l2.user && l1.channel == l2.channel
    requires RowKey(r) == Some(LogKey(l2)) && InWindow(l1, r)
    ensures Candidates(l1, [r], {}) == [r]
  {
    var keep := (x: LedgerRow) => IsCandidate(l1, x, {});
    assert keep(r) && [r][1..] == [];
    assert Candidates(l1, [r], {}) == Where([r], keep);
    assert Where([r], keep) == [r] + Where([r][1..], keep);
  }

  /** The engine's own parity count joins on the stored source type. */
  predicate EngineRow(r: LedgerRow, l: SendLog)
    requires l.user.Some?
  {
    r.project == l.project && r.user == l.user.value && r.channel == l.channel
    && r.source == l.sourceType && r.sourceId == Some(Decimal(l.id))
  }

  ghost predicate EngineMatched(l: SendLog, table: seq<LedgerRow>)
    requires l.user.Some?
  {
    exists r :: r in table && EngineRow(r, l)
  }

  ghost predicate EngineSurvivor(d: Run, l: SendLog)
    requires d.Valid() && l.user.Some?
  {
    exists r :: r in d.table && EngineRow(r, l) && r.id !in Rewritten(d.Outcomes())
  }

  /** After apply the engine counts log i as matched exactly when the plan
      wrote its row under a non-blank source type, or left one standing. */
  lemma EngineMatchedIff(d: Run, i: nat)
    requires d.Valid() && i < |d.logs|
    ensures EngineMatched(d.logs[i], d.After()) <==>
      || (Written(d.Outcomes()[i]) && d.logs[i].sourceType == Source(d.logs[i]))
      || EngineSurvivor(d, d.logs[i])
  {
    var l := d.logs[i];
    if Written(d.Outcomes()[i]) && l.sourceType == Source(l) {
      var r := WrittenRow(d, i);
      assert EngineRow(r, l);
    }
    if EngineSurvivor(d, l) {
      var r :| r in d.table && EngineRow(r, l) && r.id !in Rewritten(d.Outcomes());
      UntouchedRow(d, r);
    }
    if EngineMatched(l, d.After()) {
      var r :| r in d.After() && EngineRow(r, l);
      var k :| 0 <= k < |d.After()| && d.After()[k] == r;
      RowOrigin(d, k);
      if FromLog(d, r) { OwnerOf(d, r, i); }
    }
  }

  /** A written row that carries log i's id was written for log i. */
  lemma OwnerOf(d: Run, r: LedgerRow, i: nat)
    requires d.Valid() && i < |d.logs| && FromLog(d, r) && r.sourceId == Some(Decimal(d.logs[i].id))
    ensures Written(d.Outcomes()[i]) && Records(r, d.logs[i], d.project)
  {
    hide Plan, Decide, ExactIndex, Decimal, SelectsRow;
    var j :| 0 <= j < |d.logs| && Written(d.Outcomes()[j]) && Records(r, d.logs[j], d.project);
    DecimalInjective(d.logs[i].id, d.logs[j].id);
    assert d.logs[i] == d.logs[j];
  }

  // ----------------------------------------------------------------- replay

  /** A selected row already records log i and the plan leaves it alone. */
  ghost predicate KeepsRow(d: Run, i: nat)
    requires d.Valid() && i < |d.logs|
  {
    exists r :: r in d.rows && RowKey(r) == Some(LogKey(d.logs[i])) && r.id !in Rewritten(d.Outcomes())
  }

  /** What a second run at the same start time can still find to do. */
  ghost predicate Settled(d: Run)
    requires d.Valid()
  {
    forall i :: 0 <= i < |d.logs| ==> d.Outcomes()[i].Already? || d.Outcomes()[i].TooLong?
  }

  lemma AgainIsValid(d: Run)
    requires d.Valid()
    ensures d.Again().Valid()
  {
    AfterIsKeyed(d);
    SelectLedgerMembers(d.After(), d.project, d.since);
  }

  /** Which keys the second run's dictionary knows. */
  lemma KnownAgain(d: Run, i: nat)
    requires d.Valid() && i < |d.logs|
    ensures LogKey(d.logs[i]) in ExactIndex(d.Again().rows) <==> Written(d.Outcomes()[i]) || KeepsRow(d, i)
  {
    var rows, l := d.Again().rows, d.logs[i];
    SelectLedgerMembers(d.After(), d.project, d.since);
    ExactIndexMeaning(rows, LogKey(l));
    if Written(d.Outcomes()[i]) {
      var r := WrittenRow(d, i);
      assert r in rows;
    }
    if KeepsRow(d, i) {
      var r :| r in d.rows && RowKey(r) == Some(LogKey(l)) && r.id !in Rewritten(d.Outcomes());
      UntouchedRow(d, r);
      assert r in rows;
    }
    if LogKey(l) in ExactIndex(rows) {
      KnownAgainMeans(d, i);
    }
  }

  lemma KnownAgainMeans(d: Run, i: nat)
    requires d.Valid() && i < |d.logs| && LogKey(d.logs[i]) in ExactIndex(d.Again().rows)
    ensures Written(d.Outcomes()[i]) || KeepsRow(d, i)
  {
    var rows, l := d.Again().rows, d.logs[i];
    SelectLedgerMembers(d.After(), d.project, d.since);
    ExactIndexMeaning(rows, LogKey(l));
    var r := ExactIndex(rows)[LogKey(l)];
    var k :| 0 <= k < |d.After()| && d.After()[k] == r;
    RowOrigin(d, k);
    if FromLog(d, r) { OwnerOf(d, r, i); } else { assert r in d.rows; }
  }

  /** The second run's verdict on one log. */
  lemma SecondVerdict(d: Run, i: nat)
    requires d.Valid() && i < |d.logs|
    ensures d.Again().Outcomes()[i].TooLong? <==> d.Outcomes()[i].TooLong?
    ensures !d.Outcomes()[i].TooLong? ==>
      (d.Again().Outcomes()[i].Already? <==> Written(d.Outcomes()[i]) || KeepsRow(d, i))
  {
    KnownAgain(d, i);
    VerdictKind(d.logs, d.rows, i);
    VerdictKind(d.logs, d.Again().rows, i);
  }

  /** Replay: the second run finds every log settled exactly when the first
      left none ambiguous and kept a row for every already-canonical log. */
  lemma ReplayIff(d: Run)
    requires d.Valid()
    ensures d.Again().Valid()
    ensures Settled(d.Again()) <==>
      && (forall i :: 0 <= i < |d.logs| ==> !d.Outcomes()[i].Ambiguous?)
      && (forall i :: 0 <= i < |d.logs| && d.Outcomes()[i].Already? ==> KeepsRow(d, i))
  {
    hide Plan, ExactIndex, KeepsRow;
    AgainIsValid(d);
    forall i | 0 <= i < |d.logs|
      ensures (d.Again().Outcomes()[i].Already? || d.Again().Outcomes()[i].TooLong?) <==>
        !d.Outcomes()[i].Ambiguous? && (d.Outcomes()[i].Already? ==> KeepsRow(d, i))
    {
      SecondVerdict(d, i);
      AmbiguousHasNone(d, i);
    }
  }

  /** A log with candidates but no exact row keeps none. */
  lemma AmbiguousHasNone(d: Run, i: nat)
    requires d.Valid() && i < |d.logs|
    ensures d.Outcomes()[i].Ambiguous? ==> !KeepsRow(d, i)
  {
    hide Plan;
    VerdictKind(d.logs, d.rows, i);
    ExactIndexMeaning(d.rows, LogKey(d.logs[i]));
  }

  /** With nothing ambiguous and nothing stolen, the second run rewrites and
      creates nothing, so the ledger is a fixed point. */
  lemma ReplayChangesNothing(d: Run)
    requires d.Valid() && NoTheft(d.Outcomes())
    requires forall i :: 0 <= i < |d.logs| ==> !d.Outcomes()[i].Ambiguous?
    ensures d.Again().Valid() && Settled(d.Again())
    ensures d.Again().After() == d.After()
    ensures forall i :: 0 <= i < |d.logs| && |Source(d.logs[i])| <= MAX_SOURCE ==> d.Again().Outcomes()[i].Already?
  {
    forall i | 0 <= i < |d.logs| && d.Outcomes()[i].Already? ensures KeepsRow(d, i) {
      var r := AlreadyRow(d, i);
    }
    ReplayIff(d);
    SettledChangesNothing(d.Again());
    forall i | 0 <= i < |d.logs| && |Source(d.logs[i])| <= MAX_SOURCE ensures d.Again().Outcomes()[i].Already? {
      VerdictKind(d.logs, d.Again().rows, i);
    }
  }

  lemma SettledChangesNothing(d: Run)
    requires d.Valid() && Settled(d)
    ensures d.After() == d.table
  {
    NothingToDo(d.logs, d.Outcomes());
  }

  lemma {:induction false} NothingToDo(logs: seq<SendLog>, os: seq<Outcome>)
    requires |os| == |logs| && forall i :: 0 <= i < |os| ==> os[i].Already? || os[i].TooLong?
    ensures Rewrites(logs, os) == [] && Creations(logs, os) == []
  {
    if logs != [] { NothingToDo(Front(logs), Front(os)); }
  }

  lemma {:induction false} SettledTally(os: seq<Outcome>)
    requires forall i :: 0 <= i < |os| ==> os[i].Already? || os[i].TooLong?
    ensures Tally(os).created == 0 && Tally(os).canonicalized == 0 && Tally(os).ambiguous == 0
  {
    if os != [] { SettledTally(Front(os)); }
  }
}
