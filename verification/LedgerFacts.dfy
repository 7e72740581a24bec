/** What the ledger half does, told in the columns of its two tables and in
    literals: which rows its queries return, what it decides for each send, and
    every row of the ledger afterwards. */
module LedgerFacts {
  import opened Common
  import opened LedgerPlan
  import opened LedgerParity
  import opened LedgerContention
  import opened LedgerEngine

  /** A send happened when it was sent; failing that, when it was delivered;
      failing that, when it was queued. */
  ghost predicate Happened(l: SendLog, t: int) {
    && (l.sentAt.Some? ==> t == l.sentAt.value)
    && (l.sentAt.None? && l.deliveredAt.Some? ==> t == l.deliveredAt.value)
    && (l.sentAt.None? && l.deliveredAt.None? ==> t == l.queuedAt)
  }

  /** What the ledger calls the source of a send. */
  ghost predicate Called(l: SendLog, source: string) {
    (l.sourceType == "" ==> source == "send_log") && (l.sourceType != "" ==> source == l.sourceType)
  }

  // ---------------------------------------------------------------- queries

  /** The planner looks at the project's sends to a known contact, in one of the
      five submitted statuses, from the start time on. */
  lemma LogsSelected(table: seq<SendLog>, project: int, since: int, l: SendLog, t: int)
    requires Happened(l, t)
    ensures l in SelectLogs(table, project, since) <==> (l in table && l.project == project && l.user.Some? && t >= since
      && (l.status == "sent" || l.status == "delivered" || l.status == "read" || l.status == "opened" || l.status == "submission_unknown"))
  {
    hide SelectLogs;
    SelectLogsMembers(table, project, since);
  }

  /** Oldest first, and each once. */
  lemma LogsInOrder(table: seq<SendLog>, project: int, since: int)
    ensures var logs := SelectLogs(table, project, since);
      forall i, j, t, u :: 0 <= i < j < |logs| && Happened(logs[i], t) && Happened(logs[j], u) ==> t < u || (t == u && logs[i].id <= logs[j].id)
    ensures KeyedLogs(table) ==> KeyedLogs(SelectLogs(table, project, since))
  {
    hide Where, KeyedLogs;
    OrderBySorted(Where(table, (l: SendLog) => SelectsLog(l, project, since)), (l: SendLog) => (EventTime(l), l.id, 0));
    if KeyedLogs(table) { SelectLogsKeyed(table, project, since); }
  }

  /** And at the project's ledger rows from five seconds before it, oldest first. */
  lemma RowsSelected(table: seq<LedgerRow>, project: int, since: int)
    ensures var rows := SelectLedger(table, project, since);
      && (forall r :: r in rows <==> r in table && r.project == project && r.sentAt >= since - 5_000_000)
      && (forall i, j :: 0 <= i < j < |rows| ==> rows[i].sentAt < rows[j].sentAt || (rows[i].sentAt == rows[j].sentAt && rows[i].id <= rows[j].id))
  {
    SelectLedgerMembers(table, project, since);
    OrderBySorted(Where(table, (r: LedgerRow) => SelectsRow(r, project, since)), (r: LedgerRow) => (r.sentAt, r.id, 0));
  }

  // -------------------------------------------------------------- decisions

  /** The row carries the send's user, channel, source and id. */
  ghost predicate Carries(r: LedgerRow, l: SendLog) {
    l.user == Some(r.user) && r.channel == l.channel && Called(l, r.source) && r.sourceId == Some(Decimal(l.id))
  }

  /** The row is of the send's contact, at most five seconds away from it, and no
      earlier decision has claimed it. */
  ghost predicate Free(r: LedgerRow, l: SendLog, earlier: seq<Outcome>) {
    && l.user == Some(r.user) && r.channel == l.channel
    && (forall t :: Happened(l, t) ==> t - 5_000_000 <= r.sentAt <= t + 5_000_000)
    && Already(r.id) !in earlier && Canonicalize(r.id) !in earlier
  }

  /** The last row that carries the key wins the dictionary. */
  lemma {:induction false} LastCarrierWins(rows: seq<LedgerRow>, l: SendLog)
    requires l.user.Some?
    ensures LogKey(l) in ExactIndex(rows) <==> exists k :: 0 <= k < |rows| && Carries(rows[k], l)
    ensures LogKey(l) in ExactIndex(rows) ==>
      exists k :: 0 <= k < |rows| && Carries(rows[k], l) && ExactIndex(rows)[LogKey(l)] == rows[k] && forall m :: k < m < |rows| ==> !Carries(rows[m], l)
  {
    hide Decimal;
    if rows != [] {
      var n, front := |rows| - 1, Front(rows);
      LastCarrierWins(front, l);
      KeyIsCarried(rows[n], l);
      assert forall k :: 0 <= k < n ==> front[k] == rows[k];
      if Carries(rows[n], l) {
        assert ExactIndex(rows)[LogKey(l)] == rows[n];
      } else if LogKey(l) in ExactIndex(front) {
        var k :| 0 <= k < n && Carries(front[k], l) && ExactIndex(front)[LogKey(l)] == front[k] && forall m :: k < m < n ==> !Carries(front[m], l);
        assert Carries(rows[k], l) && ExactIndex(rows)[LogKey(l)] == rows[k] && forall m :: k < m < |rows| ==> !Carries(rows[m], l);
      }
    }
  }

  lemma KeyIsCarried(r: LedgerRow, l: SendLog)
    requires l.user.Some?
    ensures RowKey(r) == Some(LogKey(l)) <==> Carries(r, l)
  {
    hide Decimal;
  }

  lemma FreeIsCandidate(r: LedgerRow, l: SendLog, earlier: seq<Outcome>)
    requires l.user.Some?
    ensures IsCandidate(l, r, UsedBy(earlier)) <==> Free(r, l, earlier)
  {
    assert Happened(l, EventTime(l));
    assert r.id in UsedBy(earlier) <==> Already(r.id) in earlier || Canonicalize(r.id) in earlier;
  }

  lemma SourceIsCalled(l: SendLog)
    ensures Called(l, Source(l)) && forall s :: Called(l, s) ==> s == Source(l)
  {
  }

  /** A source of more than thirty characters is passed over; otherwise the last
      row that carries the send settles it. */
  lemma SettledIs(logs: seq<SendLog>, rows: seq<LedgerRow>, i: nat)
    requires (forall l :: l in logs ==> l.user.Some?) && i < |logs|
    ensures var l, o := logs[i], Plan(logs, rows)[i];
      && (o.TooLong? <==> forall s :: Called(l, s) ==> |s| > 30)
      && (o.Already? <==> !o.TooLong? && exists k :: 0 <= k < |rows| && Carries(rows[k], l))
      && (o.Already? ==> exists k :: 0 <= k < |rows| && Carries(rows[k], l) && o.row == rows[k].id && forall m :: k < m < |rows| ==> !Carries(rows[m], l))
  {
    hide ExactIndex, LogKey, Carries, Plan, Candidates, Called, UsedBy;
    PlanAt(logs, rows, i);
    SourceIsCalled(logs[i]);
    LastCarrierWins(rows, logs[i]);
  }

  /** A send that is not settled takes the one free row, is ambiguous with two,
      and is new with none. */
  lemma SearchIs(logs: seq<SendLog>, rows: seq<LedgerRow>, i: nat)
    requires (forall l :: l in logs ==> l.user.Some?) && i < |logs|
    ensures var l, o, earlier := logs[i], Plan(logs, rows)[i], Plan(logs, rows)[..i];
      !o.TooLong? && !o.Already? ==>
        && (o.New? <==> forall k :: 0 <= k < |rows| ==> !Free(rows[k], l, earlier))
        && (o.Ambiguous? <==> exists k, m :: 0 <= k < m < |rows| && Free(rows[k], l, earlier) && Free(rows[m], l, earlier))
        && (o.Canonicalize? ==> exists k :: 0 <= k < |rows| && Free(rows[k], l, earlier) && o.row == rows[k].id)
  {
    hide ExactIndex, LogKey, UsedBy, IsCandidate, Free, Plan, Where;
    var l, earlier := logs[i], Plan(logs, rows)[..i];
    PlanAt(logs, rows, i);
    var keep := (r: LedgerRow) => IsCandidate(l, r, UsedBy(earlier));
    assert Candidates(l, rows, UsedBy(earlier)) == Where(rows, keep);
    MoreThanOne(rows, keep);
    forall k | 0 <= k < |rows| ensures keep(rows[k]) <==> Free(rows[k], l, earlier) { FreeIsCandidate(rows[k], l, earlier); }
    FirstOf(rows, keep);
  }

  lemma FirstOf(rows: seq<LedgerRow>, keep: LedgerRow -> bool)
    ensures Where(rows, keep) != [] ==> exists k :: 0 <= k < |rows| && keep(rows[k]) && Where(rows, keep)[0] == rows[k]
  {
    if Where(rows, keep) != [] {
      var r := Where(rows, keep)[0];
      assert r in Where(rows, keep);
    }
  }

  /** A send of one log and one row of its contact without a source id: the row
      is taken exactly within five seconds of the send time, if there is one. */
  lemma OneSendOneRow(l: SendLog, r: LedgerRow)
    requires l.user == Some(r.user) && l.channel == r.channel && l.sentAt.Some? && r.sourceId == None && |l.sourceType| <= 30
    ensures Plan([l], [r]) == [if -5_000_000 <= r.sentAt - l.sentAt.value <= 5_000_000 then Canonicalize(r.id) else New]
  {
    hide Decimal;
    SettledIs([l], [r], 0);
    SearchIs([l], [r], 0);
    assert Happened(l, l.sentAt.value) && Plan([l], [r])[..0] == [];
    assert [r][0] == r && Called(l, if l.sourceType == "" then "send_log" else l.sourceType);
  }

  // ---------------------------------------------------------- the new ledger

  /** The row says of the send who, where, under what source and id, and when. */
  ghost predicate Tells(r: LedgerRow, l: SendLog) { Carries(r, l) && Happened(l, r.sentAt) }

  function IsNew(): Outcome -> bool { (o: Outcome) => o.New? }

  lemma {:induction false} RankIsCount(logs: seq<SendLog>, os: seq<Outcome>)
    requires |os| == |logs|
    ensures |Creations(logs, os)| == |Where(os, IsNew())|
  {
    if logs != [] {
      RankIsCount(Front(logs), Front(os));
      assert os == Front(os) + [Last(os)];
      WhereAppend(Front(os), [Last(os)], IsNew());
    }
  }

  /** Every row of the applied ledger. An old row is what it was, unless a send
      takes it: then it tells of that send. The sends decided new follow in their
      order, each under the next id, each telling of its send. */
  lemma LedgerAfter(d: Run)
    requires d.Valid()
    ensures var os, after, news := d.Outcomes(), d.After(), Where(d.Outcomes(), IsNew());
      && |after| == |d.table| + |news|
      && (forall k, i :: 0 <= k < |d.table| && 0 <= i < |os| && os[i] == Canonicalize(d.table[k].id) ==>
            after[k].id == d.table[k].id && after[k].project == d.table[k].project && Tells(after[k], d.logs[i]))
      && (forall k :: 0 <= k < |d.table| && Canonicalize(d.table[k].id) !in os ==> after[k] == d.table[k])
      && (forall i :: 0 <= i < |os| && os[i].New? ==>
            var n := |d.table| + |Where(os[..i], IsNew())|;
            n < |after| && after[n].id == d.nextId + |Where(os[..i], IsNew())| && after[n].project == d.project && Tells(after[n], d.logs[i]))
  {
    hide Plan, Decide, ExactIndex, Rewrites, Creations, ApplyRewrites, ApplyCreations, Decimal, Where;
    var os := d.Outcomes();
    Shape(d);
    CreationsAt(d.logs, os);
    RankIsCount(d.logs, os);
    forall k | 0 <= k < |d.table| && Canonicalize(d.table[k].id) !in os ensures d.After()[k] == d.table[k] {
      RewrittenAt(d.table, d.logs, os, k);
      assert forall i :: 0 <= i < |os| ==> os[i] in os;
    }
    forall k, i | 0 <= k < |d.table| && 0 <= i < |os| && os[i] == Canonicalize(d.table[k].id)
      ensures d.After()[k].id == d.table[k].id && d.After()[k].project == d.table[k].project && Tells(d.After()[k], d.logs[i])
    {
      RewrittenAt(d.table, d.logs, os, k);
      TakenRow(d, k, i);
    }
    forall i | 0 <= i < |os| && os[i].New?
      ensures var n := |d.table| + |Where(os[..i], IsNew())|;
        n < |d.After()| && d.After()[n].id == d.nextId + |Where(os[..i], IsNew())| && d.After()[n].project == d.project && Tells(d.After()[n], d.logs[i])
    {
      RankIsCount(d.logs[..i], os[..i]);
      var c := Rank(d.logs, os, i);
      assert d.After()[|d.table| + c] == NewRow(d.logs[i], d.project, d.nextId + c);
    }
  }

  /** A taken row is of the send's contact already. */
  lemma TakenRow(d: Run, k: nat, i: nat)
    requires d.Valid() && k < |d.table| && i < |d.logs| && d.Outcomes()[i] == Canonicalize(d.table[k].id)
    ensures Tells(Rewrite(d.table[k], d.logs[i]), d.logs[i])
  {
    hide Plan, ExactIndex, Decimal;
    var r := CanonicalizeMeans(d.logs, d.rows, i);
    assert r in d.table && d.table[k] in d.table && r.id == d.table[k].id;
    assert r == d.table[k];
  }

  // --------------------------------------------------------------- counters

  lemma NoneCounted()
    ensures forall keep: Outcome -> bool :: Where([], keep) == []
  {
  }

  /** Each counter is the number of sends with its decision. */
  lemma {:induction false} CountersAre(os: seq<Outcome>)
    ensures Tally(os).tooLong == |Where(os, (o: Outcome) => o == TooLong)| && Tally(os).already == |Where(os, (o: Outcome) => o.Already?)|
    ensures Tally(os).canonicalized == |Where(os, (o: Outcome) => o.Canonicalize?)| && Tally(os).created == |Where(os, (o: Outcome) => o == New)|
    ensures Tally(os).ambiguous == |Where(os, (o: Outcome) => o == Ambiguous)|
  {
    hide Where;
    if os == [] {
      NoneCounted();
    } else {
      CountersAre(Front(os));
      WhereSnoc(os, (o: Outcome) => o == TooLong);
      WhereSnoc(os, (o: Outcome) => o.Already?);
      WhereSnoc(os, (o: Outcome) => o.Canonicalize?);
      WhereSnoc(os, (o: Outcome) => o == New);
      WhereSnoc(os, (o: Outcome) => o == Ambiguous);
    }
  }

  // ------------------------------------------------------ the engine's report

  /** A send the engine's report expects: of the project, to a known contact, in
      a submitted status, sent (or, if not sent, queued) within seven days. */
  ghost predicate Reported(l: SendLog, project: int, now: int) {
    && l.project == project && l.user.Some?
    && (l.status == "sent" || l.status == "delivered" || l.status == "read" || l.status == "opened" || l.status == "submission_unknown")
    && (l.sentAt.Some? ==> l.sentAt.value >= now - 604_800_000_000) && (l.sentAt.None? ==> l.queuedAt >= now - 604_800_000_000)
  }

  /** The join that finds it: project, contact, stored source type and id. */
  ghost predicate Joined(r: LedgerRow, l: SendLog) {
    r.project == l.project && l.user == Some(r.user) && r.channel == l.channel && r.source == l.sourceType && r.sourceId == Some(Decimal(l.id))
  }

  /** The ratio in full: after apply every reported send is joined if and only if
      every reported send's source type has one to thirty characters. */
  lemma RatioInFull(table: seq<SendLog>, ledger: seq<LedgerRow>, project: int, since: int, nextId: int, now: int)
    requires var d := Run(SelectLogs(table, project, since), SelectLedger(ledger, project, since), ledger, project, since, nextId);
      d.Valid() && OneInWindow(d) && Uncontended(d)
    requires forall r :: r in ledger ==> 0 < |r.source| <= 30
    requires since <= now - 604_800_000_000
    requires forall l :: l in table && Reported(l, project, now) ==> l.sentAt.Some? || l.deliveredAt.None? || l.deliveredAt.value >= since
    ensures (forall l :: l in table && Reported(l, project, now) ==>
               exists r :: r in Run(SelectLogs(table, project, since), SelectLedger(ledger, project, since), ledger, project, since, nextId).After() && Joined(r, l))
      <==> forall l :: l in table && Reported(l, project, now) ==> 0 < |l.sourceType| <= 30
  {
    hide OneInWindow, Uncontended, SelectsLog, Decimal, SelectLogs, SelectLedger, Plan;
    var after := Problem(table, ledger, project, since, nextId).After();
    forall l ensures Expected(l, project, now) <==> Reported(l, project, now) { ReportedIsExpected(l, project, now); }
    forall l: SendLog | l.user.Some? ensures EngineMatched(l, after) <==> exists r :: r in after && Joined(r, l) { JoinIsMatch(l, after); }
    RatioIsOneIff(table, ledger, project, since, nextId, now);
  }

  lemma ReportedIsExpected(l: SendLog, project: int, now: int)
    ensures Expected(l, project, now) <==> Reported(l, project, now)
  {
  }

  lemma JoinIsMatch(l: SendLog, table: seq<LedgerRow>)
    requires l.user.Some?
    ensures EngineMatched(l, table) <==> exists r :: r in table && Joined(r, l)
  {
    hide Decimal;
    forall r: LedgerRow ensures EngineRow(r, l) <==> Joined(r, l) { }
  }

  /** Two rows from the planner's window with one key afterwards are two rows it
      left as they were. */
  lemma DuplicatesInFull(d: Run, a: LedgerRow, b: LedgerRow)
    requires d.Valid() && a in d.After() && b in d.After() && a.id != b.id
    requires a.project == b.project == d.project && a.user == b.user && a.channel == b.channel && a.source == b.source
    requires a.sourceId.Some? && a.sourceId == b.sourceId && a.sentAt >= d.since - 5_000_000 && b.sentAt >= d.since - 5_000_000
    ensures a in d.table && b in d.table && Canonicalize(a.id) !in d.Outcomes() && Canonicalize(b.id) !in d.Outcomes()
  {
    hide Plan, ApplyRewrites, ApplyCreations, Creations, Rewrites;
    NoNewDuplicates(d, a, b);
    assert forall x :: Canonicalize(x) in d.Outcomes() ==> Canonicalize(x).row in Rewritten(d.Outcomes());
  }
}
