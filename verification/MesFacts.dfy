/** What the score backfill does to the rows, told in their columns. */
module MesFacts {
  import opened Common
  import opened MesBackfill
  import opened MesStore
  import opened MesScoring

  /** A filter names a project; none, or the number 0, names all. */
  ghost predicate Asked(filter: Option<int>, project: int) {
    filter.Some? && filter.value != 0 ==> project == filter.value
  }

  // ------------------------------------------------------------------ creation

  /** A log of the project, out of the queue, not before the cutoff, without score. */
  ghost predicate Lacks(q: Query, scores: seq<Score>, l: SendLog) {
    && l.status != "queued" && l.queuedAt >= q.cutoff && Asked(q.project, l.project)
    && forall k :: 0 <= k < |scores| ==> scores[k].log != l.id
  }

  /** The score of a log: its columns, with "unknown" for a blank channel or
      source type, and the mark. */
  ghost predicate IsScoreOf(l: SendLog, r: Score) {
    && r.log == l.id && r.project == l.project && r.user == l.user
    && r.template == l.template && r.sourceId == l.sourceId && r.stale
    && (l.sourceType == "" ==> r.sourceType == "unknown") && (l.sourceType != "" ==> r.sourceType == l.sourceType)
    && IsChannel(l.channel, l.resolvedChannel, r.channel)
  }

  /** The channel, else the resolved one, else "unknown"; blank counts as none. */
  ghost predicate IsChannel(own: Option<string>, resolved: Option<string>, channel: string) {
    if own.Some? && own.value != "" then channel == own.value
    else if resolved.Some? && resolved.value != "" then channel == resolved.value
    else channel == "unknown"
  }

  lemma ScoreIs(l: SendLog)
    ensures IsScoreOf(l, NewScore(l))
  {
  }

  lemma LacksIs(q: Query, scores: seq<Score>, l: SendLog)
    ensures Wanted(q, l) && !HasScore(scores, l.id) <==> Lacks(q, scores, l)
  {
  }

  /** The query returns the logs without score, by their ids. */
  lemma MissingIs(q: Query, logs: seq<SendLog>, scores: seq<Score>)
    requires DistinctLogs(logs)
    ensures forall l :: l in Missing(q, logs, scores) <==> l in logs && Lacks(q, scores, l)
    ensures forall i, j :: 0 <= i < j < |Missing(q, logs, scores)| ==> Missing(q, logs, scores)[i].id < Missing(q, logs, scores)[j].id
  {
    hide Lacks, Wanted, HasScore, Where, OrderBy;
    MissingDistinct(q, logs, scores);
    forall l ensures Wanted(q, l) && !HasScore(scores, l.id) <==> Lacks(q, scores, l) { LacksIs(q, scores, l); }
    OrderBySorted(logs, ById);
    WhereSorted(OrderBy(logs, ById), (l: SendLog) => Wanted(q, l) && !HasScore(scores, l.id));
    var missing := Missing(q, logs, scores);
    forall i, j | 0 <= i < j < |missing| ensures missing[i].id < missing[j].id {
      assert missing[i] in missing && missing[j] in missing && missing[i] != missing[j];
      assert Before(ById(missing[i]), ById(missing[j]));
    }
  }

  lemma {:induction false} WhereSorted(rows: seq<SendLog>, keep: SendLog -> bool)
    requires SortedBy(rows, ById)
    ensures SortedBy(Where(rows, keep), ById)
  {
    if rows != [] {
      WhereSorted(rows[1..], keep);
      var tail := Where(rows[1..], keep);
      forall j | 0 <= j < |tail| ensures Before(ById(rows[0]), ById(tail[j])) { assert tail[j] in rows[1..]; }
    }
  }

  /** The logs without score that come before this one. */
  ghost function Earlier(q: Query, logs: seq<SendLog>, scores: seq<Score>, l: SendLog): set<SendLog> {
    set x | x in logs && Lacks(q, scores, x) && x.id < l.id
  }

  lemma PlaceOf(q: Query, logs: seq<SendLog>, scores: seq<Score>, l: SendLog) returns (i: nat)
    requires DistinctLogs(logs) && l in logs && Lacks(q, scores, l)
    ensures i < |Missing(q, logs, scores)| && Missing(q, logs, scores)[i] == l && i == |Earlier(q, logs, scores, l)|
  {
    hide Lacks, Missing, DistinctLogs;
    MissingIs(q, logs, scores);
    var missing := Missing(q, logs, scores);
    i :| 0 <= i < |missing| && missing[i] == l;
    Members(missing, i);
    forall x ensures x in missing[..i] <==> x in Earlier(q, logs, scores, l) {
      if x in missing[..i] { assert x in missing; }
      if x in Earlier(q, logs, scores, l) {
        var j :| 0 <= j < |missing| && missing[j] == x;
        assert missing[..i][j] == x;
      }
    }
    assert (set x | x in missing[..i]) == Earlier(q, logs, scores, l);
  }

  lemma {:induction false} Members(list: seq<SendLog>, i: nat)
    requires i <= |list| && forall i, j :: 0 <= i < j < |list| ==> list[i].id < list[j].id
    ensures |set x | x in list[..i]| == i
  {
    if i > 0 {
      Members(list, i - 1);
      var all, front, last := list[..i], list[..i - 1], list[i - 1];
      assert all == front + [last];
      assert (set x | x in all) == (set x | x in front) + {last};
    }
  }

  /** The creation loop in full. It leaves the scores that were there as they are
      and appends scores of logs that lack one; such a log gets its score exactly
      when the number of those before it falls in an even block of the batch size. */
  lemma CreationIs(q: Query, logs: seq<SendLog>, scores: seq<Score>, size: nat)
    requires DistinctLogs(logs) && size > 0
    ensures var after := CreateOnce(q, logs, scores, size);
      && scores <= after
      && (forall n :: |scores| <= n < |after| ==> exists l :: l in logs && Lacks(q, scores, l) && IsScoreOf(l, after[n]))
      && (forall l :: l in logs && Lacks(q, scores, l) ==>
            ((exists n :: |scores| <= n < |after| && IsScoreOf(l, after[n])) <==> |Earlier(q, logs, scores, l)| / size % 2 == 0))
  {
    hide Lacks, Missing, DistinctLogs, IsScoreOf, Created, Earlier, NewScore;
    var after, missing := CreateOnce(q, logs, scores, size), Missing(q, logs, scores);
    MissingIs(q, logs, scores);
    MissingDistinct(q, logs, scores);
    AppendedAre(missing, scores, after, size);
    assert forall l :: l in missing ==> l in logs && Lacks(q, scores, l);
    forall n | |scores| <= n < |after| ensures exists l :: l in logs && Lacks(q, scores, l) && IsScoreOf(l, after[n]) {
      var l :| l in missing && IsScoreOf(l, after[n]);
      assert Lacks(q, scores, l);
    }
    forall l | l in logs && Lacks(q, scores, l)
      ensures (exists n :: |scores| <= n < |after| && IsScoreOf(l, after[n])) <==> |Earlier(q, logs, scores, l)| / size % 2 == 0
    {
      var i := PlaceOf(q, logs, scores, l);
      CreatedFrom(missing, size, i);
      forall x | x in missing && x.id == l.id ensures x == l { assert l in missing; }
      AppendedFor(missing, scores, after, size, l);
    }
  }

  lemma AppendedAre(missing: seq<SendLog>, scores: seq<Score>, after: seq<Score>, size: nat)
    requires size > 0 && Distinct(missing) && after == scores + NewScores(Created(missing, 0, size))
    ensures forall n :: |scores| <= n < |after| ==> exists l :: l in missing && IsScoreOf(l, after[n])
  {
    hide Created, IsScoreOf, NewScore;
    var made := Created(missing, 0, size);
    if missing != [] { CreatedFrom(missing, size, 0); } else { SlicePast(missing, 0, size); LoopStep(missing, 0, size); }
    forall n | |scores| <= n < |after| ensures exists l :: l in missing && IsScoreOf(l, after[n]) {
      var l := made[n - |scores|];
      ScoreIs(l);
      assert l in made;
    }
  }

  lemma AppendedFor(missing: seq<SendLog>, scores: seq<Score>, after: seq<Score>, size: nat, l: SendLog)
    requires size > 0 && Distinct(missing) && after == scores + NewScores(Created(missing, 0, size))
    requires l in missing && forall x :: x in missing && x.id == l.id ==> x == l
    ensures (exists n :: |scores| <= n < |after| && IsScoreOf(l, after[n])) <==> l in Created(missing, 0, size)
  {
    hide Created, NewScore;
    var made := Created(missing, 0, size);
    var i :| 0 <= i < |missing| && missing[i] == l;
    CreatedFrom(missing, size, i);
    if n :| |scores| <= n < |after| && IsScoreOf(l, after[n]) {
      var x := made[n - |scores|];
      ScoreIs(x);
      assert x in made;
    }
    if l in made {
      var j :| 0 <= j < |made| && made[j] == l;
      ScoreIs(l);
      assert after[|scores| + j] == NewScore(l);
    }
  }

  // --------------------------------------------------------------- marking all

  /** Every score of the project gets the mark; the others stay as they are. */
  lemma MarkingIs(project: Option<int>, scores: seq<Score>)
    ensures |MarkStale(project, scores)| == |scores|
    ensures forall k :: 0 <= k < |scores| ==> MarkStale(project, scores)[k] == if Asked(project, scores[k].project) then scores[k].(stale := true) else scores[k]
    ensures |OfProject(project, scores)| == |Where(scores, (r: Score) => project.Some? && project.value != 0 ==> r.project == project.value)|
  {
    WhereExt(scores, (r: Score) => InProject(project, r.project), (r: Score) => project.Some? && project.value != 0 ==> r.project == project.value);
  }

  // ------------------------------------------------------------------- scoring

  /** What a call for this log meets: no log, or an external touch. */
  ghost predicate PassedOver(logs: seq<SendLog>, log: int) {
    forall k :: 0 <= k < |logs| && logs[k].id == log ==> logs[k].sourceType == "external_touch"
  }

  lemma CallIs(logs: seq<SendLog>, raises: int -> bool, log: int)
    requires DistinctLogs(logs)
    ensures EngineOf(logs, raises)(log) == if PassedOver(logs, log) then Skips else if raises(log) then Raises else Clears
  {
    var found := First(logs, (l: SendLog) => l.id == log);
    if found.Some? {
      var k :| 0 <= k < |logs| && logs[k] == found.value;
    }
    forall k | 0 <= k < |logs| && logs[k].id == log ensures found == Some(logs[k]) { SameLog(logs); }
  }

  /** The places of the project's stale scores before this one. */
  ghost function Chosen(project: Option<int>, scores: seq<Score>, k: nat): set<int>
    requires k <= |scores|
  {
    set i | 0 <= i < k && scores[i].stale && Asked(project, scores[i].project)
  }

  /** A stale score of the project, with fewer such scores before it than a batch. */
  ghost predicate InBatch(project: Option<int>, scores: seq<Score>, size: nat, k: nat)
    requires k < |scores|
  {
    && scores[k].stale && Asked(project, scores[k].project)
    && |Chosen(project, scores, k)| < size
  }

  lemma StaleSnoc(project: Option<int>, scores: seq<Score>, r: Score)
    ensures Stale(project, scores + [r]) == Stale(project, scores) + if r.stale && Asked(project, r.project) then [r] else []
  {
    WhereAppend(scores, [r], (r: Score) => r.stale && InProject(project, r.project));
  }

  lemma ChosenNext(project: Option<int>, scores: seq<Score>, k: nat)
    requires k < |scores|
    ensures |Chosen(project, scores, k + 1)| == |Chosen(project, scores, k)| + if scores[k].stale && Asked(project, scores[k].project) then 1 else 0
  {
    hide Asked;
    var before, all := Chosen(project, scores, k), Chosen(project, scores, k + 1);
    assert all == if scores[k].stale && Asked(project, scores[k].project) then before + {k} else before;
  }

  lemma {:induction false} StaleCount(project: Option<int>, scores: seq<Score>, k: nat)
    requires k <= |scores|
    ensures |Stale(project, scores[..k])| == |Chosen(project, scores, k)|
  {
    hide Stale, Asked;
    if k == 0 {
      StaleNone(project);
    } else {
      StaleCount(project, scores, k - 1);
      assert scores[..k] == scores[..k - 1] + [scores[k - 1]];
      StaleSnoc(project, scores[..k - 1], scores[k - 1]);
      ChosenNext(project, scores, k - 1);
    }
  }

  lemma StaleNone(project: Option<int>)
    ensures Stale(project, []) == []
  {
  }

  /** The first batch, by its places in the table. */
  lemma BatchIs(project: Option<int>, scores: seq<Score>, size: nat, k: nat)
    requires DistinctScores(scores) && k < |scores|
    ensures scores[k] in Slice(Stale(project, scores), 0, size) <==> InBatch(project, scores, size, k)
    ensures forall b :: b in Slice(Stale(project, scores), 0, size) && b.log == scores[k].log ==> b == scores[k]
  {
    hide Stale, Slice, Asked;
    var stale, before, after := Stale(project, scores), Stale(project, scores[..k]), Stale(project, scores[k + 1..]);
    StaleCount(project, scores, k);
    StaleAround(project, scores, k);
    StaleWithin(project, scores);
    SliceWithin(stale, size);
    forall b | b in stale && b.log == scores[k].log ensures b == scores[k] {
      var j :| 0 <= j < |scores| && scores[j] == b;
    }
    if scores[k].stale && Asked(project, scores[k].project) {
      SliceHas(before, scores[k], after, size);
    }
  }

  lemma StaleWithin(project: Option<int>, scores: seq<Score>)
    ensures forall b :: b in Stale(project, scores) <==> b in scores && b.stale && Asked(project, b.project)
  {
  }

  lemma SliceWithin(list: seq<Score>, size: nat)
    ensures forall b :: b in Slice(list, 0, size) ==> b in list
  {
  }

  lemma StaleAround(project: Option<int>, scores: seq<Score>, k: nat)
    requires DistinctScores(scores) && k < |scores|
    ensures scores[k].stale && Asked(project, scores[k].project) ==>
      Stale(project, scores) == Stale(project, scores[..k]) + [scores[k]] + Stale(project, scores[k + 1..])
    ensures scores[k] !in Stale(project, scores[..k]) && scores[k] !in Stale(project, scores[k + 1..])
  {
    hide Stale, Asked;
    assert scores == scores[..k] + [scores[k]] + scores[k + 1..];
    StaleSnoc(project, scores[..k], scores[k]);
    StaleAppend(project, scores[..k] + [scores[k]], scores[k + 1..]);
    StaleWithin(project, scores[..k]);
    StaleWithin(project, scores[k + 1..]);
    forall i | 0 <= i < |scores| && i != k ensures scores[i] != scores[k] { }
  }

  lemma StaleAppend(project: Option<int>, a: seq<Score>, b: seq<Score>)
    ensures Stale(project, a + b) == Stale(project, a) + Stale(project, b)
  {
    WhereAppend(a, b, (r: Score) => r.stale && InProject(project, r.project));
  }

  lemma SliceHas(before: seq<Score>, x: Score, after: seq<Score>, size: nat)
    requires x !in before && x !in after
    ensures x in Slice(before + [x] + after, 0, size) <==> |before| < size
  {
    var list := before + [x] + after;
    assert list[|before|] == x;
    if |before| < size {
      if |list| > size { assert list[..size][|before|] == x; }
    } else {
      assert list[..size] == before[..size];
    }
  }

  /** What one pass of the scoring loop does to a score: it takes the mark from
      those of the first batch whose log is there, is no external touch and does
      not raise, and changes nothing else. */
  lemma PassIs(project: Option<int>, logs: seq<SendLog>, scores: seq<Score>, size: nat, raises: int -> bool, k: nat)
    requires DistinctLogs(logs) && DistinctScores(scores) && k < |scores|
    ensures var after, r := ClearAll(scores, Slice(Stale(project, scores), 0, size), EngineOf(logs, raises)), scores[k];
      && |after| == |scores|
      && after[k] == if InBatch(project, scores, size, k) && !PassedOver(logs, r.log) && !raises(r.log) then r.(stale := false) else r
  {
    hide Stale, Slice, InBatch, PassedOver, EngineOf, DistinctLogs, DistinctScores;
    var r, batch, engine := scores[k], Slice(Stale(project, scores), 0, size), EngineOf(logs, raises);
    ClearAllAt(scores, batch, engine, k);
    BatchIs(project, scores, size, k);
    CallIs(logs, raises, r.log);
    if InBatch(project, scores, size, k) { assert r in batch; }
  }

  lemma {:induction false} ClearAllAt(scores: seq<Score>, batch: seq<Score>, engine: Engine, k: nat)
    requires k < |scores|
    ensures var after := ClearAll(scores, batch, engine);
      |after| == |scores| && after[k] == if Stays(batch, engine, scores[k]) then scores[k] else scores[k].(stale := false)
  {
    if batch != [] {
      var front, last := Front(batch), Last(batch);
      ClearAllAt(scores, front, engine, k);
      assert forall b :: b in batch <==> b in front || b == last;
    }
  }

  /** Over any number of passes: a score either stays as it is or, if it was stale,
      of the project, and its log can be scored, loses the mark. */
  lemma {:induction false} ScoringIs(project: Option<int>, logs: seq<SendLog>, scores: seq<Score>, size: nat, raises: int -> bool, n: nat, k: nat)
    requires DistinctLogs(logs) && DistinctScores(scores) && k < |scores|
    ensures var after, r := Scored(project, scores, size, EngineOf(logs, raises), n), scores[k];
      && |after| == |scores| && (after[k] == r || after[k] == r.(stale := false))
      && (!r.stale || !Asked(project, r.project) || PassedOver(logs, r.log) || raises(r.log) ==> after[k] == r)
  {
    hide Stale, Slice, ClearAll, EngineOf, DistinctLogs, PassedOver, Asked;
    if n > 0 {
      ScoringIs(project, logs, scores, size, raises, n - 1, k);
      var before := Scored(project, scores, size, EngineOf(logs, raises), n - 1);
      ScoredIsPasses(project, scores, size, EngineOf(logs, raises), n - 1);
      PassIs(project, logs, before, size, raises, k);
    }
  }

  // ------------------------------------------------------------------- counters

  ghost function Sum(f: nat -> nat, n: nat): nat { if n == 0 then 0 else Sum(f, n - 1) + f(n - 1) }

  /** The two counters, pass by pass: the calls of a batch that raise are errors,
      all others count as computed. */
  lemma {:induction false} CountersAre(stale: seq<Score>, size: nat, logs: seq<SendLog>, raises: int -> bool, n: nat)
    requires DistinctLogs(logs)
    ensures var engine := EngineOf(logs, raises);
      var batch := (i: nat) => Slice(Passes(stale, size, engine, i), 0, size);
      && Computed(stale, size, engine, n) + Errors(stale, size, engine, n) == Sum(i => |batch(i)|, n)
      && Errors(stale, size, engine, n) == Sum(i => |Where(batch(i), (r: Score) => Fails(logs, raises, r.log))|, n)
  {
    hide Passes, Slice, Where, EngineOf, DistinctLogs, Fails;
    var engine := EngineOf(logs, raises);
    if n > 0 {
      CountersAre(stale, size, logs, raises, n - 1);
      var batch := Slice(Passes(stale, size, engine, n - 1), 0, size);
      ThreeWays(batch, engine);
      forall log ensures engine(log).Raises? <==> Fails(logs, raises, log) { FailsIs(logs, raises, log); }
      WhereExt(batch, Raising(engine), (r: Score) => Fails(logs, raises, r.log));
    }
  }

  /** A log of that id is there, is no external touch, and raises. */
  predicate Fails(logs: seq<SendLog>, raises: int -> bool, log: int) {
    raises(log) && exists k :: 0 <= k < |logs| && logs[k].id == log && logs[k].sourceType != "external_touch"
  }

  lemma FailsIs(logs: seq<SendLog>, raises: int -> bool, log: int)
    requires DistinctLogs(logs)
    ensures EngineOf(logs, raises)(log).Raises? <==> Fails(logs, raises, log)
  {
    CallIs(logs, raises, log);
  }
}
