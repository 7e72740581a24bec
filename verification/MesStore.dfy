/** The tables behind the score backfill and what its creation loop leaves. */
module MesStore {
  import opened Common
  import opened MesBackfill

  datatype SendLog = SendLog(
    id: int, project: int, user: int, status: string, queuedAt: int,
    channel: Option<string>, resolvedChannel: Option<string>, template: Option<int>,
    sourceType: string, sourceId: Option<int>)

  datatype Score = Score(
    log: int, project: int, user: int, channel: string, template: Option<int>,
    sourceType: string, sourceId: Option<int>, stale: bool)

  /** Python's `a or b` on optional text. */
  function Or(a: Option<string>, b: string): string {
    if a.Some? && a.value != "" then a.value else b
  }

  function NewScore(l: SendLog): Score {
    Score(l.id, l.project, l.user, Or(l.channel, Or(l.resolvedChannel, "unknown")), l.template, if l.sourceType != "" then l.sourceType else "unknown", l.sourceId, true)
  }

  function NewScores(logs: seq<SendLog>): seq<Score> {
    seq(|logs|, k requires 0 <= k < |logs| => NewScore(logs[k]))
  }

  /** A project filter of none, or of 0, is no filter. */
  predicate InProject(filter: Option<int>, project: int) {
    filter.None? || filter.value == 0 || filter.value == project
  }

  datatype Query = Query(project: Option<int>, cutoff: int)

  predicate Wanted(q: Query, l: SendLog) {
    l.status != "queued" && l.queuedAt >= q.cutoff && InProject(q.project, l.project)
  }

  predicate HasScore(scores: seq<Score>, log: int) { exists k :: 0 <= k < |scores| && scores[k].log == log }

  function ById(l: SendLog): SortKey { (l.id, 0, 0) }

  /** The send logs the query returns, in id order. */
  function Missing(q: Query, logs: seq<SendLog>, scores: seq<Score>): seq<SendLog> {
    Where(OrderBy(logs, ById), (l: SendLog) => Wanted(q, l) && !HasScore(scores, l.id))
  }

  ghost predicate DistinctLogs(logs: seq<SendLog>) {
    forall i, j :: 0 <= i < j < |logs| ==> logs[i].id != logs[j].id
  }

  // ---------------------------------------------------- what a commit removes

  lemma WhereMiddle<T>(a: seq<T>, batch: seq<T>, c: seq<T>)
    requires Distinct(a + batch + c)
    ensures Where(a + batch + c, (x: T) => x !in batch) == a + c
  {
    hide Where, Distinct;
    var out := (x: T) => x !in batch;
    DistinctParts(a + batch, c);
    DistinctParts(a, batch);
    WhereAppend(a + batch, c, out);
    WhereAppend(a, batch, out);
    assert forall x :: x in c ==> x !in batch by { assert forall x :: x in batch ==> x in a + batch; }
    WhereSame(a, out);
    WhereNone(batch, out);
    WhereSame(c, out);
  }

  /** Taking a slice's members out of a list cuts exactly the slice. */
  lemma WhereCut<T>(list: seq<T>, offset: nat, size: nat)
    requires Distinct(list)
    ensures Where(list, (x: T) => x !in Slice(list, offset, size)) == Cut(list, offset, size)
  {
    var batch := Slice(list, offset, size);
    var a := if batch == [] then list else list[..offset];
    var c := if batch == [] then [] else list[offset + |batch|..];
    assert list == a + batch + c && Cut(list, offset, size) == a + c;
    WhereMiddle(a, batch, c);
    WhereExt(list, (x: T) => x !in batch, (x: T) => x !in Slice(list, offset, size));
  }

  lemma MissingDistinct(q: Query, logs: seq<SendLog>, scores: seq<Score>)
    requires DistinctLogs(logs)
    ensures Distinct(Missing(q, logs, scores))
    ensures forall x, y :: x in Missing(q, logs, scores) && y in Missing(q, logs, scores) && x.id == y.id ==> x == y
    ensures forall x :: x in Missing(q, logs, scores) <==> x in logs && Wanted(q, x) && !HasScore(scores, x.id)
  {
    OrderByMembers(logs, ById);
    DistinctPermutation(logs, OrderBy(logs, ById));
    WhereDistinct(OrderBy(logs, ById), (l: SendLog) => Wanted(q, l) && !HasScore(scores, l.id));
    SameLog(logs);
  }

  lemma SameLog(logs: seq<SendLog>)
    requires DistinctLogs(logs)
    ensures forall x, y :: x in logs && y in logs && x.id == y.id ==> x == y
  {
    forall x, y | x in logs && y in logs && x.id == y.id ensures x == y {
      var i :| 0 <= i < |logs| && logs[i] == x;
      var j :| 0 <= j < |logs| && logs[j] == y;
    }
  }

  lemma HasNewScore(scores: seq<Score>, batch: seq<SendLog>, log: int)
    ensures HasScore(scores + NewScores(batch), log) <==> HasScore(scores, log) || exists b :: b in batch && b.id == log
  {
    var all := scores + NewScores(batch);
    if k :| 0 <= k < |scores| && scores[k].log == log { assert all[k].log == log; }
    if b :| b in batch && b.id == log {
      var j :| 0 <= j < |batch| && batch[j] == b;
      assert all[|scores| + j].log == log;
    }
    if k :| 0 <= k < |all| && all[k].log == log && k >= |scores| { assert batch[k - |scores|] in batch; }
  }

  /** A committed batch disappears from the query, and only it. */
  lemma CommitCuts(q: Query, logs: seq<SendLog>, scores: seq<Score>, offset: nat, size: nat)
    requires DistinctLogs(logs)
    ensures var missing := Missing(q, logs, scores); var batch := Slice(missing, offset, size);
      Missing(q, logs, scores + NewScores(batch)) == Cut(missing, offset, size)
  {
    var missing := Missing(q, logs, scores);
    var batch := Slice(missing, offset, size);
    var scores' := scores + NewScores(batch);
    var keep := (l: SendLog) => Wanted(q, l) && !HasScore(scores, l.id);
    var keep2 := (l: SendLog) => Wanted(q, l) && !HasScore(scores', l.id);
    var out := (l: SendLog) => l !in batch;
    MissingDistinct(q, logs, scores);
    SameLog(logs);
    OrderByMembers(logs, ById);
    forall x | x in OrderBy(logs, ById) ensures keep2(x) <==> keep(x) && out(x) {
      HasNewScore(scores, batch, x.id);
      assert forall b :: b in batch ==> b in missing;
    }
    WhereRefined(OrderBy(logs, ById), keep, keep2, out);
    WhereCut(missing, offset, size);
    WhereExt(missing, out, (x: SendLog) => x !in Slice(missing, offset, size));
  }

  // -------------------------------------------------------------- whole runs

  lemma LoopStep<T>(missing: seq<T>, offset: nat, size: nat)
    ensures Slice(missing, offset, size) == [] ==> Created(missing, offset, size) == [] && Left(missing, offset, size) == missing
    ensures Slice(missing, offset, size) != [] ==> |Cut(missing, offset, size)| < |missing|
    ensures Slice(missing, offset, size) != [] ==>
      Created(missing, offset, size) == Slice(missing, offset, size) + Created(Cut(missing, offset, size), offset + size, size)
    ensures Slice(missing, offset, size) != [] ==>
      Left(missing, offset, size) == Left(Cut(missing, offset, size), offset + size, size)
  {
  }

  lemma NewScoresEmpty()
    ensures NewScores([]) == []
  {
  }

  lemma NewScoresAppend(a: seq<SendLog>, b: seq<SendLog>)
    ensures NewScores(a + b) == NewScores(a) + NewScores(b)
  {
  }

  /** The scores after one creation run. */
  function CreateOnce(q: Query, logs: seq<SendLog>, scores: seq<Score>, size: nat): seq<Score> {
    scores + NewScores(Created(Missing(q, logs, scores), 0, size))
  }

  /** From any point of the loop: what is created leaves what Left says. */
  lemma {:induction false} CreationLeaves(q: Query, logs: seq<SendLog>, scores: seq<Score>, offset: nat, size: nat)
    requires DistinctLogs(logs)
    ensures var missing := Missing(q, logs, scores);
      Missing(q, logs, scores + NewScores(Created(missing, offset, size))) == Left(missing, offset, size)
    decreases |Missing(q, logs, scores)|
  {
    hide Missing, Created, Left, Slice, Cut, NewScores, DistinctLogs;
    var missing := Missing(q, logs, scores);
    var batch, rest := Slice(missing, offset, size), Cut(missing, offset, size);
    LoopStep(missing, offset, size);
    NewScoresEmpty();
    if batch == [] {
      assert scores + [] == scores;
    } else {
      var after := scores + NewScores(batch);
      CommitCuts(q, logs, scores, offset, size);
      CreationLeaves(q, logs, after, offset + size, size);
      NewScoresAppend(batch, Created(rest, offset + size, size));
      assert after + NewScores(Created(rest, offset + size, size)) == scores + NewScores(Created(missing, offset, size));
    }
  }

  /** The scores after a number of creation runs. */
  function CreateTimes(q: Query, logs: seq<SendLog>, scores: seq<Score>, size: nat, runs: nat): seq<Score>
    decreases runs
  {
    if runs == 0 then scores else CreateTimes(q, logs, CreateOnce(q, logs, scores, size), size, runs - 1)
  }

  /** The number still missing after repeated runs over one set of logs. */
  lemma {:induction false} RunsLeave(q: Query, logs: seq<SendLog>, scores: seq<Score>, size: nat, runs: nat)
    requires DistinctLogs(logs) && size > 0
    ensures |Missing(q, logs, CreateTimes(q, logs, scores, size, runs))| == LeftAfter(|Missing(q, logs, scores)|, size, runs)
    decreases runs
  {
    hide Missing, Created, Left, NewScores, Evens;
    if runs > 0 {
      var missing := Missing(q, logs, scores);
      MissingDistinct(q, logs, scores);
      CreationCoverage(missing, size);
      CreationLeaves(q, logs, scores, 0, size);
      RunsLeave(q, logs, CreateOnce(q, logs, scores, size), size, runs - 1);
    }
  }

  /** Every wanted log has a score after k runs if and only if at most 2^k - 1
      batches of them had none before the first. */
  lemma RunsCompleteIff(q: Query, logs: seq<SendLog>, scores: seq<Score>, size: nat, runs: nat)
    requires DistinctLogs(logs) && size > 0
    ensures (forall l :: l in logs && Wanted(q, l) ==> HasScore(CreateTimes(q, logs, scores, size, runs), l.id))
      <==> |Missing(q, logs, scores)| <= (Pow2(runs) - 1) * size
  {
    hide Missing, CreateTimes, HasScore;
    var after := CreateTimes(q, logs, scores, size, runs);
    var missing := Missing(q, logs, after);
    RunsLeave(q, logs, scores, size, runs);
    RunsNeededIff(|Missing(q, logs, scores)|, size, runs);
    MissingDistinct(q, logs, after);
    if missing != [] { assert missing[0] in missing; }
  }

  /** What the creation loop means for one log of the initial list. */
  lemma CreatedRowsAreExact(q: Query, logs: seq<SendLog>, scores: seq<Score>, size: nat, i: nat)
    requires DistinctLogs(logs) && size > 0 && i < |Missing(q, logs, scores)|
    ensures var missing := Missing(q, logs, scores);
      HasScore(CreateOnce(q, logs, scores, size), missing[i].id) <==> i / size % 2 == 0
  {
    hide Missing, Created, HasScore, NewScores, DistinctLogs;
    var missing := Missing(q, logs, scores);
    MissingDistinct(q, logs, scores);
    CreatedFrom(missing, size, i);
    HasNewScore(scores, Created(missing, 0, size), missing[i].id);
    assert missing[i] in missing;
  }

  lemma CreatedFrom<T>(missing: seq<T>, size: nat, i: nat)
    requires size > 0 && Distinct(missing) && i < |missing|
    ensures missing[i] in Created(missing, 0, size) <==> i / size % 2 == 0
    ensures forall x :: x in Created(missing, 0, size) ==> x in missing
  {
    hide Created;
    CreationCoverage(missing, size);
    CreatedIsBlocks([], missing, size);
    assert [] + missing == missing;
    BlocksWithin(missing, size, true);
  }
}
