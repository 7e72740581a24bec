/** The scoring loop of the backfill: what one computation can do, when the loop
    ends, which scores it reaches and what it counts. */
module MesScoring {
  import opened Common
  import opened MesBackfill
  import opened MesStore

  // ------------------------------------------------------------------ scoring

  /** What computing the score of a log does: it writes the score and clears
      the mark, returns without touching it, or raises. */
  datatype Effect = Clears | Skips | Raises

  type Engine = int -> Effect

  /** The stale scores of a project, in id order: rows are kept in the order of
      their ids. */
  function Stale(project: Option<int>, scores: seq<Score>): seq<Score> {
    Where(scores, (r: Score) => r.stale && InProject(project, r.project))
  }

  /** A successful computation clears the mark of its log's score. */
  function Clear(scores: seq<Score>, log: int): seq<Score> {
    seq(|scores|, k requires 0 <= k < |scores| => if scores[k].log == log then scores[k].(stale := false) else scores[k])
  }

  function ClearAll(scores: seq<Score>, batch: seq<Score>, engine: Engine): seq<Score> {
    if batch == [] then scores
    else
      var before := ClearAll(scores, Front(batch), engine);
      if engine(Last(batch).log) != Clears then before else Clear(before, Last(batch).log)
  }

  function Stuck(engine: Engine): Score -> bool { (r: Score) => engine(r.log) != Clears }
  function Clearing(engine: Engine): Score -> bool { (r: Score) => engine(r.log).Clears? }
  function Skipping(engine: Engine): Score -> bool { (r: Score) => engine(r.log).Skips? }
  function Raising(engine: Engine): Score -> bool { (r: Score) => engine(r.log).Raises? }

  ghost predicate AllClear(stale: seq<Score>, engine: Engine) { forall r :: r in stale ==> engine(r.log).Clears? }

  /** One pass over a list of stale scores: what stays. */
  function Pass(stale: seq<Score>, size: nat, engine: Engine): seq<Score> {
    Where(Slice(stale, 0, size), Stuck(engine)) + Cut(stale, 0, size)
  }

  function Passes(stale: seq<Score>, size: nat, engine: Engine, n: nat): seq<Score> {
    if n == 0 then stale else Pass(Passes(stale, size, engine, n - 1), size, engine)
  }


  /** Stuck scores are never lost, and the pass takes away exactly the others
      of its batch. */
  lemma PassShape(stale: seq<Score>, size: nat, engine: Engine)
    ensures Where(Pass(stale, size, engine), Stuck(engine)) == Where(stale, Stuck(engine))
    ensures |Pass(stale, size, engine)| + |Where(Slice(stale, 0, size), Clearing(engine))| == |stale|
  {
    var batch, rest, f := Slice(stale, 0, size), Cut(stale, 0, size), Stuck(engine);
    assert stale == batch + rest;
    WhereAppend(batch, rest, f);
    WhereAppend(Where(batch, f), rest, f);
    WhereSame(Where(batch, f), f);
    Partition(batch, engine);
  }

  lemma {:induction false} Partition(batch: seq<Score>, engine: Engine)
    ensures |Where(batch, Stuck(engine))| + |Where(batch, Clearing(engine))| == |batch|
  {
    if batch != [] { Partition(batch[1..], engine); }
  }

  lemma {:induction false} PassesKeepStuck(stale: seq<Score>, size: nat, engine: Engine, n: nat)
    ensures Where(Passes(stale, size, engine, n), Stuck(engine)) == Where(stale, Stuck(engine))
  {
    hide Pass;
    if n > 0 {
      PassesKeepStuck(stale, size, engine, n - 1);
      PassShape(Passes(stale, size, engine, n - 1), size, engine);
    }
  }

  function Drop(list: seq<Score>, k: nat): seq<Score> { if k >= |list| then [] else list[k..] }

  lemma CleanPass(stale: seq<Score>, k: nat, size: nat, engine: Engine)
    requires AllClear(stale, engine)
    ensures Pass(Drop(stale, k), size, engine) == Drop(stale, k + size)
  {
    var before := Drop(stale, k);
    assert forall r :: r in before ==> r in stale;
    WhereNone(Slice(before, 0, size), Stuck(engine));
  }

  /** When every score clears, each pass is one whole batch. */
  lemma {:induction false} CleanPasses(stale: seq<Score>, size: nat, engine: Engine, n: nat)
    requires AllClear(stale, engine)
    ensures Passes(stale, size, engine, n) == Drop(stale, n * size)
  {
    hide Pass;
    if n > 0 {
      CleanPasses(stale, size, engine, n - 1);
      CleanPass(stale, (n - 1) * size, size, engine);
      assert n * size == (n - 1) * size + size;
    }
  }

  /** The loop ends, with a positive batch size, exactly when every stale score
      clears; one that is skipped or raises keeps every batch from being empty. */
  lemma TerminatesIff(stale: seq<Score>, size: nat, engine: Engine)
    requires size > 0
    ensures (exists n: nat :: Passes(stale, size, engine, n) == []) <==> AllClear(stale, engine)
  {
    hide Passes;
    if AllClear(stale, engine) {
      CleanPasses(stale, size, engine, |stale|);
      AtLeast(|stale|, size);
    }
    if n: nat :| Passes(stale, size, engine, n) == [] {
      PassesKeepStuck(stale, size, engine, n);
      forall r | r in stale ensures engine(r.log).Clears? {
        assert r !in Where(stale, Stuck(engine));
      }
    }
  }

  lemma AtLeast(n: nat, size: nat)
    requires size > 0
    ensures n * size >= n
  {
    assert n * (size - 1) >= 0;
  }

  /** A score beyond the batch moves up by what the pass takes before it. */
  lemma PassBeyond(before: seq<Score>, x: Score, after: seq<Score>, size: nat, engine: Engine)
    requires |before| >= size
    ensures Pass(before + [x] + after, size, engine) == Pass(before, size, engine) + [x] + after
  {
    var all := before + [x] + after;
    assert Slice(all, 0, size) == before[..size] == Slice(before, 0, size);
    assert Cut(all, 0, size) == before[size..] + [x] + after;
    assert Cut(before, 0, size) == before[size..];
  }

  /** A score within the batch that clears is gone after the pass. */
  lemma PassReaches(before: seq<Score>, x: Score, after: seq<Score>, size: nat, engine: Engine)
    requires |before| < size && engine(x.log).Clears? && x !in before && x !in after
    ensures x !in Pass(before + [x] + after, size, engine)
  {
    var all := before + [x] + after;
    var k := if |all| <= size then |after| else size - |before| - 1;
    assert all == (before + [x] + after[..k]) + after[k..];
    assert Slice(all, 0, size) == before + [x] + after[..k];
    assert Cut(all, 0, size) == after[k..];
  }

  /** A stale score leaves the list in some pass if and only if computing it
      clears it and fewer stuck scores than a batch stand before it. */
  lemma ScoredIff(before: seq<Score>, x: Score, after: seq<Score>, size: nat, engine: Engine)
    requires size > 0 && x !in before && x !in after
    ensures (exists n: nat :: x !in Passes(before + [x] + after, size, engine, n))
      <==> engine(x.log).Clears? && |Where(before, Stuck(engine))| < size
  {
    hide Passes, Where;
    var all := before + [x] + after;
    if engine(x.log) != Clears {
      forall n: nat ensures x in Passes(all, size, engine, n) { StuckStays(all, size, engine, n, |before|); }
    } else if |Where(before, Stuck(engine))| < size {
      var n := EventuallyScored(before, x, after, size, engine);
    } else {
      forall n: nat ensures x in Passes(all, size, engine, n) {
        NeverScored(before, x, after, size, engine, n);
      }
    }
  }

  lemma StuckStays(stale: seq<Score>, size: nat, engine: Engine, n: nat, i: nat)
    requires i < |stale| && engine(stale[i].log) != Clears
    ensures stale[i] in Passes(stale, size, engine, n)
  {
    PassesKeepStuck(stale, size, engine, n);
    assert stale[i] in stale && stale[i] in Where(stale, Stuck(engine));
    assert stale[i] in Where(Passes(stale, size, engine, n), Stuck(engine));
  }

  lemma {:induction false} EventuallyScored(before: seq<Score>, x: Score, after: seq<Score>, size: nat, engine: Engine) returns (n: nat)
    requires engine(x.log).Clears? && size > 0 && x !in before && x !in after && |Where(before, Stuck(engine))| < size
    ensures x !in Passes(before + [x] + after, size, engine, n)
    decreases |before|
  {
    hide Pass, Where;
    var all := before + [x] + after;
    if |before| < size {
      PassReaches(before, x, after, size, engine);
      n := 1;
      assert Passes(all, size, engine, 1) == Pass(Passes(all, size, engine, 0), size, engine);
    } else {
      PassBeyond(before, x, after, size, engine);
      PassShape(before, size, engine);
      Shrinks(before, size, engine);
      PassWithin(before, size, engine);
      var m := EventuallyScored(Pass(before, size, engine), x, after, size, engine);
      n := m + 1;
      PassesShift(all, size, engine, m);
    }
  }

  lemma PassWithin(stale: seq<Score>, size: nat, engine: Engine)
    ensures forall r :: r in Pass(stale, size, engine) ==> r in stale
  {
  }

  /** A batch longer than the stuck scores holds one that clears. */
  lemma Shrinks(stale: seq<Score>, size: nat, engine: Engine)
    requires |stale| >= size && |Where(stale, Stuck(engine))| < size
    ensures |Pass(stale, size, engine)| < |stale|
  {
    var batch, rest := Slice(stale, 0, size), Cut(stale, 0, size);
    assert stale == batch + rest;
    WhereAppend(batch, rest, Stuck(engine));
    Partition(batch, engine);
    PassShape(stale, size, engine);
  }

  lemma {:induction false} PassesShift(stale: seq<Score>, size: nat, engine: Engine, n: nat)
    ensures Passes(stale, size, engine, n + 1) == Passes(Pass(stale, size, engine), size, engine, n)
  {
    hide Pass;
    if n > 0 { PassesShift(stale, size, engine, n - 1); }
    else { assert Passes(stale, size, engine, 1) == Pass(Passes(stale, size, engine, 0), size, engine); }
  }

  lemma {:induction false} NeverScored(before: seq<Score>, x: Score, after: seq<Score>, size: nat, engine: Engine, n: nat)
    requires engine(x.log).Clears? && size > 0 && |Where(before, Stuck(engine))| >= size
    ensures x in Passes(before + [x] + after, size, engine, n)
    decreases n
  {
    hide Pass, Where;
    var all := before + [x] + after;
    if n == 0 {
      assert all[|before|] == x;
    } else {
      StuckAtMost(before, engine);
      PassBeyond(before, x, after, size, engine);
      PassShape(before, size, engine);
      NeverScored(Pass(before, size, engine), x, after, size, engine, n - 1);
      PassesShift(all, size, engine, n - 1);
    }
  }

  lemma StuckAtMost(rows: seq<Score>, engine: Engine)
    ensures |Where(rows, Stuck(engine))| <= |rows|
  {
    Partition(rows, engine);
  }

  // ------------------------------------------------------- a pass on the table

  ghost predicate DistinctScores(scores: seq<Score>) {
    forall i, j :: 0 <= i < j < |scores| ==> scores[i].log != scores[j].log
  }

  lemma {:induction false} ClearStale(project: Option<int>, scores: seq<Score>, log: int)
    ensures Stale(project, Clear(scores, log)) == Where(Stale(project, scores), (r: Score) => r.log != log)
  {
    if scores != [] {
      var keep, also := (r: Score) => r.stale && InProject(project, r.project), (r: Score) => r.log != log;
      var cleared := Clear(scores, log);
      assert cleared[1..] == Clear(scores[1..], log);
      ClearStale(project, scores[1..], log);
      var head := if keep(scores[0]) then [scores[0]] else [];
      WhereAppend(head, Where(scores[1..], keep), also);
    }
  }

  /** A batch does not clear this score. */
  predicate Stays(batch: seq<Score>, engine: Engine, r: Score) {
    forall b :: b in batch && b.log == r.log ==> engine(b.log) != Clears
  }

  lemma {:induction false} ClearAllStale(project: Option<int>, scores: seq<Score>, batch: seq<Score>, engine: Engine)
    ensures Stale(project, ClearAll(scores, batch, engine)) == Where(Stale(project, scores), (r: Score) => Stays(batch, engine, r))
  {
    hide Stale, Clear;
    var stale := Stale(project, scores);
    if batch == [] {
      WhereSame(stale, (r: Score) => Stays(batch, engine, r));
    } else {
      var front, last := Front(batch), Last(batch);
      assert forall b :: b in batch <==> b in front || b == last;
      ClearAllStale(project, scores, front, engine);
      if engine(last.log) != Clears {
        WhereExt(stale, (r: Score) => Stays(batch, engine, r), (r: Score) => Stays(front, engine, r));
      } else {
        ClearStale(project, ClearAll(scores, front, engine), last.log);
        WhereRefined(stale, (r: Score) => Stays(front, engine, r), (r: Score) => Stays(batch, engine, r), (r: Score) => r.log != last.log);
      }
    }
  }

  lemma {:induction false} StaleDistinct(project: Option<int>, scores: seq<Score>)
    requires DistinctScores(scores)
    ensures DistinctScores(Stale(project, scores))
  {
    if scores != [] {
      StaleDistinct(project, scores[1..]);
      assert forall r :: r in scores[1..] ==> r.log != scores[0].log;
    }
  }

  /** Committing one batch of computations is one pass. */
  lemma PassCommits(project: Option<int>, scores: seq<Score>, size: nat, engine: Engine)
    requires DistinctScores(scores)
    ensures var stale := Stale(project, scores);
      Stale(project, ClearAll(scores, Slice(stale, 0, size), engine)) == Pass(stale, size, engine)
  {
    hide Stale, ClearAll, Stays, Where, DistinctScores, Slice, Cut;
    var stale := Stale(project, scores);
    var batch, rest := Slice(stale, 0, size), Cut(stale, 0, size);
    SliceAndCut(stale, size);
    var stays := (r: Score) => Stays(batch, engine, r);
    StaleDistinct(project, scores);
    ClearAllStale(project, scores, batch, engine);
    WhereAppend(batch, rest, stays);
    BatchStays(batch, rest, engine);
    WhereExt(batch, stays, Stuck(engine));
    WhereSame(rest, stays);
  }

  lemma SliceAndCut(list: seq<Score>, size: nat)
    ensures list == Slice(list, 0, size) + Cut(list, 0, size)
  {
  }

  lemma BatchStays(batch: seq<Score>, rest: seq<Score>, engine: Engine)
    requires DistinctScores(batch + rest)
    ensures forall r :: r in batch ==> (Stays(batch, engine, r) <==> engine(r.log) != Clears)
    ensures forall r :: r in rest ==> Stays(batch, engine, r)
  {
    var all := batch + rest;
    forall r | r in rest ensures Stays(batch, engine, r) {
      var j :| 0 <= j < |rest| && rest[j] == r;
      assert all[|batch| + j] == r;
      forall b | b in batch ensures b.log != r.log {
        var i :| 0 <= i < |batch| && batch[i] == b;
        assert all[i] == b;
      }
    }
  }

  lemma {:induction false} ClearAllKeepsLogs(scores: seq<Score>, batch: seq<Score>, engine: Engine)
    ensures |ClearAll(scores, batch, engine)| == |scores|
    ensures forall k :: 0 <= k < |scores| ==> ClearAll(scores, batch, engine)[k].log == scores[k].log
  {
    if batch != [] { ClearAllKeepsLogs(scores, Front(batch), engine); }
  }

  lemma StillDistinct(scores: seq<Score>, batch: seq<Score>, engine: Engine)
    requires DistinctScores(scores)
    ensures DistinctScores(ClearAll(scores, batch, engine))
  {
    ClearAllKeepsLogs(scores, batch, engine);
  }

  /** The scores after a number of committed passes. */
  function Scored(project: Option<int>, scores: seq<Score>, size: nat, engine: Engine, n: nat): seq<Score> {
    if n == 0 then scores
    else
      var before := Scored(project, scores, size, engine, n - 1);
      ClearAll(before, Slice(Stale(project, before), 0, size), engine)
  }

  /** On the table each of them is a pass over the stale list. */
  lemma {:induction false} ScoredIsPasses(project: Option<int>, scores: seq<Score>, size: nat, engine: Engine, n: nat)
    requires DistinctScores(scores)
    ensures var after := Scored(project, scores, size, engine, n);
      DistinctScores(after) && Stale(project, after) == Passes(Stale(project, scores), size, engine, n)
  {
    hide Stale, ClearAll, Slice, Pass, DistinctScores;
    if n > 0 {
      var before := Scored(project, scores, size, engine, n - 1);
      ScoredIsPasses(project, scores, size, engine, n - 1);
      PassCommits(project, before, size, engine);
      StillDistinct(before, Slice(Stale(project, before), 0, size), engine);
    }
  }

  // ------------------------------------------------------------- the engine

  const TOUCH: string := "external_touch"

  /** compute_score: a missing log and an external touch are passed over without
      an error and without clearing the mark; otherwise the pipeline raises or
      the score is written. Which logs it raises for is not known. */
  function ComputeScore(logs: seq<SendLog>, raises: int -> bool, log: int): Effect {
    var found := First(logs, (l: SendLog) => l.id == log);
    if found.None? || found.value.sourceType == TOUCH then Skips
    else if raises(log) then Raises
    else Clears
  }

  function EngineOf(logs: seq<SendLog>, raises: int -> bool): Engine { (log: int) => ComputeScore(logs, raises, log) }

  lemma TouchIsSkipped(logs: seq<SendLog>, raises: int -> bool, l: SendLog)
    requires DistinctLogs(logs) && l in logs && l.sourceType == TOUCH
    ensures ComputeScore(logs, raises, l.id) == Skips
  {
    SameLog(logs);
  }

  // ------------------------------------------------------------- the counters

  function NotRaising(engine: Engine): Score -> bool { (r: Score) => !engine(r.log).Raises? }

  /** The computed counter after n passes: every call that did not raise. */
  function Computed(stale: seq<Score>, size: nat, engine: Engine, n: nat): nat {
    if n == 0 then 0
    else Computed(stale, size, engine, n - 1) + |Where(Slice(Passes(stale, size, engine, n - 1), 0, size), NotRaising(engine))|
  }

  /** The error counter after n passes. */
  function Errors(stale: seq<Score>, size: nat, engine: Engine, n: nat): nat {
    if n == 0 then 0
    else Errors(stale, size, engine, n - 1) + |Where(Slice(Passes(stale, size, engine, n - 1), 0, size), Raising(engine))|
  }

  /** How often a score was passed over in n passes. */
  function Skipped(stale: seq<Score>, size: nat, engine: Engine, n: nat): nat {
    if n == 0 then 0
    else Skipped(stale, size, engine, n - 1) + |Where(Slice(Passes(stale, size, engine, n - 1), 0, size), Skipping(engine))|
  }

  lemma {:induction false} ThreeWays(batch: seq<Score>, engine: Engine)
    ensures |Where(batch, NotRaising(engine))| == |Where(batch, Clearing(engine))| + |Where(batch, Skipping(engine))|
    ensures |Where(batch, NotRaising(engine))| + |Where(batch, Raising(engine))| == |batch|
  {
    if batch != [] { ThreeWays(batch[1..], engine); }
  }

  /** The computed counter exceeds what left the stale list by exactly the
      number of times a score was passed over. */
  lemma {:induction false} ComputedIs(stale: seq<Score>, size: nat, engine: Engine, n: nat)
    ensures Computed(stale, size, engine, n) + |Passes(stale, size, engine, n)| == |stale| + Skipped(stale, size, engine, n)
  {
    hide Pass;
    if n > 0 {
      var before := Passes(stale, size, engine, n - 1);
      ComputedIs(stale, size, engine, n - 1);
      PassShape(before, size, engine);
      ThreeWays(Slice(before, 0, size), engine);
    }
  }

  lemma {:induction false} PassesWithin(stale: seq<Score>, size: nat, engine: Engine, n: nat)
    ensures forall r :: r in Passes(stale, size, engine, n) ==> r in stale
  {
    hide Pass;
    if n > 0 {
      PassesWithin(stale, size, engine, n - 1);
      PassWithin(Passes(stale, size, engine, n - 1), size, engine);
    }
  }

  /** When every score clears nothing is passed over and nothing raises. */
  lemma {:induction false} CleanCounts(stale: seq<Score>, size: nat, engine: Engine, n: nat)
    requires AllClear(stale, engine)
    ensures Skipped(stale, size, engine, n) == 0 && Errors(stale, size, engine, n) == 0
    ensures Computed(stale, size, engine, n) == |stale| - |Passes(stale, size, engine, n)|
  {
    hide Passes, Where, Slice;
    ComputedIs(stale, size, engine, n);
    if n > 0 {
      CleanCounts(stale, size, engine, n - 1);
      PassesWithin(stale, size, engine, n - 1);
      CleanBatch(Passes(stale, size, engine, n - 1), size, engine);
    }
  }

  /** Whenever the loop does end, it has computed every score that was stale at
      the start, once, and has counted no error. */
  lemma EndsComplete(stale: seq<Score>, size: nat, engine: Engine, n: nat)
    requires size > 0 && Passes(stale, size, engine, n) == []
    ensures Computed(stale, size, engine, n) == |stale| && Errors(stale, size, engine, n) == 0
  {
    hide Passes;
    TerminatesIff(stale, size, engine);
    CleanCounts(stale, size, engine, n);
  }

  lemma CleanBatch(list: seq<Score>, size: nat, engine: Engine)
    requires AllClear(list, engine)
    ensures |Where(Slice(list, 0, size), Skipping(engine))| == 0 && |Where(Slice(list, 0, size), Raising(engine))| == 0
  {
    hide Where;
    assert forall r :: r in Slice(list, 0, size) ==> r in list;
    WhereNone(Slice(list, 0, size), Skipping(engine));
    WhereNone(Slice(list, 0, size), Raising(engine));
  }

  /** With one stuck score every further pass makes a call, for ever. */
  lemma {:induction false} CallsGrow(stale: seq<Score>, size: nat, engine: Engine, n: nat, x: Score)
    requires size > 0 && x in stale && engine(x.log) != Clears
    ensures Passes(stale, size, engine, n) != []
    ensures Computed(stale, size, engine, n) + Errors(stale, size, engine, n) >= n
  {
    hide Passes, Where, Slice;
    var i :| 0 <= i < |stale| && stale[i] == x;
    StuckStays(stale, size, engine, n, i);
    if n > 0 {
      CallsGrow(stale, size, engine, n - 1, x);
      SomeCall(Passes(stale, size, engine, n - 1), size, engine);
    }
  }

  lemma SomeCall(list: seq<Score>, size: nat, engine: Engine)
    requires size > 0 && list != []
    ensures |Where(Slice(list, 0, size), NotRaising(engine))| + |Where(Slice(list, 0, size), Raising(engine))| >= 1
  {
    ThreeWays(Slice(list, 0, size), engine);
  }

  lemma {:induction false} NoErrors(stale: seq<Score>, size: nat, engine: Engine, n: nat)
    requires forall log :: !engine(log).Raises?
    ensures Errors(stale, size, engine, n) == 0
  {
    hide Passes;
    if n > 0 {
      NoErrors(stale, size, engine, n - 1);
      WhereNone(Slice(Passes(stale, size, engine, n - 1), 0, size), Raising(engine));
    }
  }

  /** The creation loop does not filter external touches out, and one score it
      makes for a touch is enough: whatever else is in the tables, the scoring
      loop after it never ends; if nothing raises, the error counter stays at
      zero while the computed counter grows with every pass. */
  lemma TouchNeverEnds(q: Query, logs: seq<SendLog>, scores: seq<Score>, size: nat, i: nat, raises: int -> bool, batch: nat, n: nat)
    requires DistinctLogs(logs) && size > 0 && batch > 0
    requires var missing := Missing(q, logs, scores);
      i < |missing| && missing[i].sourceType == TOUCH && i / size % 2 == 0
    ensures var stale, engine := Stale(q.project, CreateOnce(q, logs, scores, size)), EngineOf(logs, raises);
      && Passes(stale, batch, engine, n) != []
      && Computed(stale, batch, engine, n) + Errors(stale, batch, engine, n) >= n
      && ((forall log :: !raises(log)) ==> Errors(stale, batch, engine, n) == 0 && Computed(stale, batch, engine, n) >= n)
  {
    hide Missing, CreateOnce, Stale, Passes, Computed, Errors, ComputeScore, DistinctLogs;
    var l, engine := Missing(q, logs, scores)[i], EngineOf(logs, raises);
    var stale := Stale(q.project, CreateOnce(q, logs, scores, size));
    MissingDistinct(q, logs, scores);
    assert l in Missing(q, logs, scores);
    ScoreIsMade(q, logs, scores, size, i);
    TouchIsSkipped(logs, raises, l);
    CallsGrow(stale, batch, engine, n, NewScore(l));
    if forall log :: !raises(log) {
      NeverRaises(logs, raises);
      NoErrors(stale, batch, engine, n);
    }
  }

  lemma NeverRaises(logs: seq<SendLog>, raises: int -> bool)
    requires forall log :: !raises(log)
    ensures forall log :: !EngineOf(logs, raises)(log).Raises?
  {
  }

  /** A log in an even block gets a score, and that score is stale. */
  lemma ScoreIsMade(q: Query, logs: seq<SendLog>, scores: seq<Score>, size: nat, i: nat)
    requires DistinctLogs(logs) && size > 0 && i < |Missing(q, logs, scores)| && i / size % 2 == 0
    ensures NewScore(Missing(q, logs, scores)[i]) in Stale(q.project, CreateOnce(q, logs, scores, size))
  {
    hide Missing, Created, DistinctLogs;
    var missing := Missing(q, logs, scores);
    var l, made := missing[i], Created(missing, 0, size);
    MissingDistinct(q, logs, scores);
    assert l in missing;
    CreationCoverage(missing, size);
    var j :| 0 <= j < |made| && made[j] == l;
    assert CreateOnce(q, logs, scores, size)[|scores| + j] == NewScore(l);
    StaleIs(q.project, CreateOnce(q, logs, scores, size), NewScore(l));
  }

  lemma StaleIs(project: Option<int>, scores: seq<Score>, r: Score)
    requires r in scores && r.stale && InProject(project, r.project)
    ensures r in Stale(project, scores)
  {
  }

  // ----------------------------------------------------------- marking all

  /** The UPDATE of mark_all_stale. */
  function MarkStale(project: Option<int>, scores: seq<Score>): seq<Score> {
    seq(|scores|, k requires 0 <= k < |scores| =>
      if InProject(project, scores[k].project) then scores[k].(stale := true) else scores[k])
  }

  function OfProject(project: Option<int>, scores: seq<Score>): seq<Score> {
    Where(scores, (r: Score) => InProject(project, r.project))
  }

  function LogsOf(scores: seq<Score>): seq<int> { seq(|scores|, k requires 0 <= k < |scores| => scores[k].log) }

  /** Afterwards the scoring query returns one score for each score the project
      has, in the same order, and every other project's scores are as before. */
  lemma MarkedIsWholeProject(project: Option<int>, scores: seq<Score>)
    ensures LogsOf(Stale(project, MarkStale(project, scores))) == LogsOf(OfProject(project, scores))
    ensures OfProject(project, MarkStale(project, scores)) == Stale(project, MarkStale(project, scores))
    ensures Where(MarkStale(project, scores), (r: Score) => !InProject(project, r.project))
         == Where(scores, (r: Score) => !InProject(project, r.project))
  {
    hide Where;
    MarkedStale(project, scores);
    MarkedOthers(project, scores);
    WhereExt(MarkStale(project, scores), (r: Score) => InProject(project, r.project), (r: Score) => r.stale && InProject(project, r.project));
  }

  lemma {:induction false} MarkedStale(project: Option<int>, scores: seq<Score>)
    ensures Stale(project, MarkStale(project, scores)) == MarkStale(project, OfProject(project, scores))
  {
    hide Where, InProject;
    Heads(project, scores);
    if scores != [] {
      var head, tail := scores[0], scores[1..];
      var marked := head.(stale := true);
      Heads(project, MarkStale(project, scores));
      assert MarkStale(project, scores)[1..] == MarkStale(project, tail);
      MarkedStale(project, tail);
      if InProject(project, head.project) {
        assert MarkStale(project, [head]) == [marked];
        MarkAppend(project, [head], OfProject(project, tail));
      }
    }
  }

  /** The first row of a table in the two queries. */
  lemma Heads(project: Option<int>, rows: seq<Score>)
    ensures rows == [] ==> Stale(project, rows) == [] && OfProject(project, rows) == []
    ensures rows != [] && !InProject(project, rows[0].project) ==>
      Stale(project, rows) == Stale(project, rows[1..]) && OfProject(project, rows) == OfProject(project, rows[1..])
    ensures rows != [] && InProject(project, rows[0].project) ==> OfProject(project, rows) == [rows[0]] + OfProject(project, rows[1..])
    ensures rows != [] && InProject(project, rows[0].project) && rows[0].stale ==> Stale(project, rows) == [rows[0]] + Stale(project, rows[1..])
  {
  }

  lemma MarkAppend(project: Option<int>, a: seq<Score>, b: seq<Score>)
    ensures MarkStale(project, a + b) == MarkStale(project, a) + MarkStale(project, b)
  {
  }

  lemma {:induction false} MarkedOthers(project: Option<int>, scores: seq<Score>)
    ensures Where(MarkStale(project, scores), (r: Score) => !InProject(project, r.project))
         == Where(scores, (r: Score) => !InProject(project, r.project))
  {
    if scores != [] {
      assert MarkStale(project, scores)[1..] == MarkStale(project, scores[1..]);
      MarkedOthers(project, scores[1..]);
    }
  }
}
