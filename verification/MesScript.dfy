/** The backfill script over its two tables. */
module MesScript {
  import opened Common
  import opened MesBackfill
  import opened MesStore
  import opened MesScoring

  class Backfill {
    const logs: seq<SendLog>
    var scores: seq<Score>

    constructor (logs: seq<SendLog>, scores: seq<Score>)
      ensures this.logs == logs && this.scores == scores
    {
      this.logs := logs;
      this.scores := scores;
    }

    /** The rows of one batch. */
    method AddScores(batch: seq<SendLog>)
      modifies this
      ensures scores == old(scores) + NewScores(batch)
    {
      for k := 0 to |batch|
        invariant scores == old(scores) + NewScores(batch[..k])
      {
        assert NewScores(batch[..k + 1]) == NewScores(batch[..k]) + [NewScore(batch[k])];
        scores := scores + [NewScore(batch[k])];
      }
      assert batch[..|batch|] == batch;
    }

    /** The creation loop: the offset grows by the batch size although every
        commit has just shortened the list it counts into. */
    method CreateMissingRecords(q: Query, size: nat) returns (total: nat)
      requires DistinctLogs(logs)
      modifies this
      ensures scores == old(scores) + NewScores(Created(Missing(q, logs, old(scores)), 0, size))
      ensures Missing(q, logs, scores) == Left(Missing(q, logs, old(scores)), 0, size)
      ensures total == |Created(Missing(q, logs, old(scores)), 0, size)|
    {
      hide Missing, Created, Left, Slice, Cut, NewScores, DistinctLogs;
      ghost var first := Missing(q, logs, scores);
      ghost var done := [];
      NewScoresEmpty();
      var offset: nat := 0;
      total := 0;
      while true
        invariant Created(first, 0, size) == done + Created(Missing(q, logs, scores), offset, size)
        invariant Left(first, 0, size) == Left(Missing(q, logs, scores), offset, size)
        invariant scores == old(scores) + NewScores(done) && total == |done|
        decreases |Missing(q, logs, scores)|
      {
        var batch := Slice(Missing(q, logs, scores), offset, size);
        LoopStep(Missing(q, logs, scores), offset, size);
        if batch == [] {
          assert Created(first, 0, size) == done;
          break;
        }
        CommitCuts(q, logs, scores, offset, size);
        NewScoresAppend(done, batch);
        AddScores(batch);
        done := done + batch;
        total := total + |batch|;
        offset := offset + size;
      }
    }

    /** One UPDATE over the project's scores; the count it returns is the number
        of scores the scoring query then returns. */
    method MarkAllStale(project: Option<int>) returns (updated: nat)
      modifies this
      ensures scores == MarkStale(project, old(scores))
      ensures updated == |Stale(project, scores)|
      ensures LogsOf(Stale(project, scores)) == LogsOf(OfProject(project, old(scores)))
    {
      MarkedIsWholeProject(project, scores);
      updated := |OfProject(project, scores)|;
      assert |LogsOf(OfProject(project, scores))| == updated;
      scores := MarkStale(project, scores);
      assert |LogsOf(Stale(project, scores))| == |Stale(project, scores)|;
    }

    /** The computations of one batch: a call that returns counts as computed,
        whether or not it wrote a score; one that raises is passed over. */
    method ComputeBatch(batch: seq<Score>, raises: int -> bool) returns (computed: nat, errors: nat)
      modifies this
      ensures var engine := EngineOf(logs, raises);
        && scores == ClearAll(old(scores), batch, engine)
        && computed == |Where(batch, NotRaising(engine))| && errors == |Where(batch, Raising(engine))|
    {
      hide ComputeScore;
      ghost var engine := EngineOf(logs, raises);
      computed, errors := 0, 0;
      for k := 0 to |batch|
        invariant scores == ClearAll(old(scores), batch[..k], engine)
        invariant computed == |Where(batch[..k], NotRaising(engine))| && errors == |Where(batch[..k], Raising(engine))|
      {
        FrontOfPrefix(batch, k);
        CountNext(batch, k, NotRaising(engine));
        CountNext(batch, k, Raising(engine));
        match ComputeScore(logs, raises, batch[k].log) {
          case Raises =>
            errors := errors + 1;
          case Skips =>
            computed := computed + 1;
          case Clears =>
            scores := Clear(scores, batch[k].log);
            computed := computed + 1;
        }
      }
      assert batch[..|batch|] == batch;
    }

    /** The scoring loop, watched for a number of passes: the script sets no
        such limit. */
    method ComputeScores(project: Option<int>, size: nat, raises: int -> bool, limit: nat)
      returns (computed: nat, errors: nat, finished: bool)
      requires DistinctScores(scores)
      modifies this
      ensures DistinctScores(scores)
      ensures var stale, engine := Stale(project, old(scores)), EngineOf(logs, raises);
        exists n: nat :: n <= limit && (!finished ==> n == limit)
          && scores == Scored(project, old(scores), size, engine, n)
          && Stale(project, scores) == Passes(stale, size, engine, n)
          && computed == Computed(stale, size, engine, n) && errors == Errors(stale, size, engine, n)
      ensures finished <==> size == 0 || Stale(project, scores) == []
    {
      hide Stale, Pass, ClearAll, DistinctScores, Where, ComputeScore;
      ghost var stale, engine := Stale(project, scores), EngineOf(logs, raises);
      var n: nat := 0;
      computed, errors := 0, 0;
      while n < limit
        invariant n <= limit && Stale(project, scores) == Passes(stale, size, engine, n)
        invariant scores == Scored(project, old(scores), size, engine, n)
        invariant computed == Computed(stale, size, engine, n) && errors == Errors(stale, size, engine, n)
        invariant DistinctScores(scores)
      {
        var batch := Slice(Stale(project, scores), 0, size);
        if batch == [] {
          return computed, errors, true;
        }
        PassCommits(project, scores, size, engine);
        StillDistinct(scores, batch, engine);
        var done, failed := ComputeBatch(batch, raises);
        computed, errors := computed + done, errors + failed;
        n := n + 1;
      }
      return computed, errors, Slice(Stale(project, scores), 0, size) == [];
    }
  }
}
