/** The effectiveness-score backfill: a creation loop whose offset moves over a
    list its own commits shrink, and a scoring loop that always restarts at the
    head of what is left. */
module MesBackfill {
  import opened Common

  // ---------------------------------------------------------------- creation

  /** The rows at offset .. offset + size, as OFFSET and LIMIT cut them. */
  function Slice<T>(list: seq<T>, offset: nat, size: nat): seq<T> {
    if offset >= |list| then [] else if offset + size >= |list| then list[offset..] else list[offset..offset + size]
  }

  /** The list without that slice. */
  function Cut<T>(list: seq<T>, offset: nat, size: nat): seq<T> {
    if offset >= |list| then list else if offset + size >= |list| then list[..offset] else list[..offset] + list[offset + size..]
  }

  /** What the loop creates, in order, from a list of missing logs. */
  function Created<T>(missing: seq<T>, offset: nat, size: nat): seq<T>
    decreases |missing|
  {
    var batch := Slice(missing, offset, size);
    if batch == [] then [] else batch + Created(Cut(missing, offset, size), offset + size, size)
  }

  /** What is still missing when the loop ends. */
  function Left<T>(missing: seq<T>, offset: nat, size: nat): seq<T>
    decreases |missing|
  {
    if Slice(missing, offset, size) == [] then missing else Left(Cut(missing, offset, size), offset + size, size)
  }

  /** Every other block of the list, starting with the first or the second. */
  function Blocks<T>(list: seq<T>, size: nat, take: bool): seq<T>
    requires size > 0
    decreases |list|
  {
    if list == [] then []
    else if |list| <= size then (if take then list else [])
    else (if take then list[..size] else []) + Blocks(list[size..], size, !take)
  }

  lemma SliceAt<T>(kept: seq<T>, rest: seq<T>, size: nat)
    ensures Slice(kept + rest, |kept|, size) == if |rest| <= size then rest else rest[..size]
    ensures Cut(kept + rest, |kept|, size) == if |rest| <= size then kept else kept + rest[size..]
  {
    var list := kept + rest;
    assert list[|kept|..] == rest && list[..|kept|] == kept;
    if |rest| > size { assert list[|kept| + size..] == rest[size..]; }
  }

  lemma SlicePast<T>(list: seq<T>, offset: nat, size: nat)
    requires offset >= |list|
    ensures Slice(list, offset, size) == []
  {
  }

  /** The loop creates the even blocks and leaves the odd ones. */
  lemma {:induction false} CreatedIsBlocks<T>(kept: seq<T>, rest: seq<T>, size: nat)
    requires size > 0
    ensures Created(kept + rest, |kept|, size) == Blocks(rest, size, true)
    ensures Left(kept + rest, |kept|, size) == kept + Blocks(rest, size, false)
    decreases |rest|
  {
    hide Slice, Cut;
    SliceAt(kept, rest, size);
    if 0 < |rest| <= size {
      SlicePast(kept, |kept| + size, size);
    } else if |rest| > size {
      var tail := rest[size..];
      if |tail| <= size {
        SlicePast(kept + tail, |kept| + size, size);
      } else {
        assert kept + tail == (kept + tail[..size]) + tail[size..];
        assert |kept + tail[..size]| == |kept| + size;
        CreatedIsBlocks(kept + tail[..size], tail[size..], size);
        assert Blocks(rest, size, true) == rest[..size] + Blocks(tail, size, false);
      }
    }
  }

  /** How many elements the even blocks of n have. */
  function Evens(n: nat, size: nat): nat
    requires size > 0
  {
    n / (2 * size) * size + (if n % (2 * size) <= size then n % (2 * size) else size)
  }

  lemma Division(n: nat, d: nat, q: nat, r: nat)
    requires d > 0 && n == q * d + r && r < d
    ensures n / d == q && n % d == r
  {
    var q', r' := n / d, n % d;
    assert n == q' * d + r' && r' < d;
    Closer(d, q, r, q', r');
    Closer(d, q', r', q, r);
  }

  lemma Closer(d: nat, q: nat, r: nat, q': nat, r': nat)
    requires d > 0 && q * d + r == q' * d + r' && r < d && r' < d
    ensures q <= q'
  {
    assert (q - q') * d == r' - r;
    BelowOne(q - q', d);
  }

  lemma BelowOne(k: int, d: nat)
    requires k * d < d
    ensures k <= 0
  {
    assert (k - 1) * d < 0;
  }

  /** From the blocks' point of view: q double blocks and a remainder. */
  lemma EvensIs(n: nat, size: nat, q: nat, r: nat)
    requires size > 0 && n == q * size + q * size + r && r < 2 * size
    ensures Evens(n, size) == q * size + if r <= size then r else size
  {
    assert q * (2 * size) == q * size + q * size;
    Division(n, 2 * size, q, r);
  }

  lemma Doubles(n: nat, size: nat) returns (q: nat, r: nat)
    requires size > 0
    ensures n == q * size + q * size + r && r < 2 * size
  {
    q, r := n / (2 * size), n % (2 * size);
    assert n == q * (2 * size) + r;
    assert q * (2 * size) == q * size + q * size;
  }

  lemma {:induction false} BlockCounts<T>(list: seq<T>, size: nat)
    requires size > 0
    ensures |Blocks(list, size, true)| == Evens(|list|, size)
    ensures |Blocks(list, size, false)| == |list| - Evens(|list|, size)
    decreases |list|
  {
    hide Evens;
    var n := |list|;
    if n < 2 * size {
      EvensIs(n, size, 0, n);
    } else {
      var a, b, c := list[..size], list[size..2 * size], list[2 * size..];
      assert list == a + b + c;
      DoubleBlock(a, b, c);
      BlockCounts(c, size);
      var q, r := Doubles(n - 2 * size, size);
      EvensIs(n - 2 * size, size, q, r);
      assert (q + 1) * size == q * size + size;
      EvensIs(n, size, q + 1, r);
    }
  }

  lemma DoubleBlock<T>(a: seq<T>, b: seq<T>, c: seq<T>)
    requires |a| == |b| > 0
    ensures Blocks(a + b + c, |a|, true) == a + Blocks(c, |a|, true)
    ensures Blocks(a + b + c, |a|, false) == b + Blocks(c, |a|, false)
  {
    hide Blocks;
    assert a + b + c == a + (b + c);
    BlocksStep(a, b + c, true);
    BlocksStep(a, b + c, false);
    BlocksStep(b, c, true);
    BlocksStep(b, c, false);
  }

  lemma BlocksStep<T>(a: seq<T>, rest: seq<T>, take: bool)
    requires |a| > 0
    ensures Blocks(a + rest, |a|, take) == (if take then a else []) + Blocks(rest, |a|, !take)
  {
    var list := a + rest;
    assert list[..|a|] == a && list[|a|..] == rest;
    if rest == [] { assert list == a; }
  }

  /** The number of the block that index i falls into. */
  function Block(i: nat, size: nat): nat
    requires size > 0
  {
    i / size
  }

  /** The element at index i of a list without repetitions is in the even
      blocks, or in the odd ones, by its block number. */
  lemma {:induction false} BlockOf<T>(list: seq<T>, size: nat, take: bool, i: nat)
    requires size > 0 && i < |list| && Distinct(list)
    ensures list[i] in Blocks(list, size, take) <==> (Block(i, size) % 2 == if take then 0 else 1)
    decreases |list|
  {
    hide Block;
    if i < size { FirstBlock(i, size); }
    if |list| > size {
      var head, tail := list[..size], list[size..];
      assert list == head + tail;
      DistinctParts(head, tail);
      if i < size {
        assert list[i] in head;
        BlocksWithin(tail, size, !take);
      } else {
        assert tail[i - size] == list[i] && list[i] in tail;
        BlockOf(tail, size, !take, i - size);
        NextBlock(i, size);
      }
    }
  }

  lemma FirstBlock(i: nat, size: nat)
    requires i < size
    ensures Block(i, size) == 0
  {
    Division(i, size, 0, i);
  }

  lemma NextBlock(i: nat, size: nat)
    requires 0 < size <= i
    ensures Block(i, size) == Block(i - size, size) + 1
  {
    var q, r := (i - size) / size, (i - size) % size;
    assert (q + 1) * size == q * size + size;
    Division(i, size, q + 1, r);
  }

  lemma {:induction false} BlocksWithin<T>(list: seq<T>, size: nat, take: bool)
    requires size > 0
    ensures forall x :: x in Blocks(list, size, take) ==> x in list
    decreases |list|
  {
    if |list| > size { BlocksWithin(list[size..], size, !take); }
  }

  /** Which logs one creation run covers, how many, and when that is all. */
  lemma CreationCoverage<T>(missing: seq<T>, size: nat)
    requires size > 0 && Distinct(missing)
    ensures forall i :: 0 <= i < |missing| ==> (missing[i] in Created(missing, 0, size) <==> i / size % 2 == 0)
    ensures |Created(missing, 0, size)| == Evens(|missing|, size)
    ensures |Left(missing, 0, size)| == |missing| - Evens(|missing|, size)
    ensures Left(missing, 0, size) == [] <==> |missing| <= size
  {
    assert [] + missing == missing;
    CreatedIsBlocks([], missing, size);
    BlockCounts(missing, size);
    forall i | 0 <= i < |missing| ensures missing[i] in Created(missing, 0, size) <==> i / size % 2 == 0 {
      BlockOf(missing, size, true, i);
    }
    LeftBelow(|missing|, size, 0);
  }

  // ----------------------------------------------------------- repeated runs

  /** How many are missing after a number of runs. */
  function LeftAfter(n: nat, size: nat, runs: nat): nat
    requires size > 0
  {
    if runs == 0 then n
    else
      EvensAtMost(n, size);
      LeftAfter(n - Evens(n, size), size, runs - 1)
  }

  lemma EvensAtMost(n: nat, size: nat)
    requires size > 0
    ensures Evens(n, size) <= n
  {
    var q, r := Doubles(n, size);
    EvensIs(n, size, q, r);
  }

  function Pow2(k: nat): (p: nat)
    ensures p >= 1
  {
    if k == 0 then 1 else 2 * Pow2(k - 1)
  }

  /** One run brings the missing down to x batches from 2x + 1 at most. */
  lemma LeftBelow(n: nat, size: nat, x: nat)
    requires size > 0
    ensures n - Evens(n, size) <= x * size <==> n <= (2 * x + 1) * size
  {
    hide Evens;
    var q, r := Doubles(n, size);
    EvensIs(n, size, q, r);
    Multiples(q, x, size);
    assert (2 * x + 1) * size == x * size + x * size + size;
  }

  lemma Multiples(q: nat, x: nat, size: nat)
    ensures q < x ==> q * size + size <= x * size
    ensures q > x ==> q * size >= x * size + size
  {
    if q < x { Scaled(q + 1, x, size); }
    if q > x { Scaled(x + 1, q, size); }
  }

  lemma {:induction false} Scaled(a: nat, b: nat, size: nat)
    requires 1 <= a <= b
    ensures (a - 1) * size + size <= b * size
  {
    assert (a - 1) * size + size == a * size;
    if a < b { Scaled(a, b - 1, size); assert b * size == (b - 1) * size + size; }
  }

  /** The exact number of runs: nothing is missing after k runs if and only if
      at most 2^k - 1 batches were missing before the first. */
  lemma {:induction false} RunsNeededIff(n: nat, size: nat, runs: nat)
    requires size > 0
    ensures LeftAfter(n, size, runs) == 0 <==> n <= (Pow2(runs) - 1) * size
  {
    if runs > 0 {
      EvensAtMost(n, size);
      var m := n - Evens(n, size);
      RunsNeededIff(m, size, runs - 1);
      LeftBelow(n, size, Pow2(runs - 1) - 1);
      assert 2 * (Pow2(runs - 1) - 1) + 1 == Pow2(runs) - 1;
    }
  }
}
