/** Values and list operations shared by the models. */
module Common {

  datatype Option<+T> = None | Some(value: T)

  datatype Result<+T, +E> = Ok(value: T) | Err(error: E)

  // ------------------------------------------------------------------ spaces

  /** The characters that Python takes for white space. */
  const SPACES := {
    '\t', '\n', '\U{0b}', '\U{0c}', '\r', '\U{1c}', '\U{1d}', '\U{1e}', '\U{1f}', ' ', '\U{85}', '\U{a0}', '\U{1680}',
    '\U{2000}', '\U{2001}', '\U{2002}', '\U{2003}', '\U{2004}', '\U{2005}', '\U{2006}', '\U{2007}', '\U{2008}',
    '\U{2009}', '\U{200a}', '\U{2028}', '\U{2029}', '\U{202f}', '\U{205f}', '\U{3000}' }

  /** The same, by code point. */
  ghost predicate IsSpace(c: char) {
    var n := c as int;
    9 <= n <= 13 || 28 <= n <= 32 || n == 0x85 || n == 0xa0 || n == 0x1680 || 0x2000 <= n <= 0x200a || n == 0x2028 || n == 0x2029 || n == 0x202f || n == 0x205f || n == 0x3000
  }

  lemma SpacesAre(c: char)
    ensures c in SPACES <==> IsSpace(c)
  {
  }

  // ---------------------------------------------------------------- str(int)

  function Digits(n: nat): (s: string)
    ensures s != [] && s[0] != '-'
  {
    var d := "0123456789"[n % 10];
    if n < 10 then [d] else Digits(n / 10) + [d]
  }

  /** Python's str() of an integer. */
  function Decimal(n: int): (s: string)
    ensures s != ""
  {
    if n < 0 then "-" + Digits(-n) else Digits(n)
  }

  lemma {:induction false} DigitsInjective(a: nat, b: nat)
    requires Digits(a) == Digits(b)
    ensures a == b
  {
    var s, t := Digits(a), Digits(b);
    assert s[|s| - 1] == "0123456789"[a % 10] && t[|t| - 1] == "0123456789"[b % 10];
    assert a % 10 == b % 10;
    if a < 10 {
      assert |t| == 1;
      assert b < 10;
    } else {
      assert |s| > 1;
      assert b >= 10;
      assert s[..|s| - 1] == Digits(a / 10) && t[..|t| - 1] == Digits(b / 10);
      DigitsInjective(a / 10, b / 10);
    }
  }

  /** Two ids with the same text are the same id. */
  lemma DecimalInjective(a: int, b: int)
    requires Decimal(a) == Decimal(b)
    ensures a == b
  {
    if a < 0 && b < 0 {
      assert Decimal(a)[1..] == Digits(-a) && Decimal(b)[1..] == Digits(-b);
      DigitsInjective(-a, -b);
    } else if a >= 0 && b >= 0 {
      DigitsInjective(a, b);
    } else {
      assert false;
    }
  }

  /** The number that a string of digits reads as. */
  ghost function Numeral(s: string): int {
    if s == "" then 0 else Numeral(Front(s)) * 10 + (Last(s) as int - '0' as int)
  }

  lemma {:induction false} DigitsRead(n: nat)
    ensures Numeral(Digits(n)) == n && (|Digits(n)| > 1 ==> Digits(n)[0] != '0')
    ensures forall c :: c in Digits(n) ==> '0' <= c <= '9'
  {
    if n < 10 {
      assert Front(Digits(n)) == "";
    } else {
      FrontOfSnoc(Digits(n / 10), "0123456789"[n % 10]);
      DigitsRead(n / 10);
    }
  }

  /** The text of an integer is its numeral, with a sign only if negative and
      without leading zeros. */
  lemma DecimalReads(n: int)
    ensures n >= 0 ==> Numeral(Decimal(n)) == n && Decimal(n)[0] != '-'
    ensures n < 0 ==> Decimal(n)[0] == '-' && Numeral(Decimal(n)[1..]) == -n
    ensures var s := if n < 0 then Decimal(n)[1..] else Decimal(n);
      (forall c :: c in s ==> '0' <= c <= '9') && (|s| > 1 ==> s[0] != '0')
  {
    DigitsRead(if n < 0 then -n else n);
    if n < 0 { assert Decimal(n)[1..] == Digits(-n); }
  }

  // -------------------------------------------------------------- sequences

  function Front<T>(s: seq<T>): seq<T>
    requires s != []
  {
    s[..|s| - 1]
  }

  function Last<T>(s: seq<T>): T
    requires s != []
  {
    s[|s| - 1]
  }

  lemma FrontOfPrefix<T>(s: seq<T>, i: nat)
    requires i < |s|
    ensures s[..i + 1] != [] && Front(s[..i + 1]) == s[..i] && Last(s[..i + 1]) == s[i]
  {
  }

  lemma FrontOfSnoc<T>(s: seq<T>, x: T)
    ensures s + [x] != [] && Front(s + [x]) == s && Last(s + [x]) == x
  {
  }

  function Reverse<T>(s: seq<T>): seq<T> {
    seq(|s|, k requires 0 <= k < |s| => s[|s| - 1 - k])
  }

  lemma ReverseMembers<T>(s: seq<T>)
    ensures forall x :: x in Reverse(s) <==> x in s
  {
    assert forall k :: 0 <= k < |s| ==> s[k] == Reverse(s)[|s| - 1 - k];
  }

  /** The lists f(x), one after another. */
  function FlatMap<T, U>(xs: seq<T>, f: T -> seq<U>): seq<U> {
    if xs == [] then [] else FlatMap(Front(xs), f) + f(Last(xs))
  }

  lemma {:induction false} FlatMapMembers<T, U>(xs: seq<T>, f: T -> seq<U>)
    ensures forall u :: u in FlatMap(xs, f) <==> exists x :: x in xs && u in f(x)
  {
    if xs != [] {
      FlatMapMembers(Front(xs), f);
      assert forall x :: x in xs <==> x in Front(xs) || x == Last(xs);
    }
  }

  ghost predicate Distinct<T>(s: seq<T>) {
    forall i, j :: 0 <= i < j < |s| ==> s[i] != s[j]
  }

  lemma {:induction false} DistinctCount<T>(s: seq<T>, x: T)
    requires Distinct(s)
    ensures multiset(s)[x] <= 1
  {
    if s != [] {
      DistinctCount(s[1..], x);
      assert s == [s[0]] + s[1..];
      assert s[0] !in s[1..];
    }
  }

  /** Reordering keeps rows distinct. */
  lemma DistinctPermutation<T>(s: seq<T>, t: seq<T>)
    requires Distinct(s) && multiset(s) == multiset(t)
    ensures Distinct(t)
  {
    forall i, j | 0 <= i < j < |t| ensures t[i] != t[j] {
      assert t == t[..i] + [t[i]] + t[i + 1..];
      assert t[i + 1..][j - i - 1] == t[j];
      DistinctCount(s, t[i]);
    }
  }

  lemma DistinctParts<T>(a: seq<T>, b: seq<T>)
    requires Distinct(a + b)
    ensures Distinct(a) && Distinct(b) && forall x :: x in b ==> x !in a
  {
    var list := a + b;
    assert forall i :: 0 <= i < |a| ==> list[i] == a[i];
    assert forall i :: 0 <= i < |b| ==> list[|a| + i] == b[i];
    forall x | x in b ensures x !in a {
      var j :| 0 <= j < |b| && b[j] == x;
      assert list[|a| + j] == x;
    }
  }

  // ------------------------------------------------------ WHERE and ORDER BY

  /** The rows a WHERE clause keeps, in table order. */
  function Where<T>(rows: seq<T>, keep: T -> bool): (kept: seq<T>)
    ensures forall x | x in kept :: x in rows && keep(x)
    ensures forall x | x in rows && keep(x) :: x in kept
  {
    if rows == [] then []
    else (if keep(rows[0]) then [rows[0]] else []) + Where(rows[1..], keep)
  }

  lemma {:induction false} WhereDistinct<T>(rows: seq<T>, keep: T -> bool)
    requires Distinct(rows)
    ensures Distinct(Where(rows, keep))
  {
    if rows != [] {
      WhereDistinct(rows[1..], keep);
      assert rows[0] !in rows[1..];
    }
  }

  lemma {:induction false} WhereAppend<T>(a: seq<T>, b: seq<T>, keep: T -> bool)
    ensures Where(a + b, keep) == Where(a, keep) + Where(b, keep)
  {
    if a == [] {
      assert a + b == b;
    } else {
      assert (a + b)[1..] == a[1..] + b;
      WhereAppend(a[1..], b, keep);
    }
  }

  lemma {:induction false} WhereRefined<T>(rows: seq<T>, keep: T -> bool, keep2: T -> bool, also: T -> bool)
    requires forall x :: x in rows ==> (keep2(x) <==> keep(x) && also(x))
    ensures Where(rows, keep2) == Where(Where(rows, keep), also)
  {
    if rows != [] {
      WhereRefined(rows[1..], keep, keep2, also);
      var head := if keep(rows[0]) then [rows[0]] else [];
      assert rows[0] in rows;
      WhereAppend(head, Where(rows[1..], keep), also);
      assert Where(head, also) == if keep2(rows[0]) then [rows[0]] else [];
    }
  }

  lemma {:induction false} WhereSame<T>(rows: seq<T>, keep: T -> bool)
    requires forall x :: x in rows ==> keep(x)
    ensures Where(rows, keep) == rows
  {
    if rows != [] { WhereSame(rows[1..], keep); }
  }

  lemma {:induction false} WhereNone<T>(rows: seq<T>, keep: T -> bool)
    requires forall x :: x in rows ==> !keep(x)
    ensures Where(rows, keep) == []
  {
    if rows != [] { WhereNone(rows[1..], keep); }
  }

  lemma {:induction false} WhereExt<T>(rows: seq<T>, f: T -> bool, g: T -> bool)
    requires forall x :: x in rows ==> f(x) == g(x)
    ensures Where(rows, f) == Where(rows, g)
  {
    if rows != [] { WhereExt(rows[1..], f, g); }
  }

  /** Counting one more row. */
  lemma CountNext<T>(rows: seq<T>, k: nat, keep: T -> bool)
    requires k < |rows|
    ensures |Where(rows[..k + 1], keep)| == |Where(rows[..k], keep)| + if keep(rows[k]) then 1 else 0
  {
    assert rows[..k + 1] == rows[..k] + [rows[k]];
    WhereAppend(rows[..k], [rows[k]], keep);
  }

  lemma WhereSnoc<T>(rows: seq<T>, keep: T -> bool)
    requires rows != []
    ensures |Where(rows, keep)| == |Where(Front(rows), keep)| + if keep(Last(rows)) then 1 else 0
  {
    assert rows[..|rows| - 1 + 1] == rows;
    CountNext(rows, |rows| - 1, keep);
  }

  lemma CountNone<T>(keep: T -> bool)
    ensures Where([], keep) == []
  {
  }

  /** More than one row of a group means two rows at different places. */
  lemma {:induction false} MoreThanOne<T>(rows: seq<T>, keep: T -> bool)
    ensures |Where(rows, keep)| > 0 <==> exists j :: 0 <= j < |rows| && keep(rows[j])
    ensures |Where(rows, keep)| > 1 <==> exists i, j :: 0 <= i < j < |rows| && keep(rows[i]) && keep(rows[j])
  {
    if rows != [] {
      var tail := rows[1..];
      MoreThanOne(tail, keep);
      Shifted(rows, keep);
      assert |Where(rows, keep)| == |Where(tail, keep)| + if keep(rows[0]) then 1 else 0;
    }
  }

  lemma Shifted<T>(rows: seq<T>, keep: T -> bool)
    requires rows != []
    ensures (exists j :: 0 <= j < |rows| && keep(rows[j])) <==> keep(rows[0]) || exists j :: 0 <= j < |rows[1..]| && keep(rows[1..][j])
    ensures (exists i, j :: 0 <= i < j < |rows| && keep(rows[i]) && keep(rows[j])) <==>
      ((keep(rows[0]) && exists j :: 0 <= j < |rows[1..]| && keep(rows[1..][j]))
       || exists i, j :: 0 <= i < j < |rows[1..]| && keep(rows[1..][i]) && keep(rows[1..][j]))
  {
    var tail := rows[1..];
    if j :| 0 <= j < |rows| && keep(rows[j]) { assert j == 0 || keep(tail[j - 1]); }
    if j :| 0 <= j < |tail| && keep(tail[j]) { assert keep(rows[j + 1]); }
    if i, j :| 0 <= i < j < |rows| && keep(rows[i]) && keep(rows[j]) {
      assert keep(tail[j - 1]);
      assert i == 0 || keep(tail[i - 1]);
    }
    if i, j :| 0 <= i < j < |tail| && keep(tail[i]) && keep(tail[j]) { assert keep(rows[i + 1]) && keep(rows[j + 1]); }
  }

  /** A row is in a group of its own exactly when no other row shares it. */
  lemma Shared<T>(rows: seq<T>, keep: T -> bool, i: nat)
    requires i < |rows| && keep(rows[i])
    ensures |Where(rows, keep)| > 1 <==> exists j :: 0 <= j < |rows| && j != i && keep(rows[j])
  {
    MoreThanOne(rows, keep);
    if j :| 0 <= j < |rows| && j != i && keep(rows[j]) {
      assert if i < j then keep(rows[i]) && keep(rows[j]) else keep(rows[j]) && keep(rows[i]);
    }
  }

  /** The first row that satisfies a test, as next(..., None) finds it. */
  function First<T>(rows: seq<T>, test: T -> bool): (found: Option<T>)
    ensures found.Some? ==> found.value in rows && test(found.value)
    ensures found.None? ==> forall x :: x in rows ==> !test(x)
  {
    if rows == [] then None
    else if test(rows[0]) then Some(rows[0])
    else First(rows[1..], test)
  }

  lemma {:induction false} WhereHead<T>(rows: seq<T>, keep: T -> bool)
    ensures First(rows, keep) == if Where(rows, keep) == [] then None else Some(Where(rows, keep)[0])
  {
    if rows != [] { WhereHead(rows[1..], keep); }
  }

  /** The rows that share a key, in table order. */
  function Having<T, K(==)>(rows: seq<T>, key: T -> K, k: K): (r: seq<T>)
    ensures forall x | x in r :: x in rows && key(x) == k
    ensures forall x | x in rows && key(x) == k :: x in r
  {
    if rows == [] then []
    else if key(rows[0]) == k then [rows[0]] + Having(rows[1..], key, k)
    else Having(rows[1..], key, k)
  }

  lemma {:induction false} HavingSnoc<T, K>(rows: seq<T>, key: T -> K, k: K, x: T)
    ensures Having(rows + [x], key, k) == if key(x) == k then Having(rows, key, k) + [x] else Having(rows, key, k)
  {
    if rows == [] {
      assert rows + [x] == [x];
    } else {
      assert (rows + [x])[1..] == rows[1..] + [x];
      HavingSnoc(rows[1..], key, k, x);
    }
  }

  function Group<T, K(==)>(groups: map<K, seq<T>>, k: K): seq<T> {
    if k in groups then groups[k] else []
  }

  /** A defaultdict(list) filled by appending every row under its key. */
  method GroupBy<T, K(==, !new)>(rows: seq<T>, key: T -> K) returns (groups: map<K, seq<T>>)
    ensures forall k :: Group(groups, k) == Having(rows, key, k)
  {
    groups := map[];
    for i := 0 to |rows|
      invariant forall k :: Group(groups, k) == Having(rows[..i], key, k)
    {
      var x := rows[i];
      var grown := groups[key(x) := Group(groups, key(x)) + [x]];
      forall k ensures Group(grown, k) == Having(rows[..i + 1], key, k) {
        assert rows[..i + 1] == rows[..i] + [x];
        HavingSnoc(rows[..i], key, k, x);
        assert Group(groups, k) == Having(rows[..i], key, k);
      }
      groups := grown;
    }
    assert rows[..|rows|] == rows;
  }

  /** Lexicographic order on the columns of an ORDER BY. */
  type SortKey = (int, int, int)

  predicate Before(a: SortKey, b: SortKey) {
    a.0 < b.0 || (a.0 == b.0 && (a.1 < b.1 || (a.1 == b.1 && a.2 <= b.2)))
  }

  ghost predicate SortedBy<T>(rows: seq<T>, key: T -> SortKey) {
    forall i, j :: 0 <= i < j < |rows| ==> Before(key(rows[i]), key(rows[j]))
  }

  function InsertBy<T>(x: T, rows: seq<T>, key: T -> SortKey): (r: seq<T>)
    ensures multiset(r) == multiset(rows) + multiset{x}
  {
    if rows == [] then [x]
    else if Before(key(x), key(rows[0])) then [x] + rows
    else
      assert rows == [rows[0]] + rows[1..];
      [rows[0]] + InsertBy(x, rows[1..], key)
  }

  /** The rows of an ORDER BY: the same rows, sorted by the key. */
  function OrderBy<T>(rows: seq<T>, key: T -> SortKey): (r: seq<T>)
    ensures multiset(r) == multiset(rows)
  {
    if rows == [] then []
    else
      assert rows == [rows[0]] + rows[1..];
      InsertBy(rows[0], OrderBy(rows[1..], key), key)
  }

  lemma {:induction false} InsertBySorted<T>(x: T, rows: seq<T>, key: T -> SortKey)
    requires SortedBy(rows, key)
    ensures SortedBy(InsertBy(x, rows, key), key)
  {
    if rows != [] && !Before(key(x), key(rows[0])) {
      var tail := InsertBy(x, rows[1..], key);
      InsertBySorted(x, rows[1..], key);
      forall y | y in tail ensures Before(key(rows[0]), key(y)) {
        assert y in multiset(tail);
        assert y == x || y in rows[1..];
      }
    }
  }

  lemma {:induction false} OrderBySorted<T>(rows: seq<T>, key: T -> SortKey)
    ensures SortedBy(OrderBy(rows, key), key)
  {
    if rows != [] {
      OrderBySorted(rows[1..], key);
      InsertBySorted(rows[0], OrderBy(rows[1..], key), key);
    }
  }

  /** The first row of an ORDER BY precedes every row. */
  lemma OrderByHead<T>(rows: seq<T>, key: T -> SortKey)
    ensures rows == [] <==> OrderBy(rows, key) == []
    ensures rows != [] ==> OrderBy(rows, key)[0] in rows && forall x :: x in rows ==> Before(key(OrderBy(rows, key)[0]), key(x))
  {
    var r := OrderBy(rows, key);
    assert |r| == |multiset(r)| && |rows| == |multiset(rows)|;
    OrderByMembers(rows, key);
    OrderBySorted(rows, key);
    if rows != [] {
      assert r[0] in r;
      forall x | x in rows ensures Before(key(r[0]), key(x)) {
        assert x in r;
        var j :| 0 <= j < |r| && r[j] == x;
        if j > 0 { assert Before(key(r[0]), key(r[j])); }
      }
    }
  }

  lemma OrderByMembers<T>(rows: seq<T>, key: T -> SortKey)
    ensures forall x :: x in OrderBy(rows, key) <==> x in rows
  {
    var r := OrderBy(rows, key);
    assert forall x :: x in r <==> x in multiset(r);
    assert forall x :: x in rows <==> x in multiset(rows);
  }
}
