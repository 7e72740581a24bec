/** app/logging_security.py: rewriting credentials out of log text. The regular
    expression is a header [?&]name= followed by a maximal non-empty run of
    value characters; substitution takes the leftmost match, then continues
    after it. The scanner is written over any names, terminators and mask, and
    instantiated at the end. */
module Redactor {
  import opened Common

  /** The expression's parameters: the names it lists, the characters its value
      class excludes, and the replacement text. */
  datatype Syntax = Syntax(names: seq<string>, stops: set<char>, mask: string)

  // ------------------------------------------------------------- characters

  /** Case folding as (?i) applies it to the letters of the names, with the
      four non-ASCII letters that fold to one of them. */
  function Fold(c: char): char {
    if 'A' <= c <= 'Z' then c - 'A' + 'a'
    else if c == '\U{0130}' || c == '\U{0131}' then 'i'
    else if c == '\U{017f}' then 's'
    else if c == '\U{212a}' then 'k'
    else c
  }

  function Lower(s: string): (t: string)
    ensures |t| == |s| && forall i :: 0 <= i < |s| ==> t[i] == Fold(s[i])
  {
    seq(|s|, i requires 0 <= i < |s| => Fold(s[i]))
  }

  predicate Opens(c: char) { c == '?' || c == '&' }

  predicate NameChar(c: char) { 'a' <= c <= 'z' || c == '_' }

  /** Names are lower-case words that no terminator can be part of, and the
      mask can neither end a value nor open a parameter. */
  ghost predicate WellFormed(x: Syntax) {
    Words(x.names) && Foreign(x.stops) && Quiet(x.mask, x.stops)
  }

  ghost predicate Words(names: seq<string>) {
    forall n :: n in names ==> forall i :: 0 <= i < |n| ==> NameChar(n[i])
  }

  ghost predicate Foreign(stops: set<char>) {
    forall c :: c in stops ==> !NameChar(Fold(c)) && c != '='
  }

  ghost predicate Quiet(mask: string, stops: set<char>) {
    mask != "" && forall i :: 0 <= i < |mask| ==> mask[i] !in stops && !Opens(mask[i])
  }

  // --------------------------------------------------------------- scanning

  /** One alternative of the expression, tried at the front of s. */
  predicate HasHeader(s: string, name: string) {
    |name| + 2 <= |s| && Opens(s[0]) && Lower(s[1..|name| + 1]) == name && s[|name| + 1] == '='
  }

  /** The length of the header at the front of s, or 0: the alternatives are
      tried in the order the expression lists them. */
  function Header(s: string, names: seq<string>): nat
    decreases |names|
  {
    if names == [] then 0
    else if HasHeader(s, names[0]) then |names[0]| + 2
    else Header(s, names[1..])
  }

  /** The length of the run of value characters at the front of s. */
  function Run(s: string, x: Syntax): (n: nat)
    ensures n <= |s|
    ensures forall i :: 0 <= i < n ==> s[i] !in x.stops
    ensures n < |s| ==> s[n] in x.stops
  {
    if s == "" || s[0] in x.stops then 0 else 1 + Run(s[1..], x)
  }

  /** The match at the front of s: header length and whole length, or (0, 0). */
  function Match(s: string, x: Syntax): (m: (nat, nat))
    ensures m.0 <= m.1 <= |s| && (m.1 > 0 ==> 0 < m.0 < m.1)
  {
    var h := Header(s, x.names);
    if 0 < h <= |s| && Run(s[h..], x) > 0 then (h, h + Run(s[h..], x)) else (0, 0)
  }

  /** Substitution of every match by its header and the mask. */
  function Redact(s: string, x: Syntax): string
    decreases |s|
  {
    if s == "" then ""
    else
      var m := Match(s, x);
      if m.1 > 0 then s[..m.0] + x.mask + Redact(s[m.1..], x)
      else [s[0]] + Redact(s[1..], x)
  }

  lemma RedactStep(s: string, x: Syntax)
    requires s != ""
    ensures var m := Match(s, x);
      Redact(s, x) == if m.1 == 0 then [s[0]] + Redact(s[1..], x) else s[..m.0] + x.mask + Redact(s[m.1..], x)
  {
    hide Match, Header, Run;
  }

  // ----------------------------------------------------------------- headers

  /** A whole header, described without reference to a scan. */
  ghost predicate IsHeader(h: string, names: seq<string>) {
    |h| >= 2 && Opens(h[0]) && h[|h| - 1] == '=' && Lower(h[1..|h| - 1]) in names
  }

  /** After its opener a header holds value characters only, and its first
      equals sign is its last character. */
  lemma HeaderShape(h: string, x: Syntax, i: nat)
    requires WellFormed(x) && IsHeader(h, x.names) && 1 <= i < |h|
    ensures !Opens(h[i]) && h[i] !in x.stops && (h[i] == '=' <==> i == |h| - 1)
  {
    if i < |h| - 1 {
      var name := Lower(h[1..|h| - 1]);
      assert name[i - 1] == Fold(h[i]) && NameChar(name[i - 1]);
    }
  }

  lemma {:induction false} HeaderFound(s: string, names: seq<string>, h: nat)
    ensures Header(s, names) > 0 ==> Header(s, names) <= |s| && IsHeader(s[..Header(s, names)], names)
    ensures h <= |s| && IsHeader(s[..h], names) ==> Header(s, names) > 0
    decreases |names|
  {
    if names != [] {
      if HasHeader(s, names[0]) {
        var g := |names[0]| + 2;
        assert s[..g][1..g - 1] == s[1..g - 1];
      } else {
        HeaderFound(s, names[1..], h);
        if h <= |s| && IsHeader(s[..h], names) {
          assert s[..h][1..h - 1] == s[1..h - 1];
        }
      }
    }
  }

  lemma HeaderUnique(s: string, g: nat, h: nat, x: Syntax)
    requires WellFormed(x) && g <= h <= |s| && IsHeader(s[..g], x.names) && IsHeader(s[..h], x.names)
    ensures g == h
  {
    assert s[..g][g - 1] == '=' == s[..h][g - 1];
    HeaderShape(s[..h], x, g - 1);
  }

  /** The scan finds exactly the headers, whichever alternative matches. */
  lemma HeaderIs(s: string, x: Syntax)
    requires WellFormed(x)
    ensures Header(s, x.names) > 0 ==> Header(s, x.names) <= |s| && IsHeader(s[..Header(s, x.names)], x.names)
    ensures forall h :: 0 <= h <= |s| && IsHeader(s[..h], x.names) ==> Header(s, x.names) == h
  {
    hide Header;
    HeaderFound(s, x.names, 0);
    forall h | 0 <= h <= |s| && IsHeader(s[..h], x.names) ensures Header(s, x.names) == h {
      HeaderFound(s, x.names, h);
      var g := Header(s, x.names);
      if g <= h { HeaderUnique(s, g, h, x); } else { HeaderUnique(s, h, g, x); }
    }
  }

  /** A header is found in front of any continuation. */
  lemma HeaderInFront(h: string, rest: string, x: Syntax)
    requires WellFormed(x) && IsHeader(h, x.names)
    ensures Header(h + rest, x.names) == |h| >= 2 && (h + rest)[|h|..] == rest
  {
    hide Header;
    assert (h + rest)[..|h|] == h;
    HeaderIs(h + rest, x);
  }

  lemma {:induction false} RunAcross(a: string, b: string, x: Syntax)
    ensures Run(a + b, x) == if Run(a, x) < |a| then Run(a, x) else |a| + Run(b, x)
  {
    if a == "" {
      assert a + b == b;
    } else {
      assert (a + b)[1..] == a[1..] + b;
      RunAcross(a[1..], b, x);
    }
  }

  /** A value: not empty, and free of terminators. */
  ghost predicate IsValue(v: string, x: Syntax) {
    v != "" && forall i :: 0 <= i < |v| ==> v[i] !in x.stops
  }

  /** What can follow a value. */
  ghost predicate IsRest(post: string, x: Syntax) { post == "" || post[0] in x.stops }

  lemma MatchOf(h: string, v: string, post: string, x: Syntax)
    requires WellFormed(x) && IsHeader(h, x.names) && IsValue(v, x) && IsRest(post, x)
    ensures Match(h + (v + post), x) == (|h|, |h| + |v|) && |h| > 0
  {
    hide Header, Run, WellFormed, IsHeader, IsValue, IsRest;
    HeaderInFront(h, v + post, x);
    RunOfParameter(v, post, x);
  }

  /** A header, a value and what ends it are one match. */
  lemma MatchInFront(h: string, v: string, post: string, x: Syntax)
    requires WellFormed(x) && IsHeader(h, x.names) && IsValue(v, x) && IsRest(post, x)
    ensures Match(h + v + post, x) == (|h|, |h| + |v|)
    ensures Redact(h + v + post, x) == h + x.mask + Redact(post, x)
  {
    hide Match, Redact, WellFormed, IsHeader, IsValue, IsRest;
    ThreeParts(h, v, post);
    MatchOf(h, v, post, x);
    RedactStep(h + v + post, x);
  }

  lemma ThreeParts(h: string, v: string, post: string)
    ensures var s := h + v + post; s == h + (v + post) && s[..|h|] == h && s[|h| + |v|..] == post
  {
  }

  lemma RunOfParameter(v: string, post: string, x: Syntax)
    requires IsValue(v, x) && IsRest(post, x)
    ensures Run(v + post, x) == |v| > 0
  {
    RunAcross(v, post, x);
  }

  /** Reading a match back: header, value, rest. */
  lemma MatchParts(s: string, x: Syntax) returns (h: string, v: string, post: string)
    requires WellFormed(x) && Match(s, x).1 > 0
    ensures s == h + v + post && IsHeader(h, x.names) && IsValue(v, x) && IsRest(post, x)
    ensures Match(s, x) == (|h|, |h| + |v|) && post == s[Match(s, x).1..]
  {
    hide Header, Run;
    HeaderIs(s, x);
    var m := Match(s, x);
    h, v, post := s[..m.0], s[m.0..m.1], s[m.1..];
    assert s[m.0..] == v + post;
  }

  // --------------------------------------------- independence of the secret

  /** A header has no opener but its first character. */
  lemma EndsBefore(s: string, g: nat, i: nat, x: Syntax)
    requires WellFormed(x) && 0 < i < |s| && g <= |s| && Opens(s[i]) && (g == 0 || IsHeader(s[..g], x.names))
    ensures g <= i
  {
    if g > i { HeaderShape(s[..g], x, i); }
  }

  /** A header that starts before h ends before h starts. */
  lemma EarlierHeader(p: string, h: string, rest: string, x: Syntax)
    requires WellFormed(x) && p != "" && IsHeader(h, x.names)
    ensures Header(p + h + rest, x.names) == Header(p + h, x.names) <= |p|
  {
    hide Header;
    var w := p + h;
    var s := w + rest;
    assert w[|p|] == h[0] && s[|p|] == h[0];
    HeaderIs(s, x);
    HeaderIs(w, x);
    var g, k := Header(s, x.names), Header(w, x.names);
    EndsBefore(s, g, |p|, x);
    EndsBefore(w, k, |p|, x);
    assert w[..g] == s[..g] && s[..k] == w[..k];
  }

  /** Where the value run of an earlier header stops: inside p, or after v. */
  lemma SplitRun(p: string, h: string, v: string, post: string, x: Syntax, g: nat)
    requires WellFormed(x) && IsHeader(h, x.names) && IsValue(v, x) && IsRest(post, x) && g <= |p|
    ensures var s, w := p + h + v + post, p + h;
      var n := Run(w[g..], x);
      if g + n < |w| then g + n <= |p| && Run(s[g..], x) == n else g + Run(s[g..], x) == |w| + |v|
  {
    hide Run;
    var s, w := p + h + v + post, p + h;
    var n := Run(w[g..], x);
    assert s[g..] == w[g..] + (v + post);
    RunAcross(w[g..], v + post, x);
    RunAcross(v, post, x);
    if |p| < g + n < |w| {
      assert w[g..][n] == h[g + n - |p|];
      HeaderShape(h, x, g + n - |p|);
    }
  }

  /** A sensitive parameter of s: header s[j..k], value s[k..e]. */
  ghost predicate Parameter(s: string, j: nat, k: nat, e: nat, x: Syntax) {
    && j <= k <= e <= |s|
    && IsHeader(s[j..k], x.names) && IsValue(s[k..e], x) && IsRest(s[e..], x)
  }

  /** A match that starts before the parameter is decided by the text up to the
      value: it ends before the parameter, or it swallows the whole value. */
  lemma MatchBefore(s: string, i: nat, j: nat, k: nat, e: nat, x: Syntax)
    requires WellFormed(x) && Parameter(s, j, k, e, x) && i < j
    ensures var w := s[i..k];
      var g := Header(w, x.names);
      g <= |w| &&
      var n := Run(w[g..], x);
      Match(s[i..], x) ==
        if g == 0 || n == 0 then (0, 0) else if i + g + n < k then (g, g + n) else (g, e - i)
    ensures Match(s[i..], x).1 <= j - i || Match(s[i..], x).1 == e - i
  {
    hide Match, Header, Run, Redact;
    CutAt(s, i, j, k, e);
    MatchBeforeParts(s[i..j], s[j..k], s[k..e], s[e..], x);
  }

  lemma CutAt(s: string, i: nat, j: nat, k: nat, e: nat)
    requires i <= j <= k <= e <= |s|
    ensures s[i..] == s[i..j] + s[j..k] + s[k..e] + s[e..] && s[i..k] == s[i..j] + s[j..k]
    ensures s[j..] == s[j..k] + s[k..e] + s[e..]
  {
  }

  lemma MatchBeforeParts(p: string, h: string, v: string, post: string, x: Syntax)
    requires WellFormed(x) && p != "" && IsHeader(h, x.names) && IsValue(v, x) && IsRest(post, x)
    ensures var w, s := p + h, p + h + v + post;
      var g := Header(w, x.names);
      g <= |p| &&
      var n := Run(w[g..], x);
      && (g + n < |w| ==> g + n <= |p|)
      && Match(s, x) == if g == 0 || n == 0 then (0, 0) else if g + n < |w| then (g, g + n) else (g, |w| + |v|)
  {
    hide Header, Run, Redact;
    assert p + h + v + post == p + h + (v + post);
    EarlierHeader(p, h, v + post, x);
    SplitRun(p, h, v, post, x, Header(p + h, x.names));
  }

  ghost predicate Twins(s: string, t: string, j: nat, k: nat, e: nat, f: nat, x: Syntax) {
    Parameter(s, j, k, e, x) && Parameter(t, j, k, f, x) && s[..k] == t[..k] && s[e..] == t[f..]
  }

  lemma TwinBase(s: string, t: string, j: nat, k: nat, e: nat, f: nat, x: Syntax)
    requires WellFormed(x) && Twins(s, t, j, k, e, f, x)
    ensures Redact(s[j..], x) == Redact(t[j..], x)
  {
    hide Match, Header, Run, Redact;
    CutAt(s, j, j, k, e);
    CutAt(t, j, j, k, f);
    assert s[j..k] == s[..k][j..] == t[..k][j..] == t[j..k];
    MatchInFront(s[j..k], s[k..e], s[e..], x);
    MatchInFront(s[j..k], t[k..f], s[e..], x);
  }

  lemma SamePrefix(s: string, t: string, i: nat, k: nat)
    requires i < k <= |s| && k <= |t| && s[..k] == t[..k]
    ensures s[i..k] == t[i..k] && s[i] == t[i]
    ensures forall d :: 0 <= d <= k - i ==> s[i..][..d] == t[i..][..d]
  {
    assert forall d :: i <= d < k ==> s[d] == s[..k][d] && t[d] == t[..k][d];
  }

  lemma TwinMatch(s: string, t: string, i: nat, j: nat, k: nat, e: nat, f: nat, x: Syntax)
    requires WellFormed(x) && Twins(s, t, j, k, e, f, x) && i < j
    ensures j <= |s| && j <= |t| && e <= |s| && f <= |t| && s[i] == t[i]
    ensures var m, m' := Match(s[i..], x), Match(t[i..], x);
      && m.0 == m'.0 && s[i..][..m.0] == t[i..][..m.0]
      && (m.1 == m'.1 <= j - i || (m.1 == e - i && m'.1 == f - i))
  {
    hide Match, Header, Run, Redact;
    SamePrefix(s, t, i, k);
    MatchBefore(s, i, j, k, e, x);
    MatchBefore(t, i, j, k, f, x);
  }

  /** The substitution by position, as a scanner over s runs it. */
  function Scan(s: string, i: nat, x: Syntax): string
    requires i <= |s|
    decreases |s| - i
  {
    if i == |s| then ""
    else
      var m := Match(s[i..], x);
      if m.1 == 0 then [s[i]] + Scan(s, i + 1, x)
      else s[i..][..m.0] + x.mask + Scan(s, i + m.1, x)
  }

  lemma ScanStep(s: string, i: nat, x: Syntax)
    requires i < |s|
    ensures var m := Match(s[i..], x);
      Scan(s, i, x) == if m.1 == 0 then [s[i]] + Scan(s, i + 1, x) else s[i..][..m.0] + x.mask + Scan(s, i + m.1, x)
  {
    hide Match;
  }

  lemma {:induction false} ScanIsRedact(s: string, i: nat, x: Syntax)
    requires i <= |s|
    ensures Scan(s, i, x) == Redact(s[i..], x)
    decreases |s| - i
  {
    hide Match, Redact, Scan;
    if i < |s| {
      var m := Match(s[i..], x);
      var d := if m.1 == 0 then 1 else m.1;
      RedactStep(s[i..], x);
      ScanStep(s, i, x);
      TailOf(s, i, d);
      ScanIsRedact(s, i + d, x);
    } else {
      assert s[i..] == "";
      ScanNothing(s, x);
    }
  }

  lemma ScanNothing(s: string, x: Syntax)
    ensures Redact("", x) == "" == Scan(s, |s|, x)
  {
  }

  lemma TwinTail(s: string, t: string, j: nat, k: nat, e: nat, f: nat, x: Syntax)
    requires WellFormed(x) && Twins(s, t, j, k, e, f, x)
    ensures j <= |s| && j <= |t| && e <= |s| && f <= |t|
    ensures Scan(s, e, x) == Scan(t, f, x) && Scan(s, j, x) == Scan(t, j, x)
  {
    hide Match, Header, Run, Redact, Scan;
    TwinBase(s, t, j, k, e, f, x);
    ScanIsRedact(s, j, x);
    ScanIsRedact(t, j, x);
    ScanIsRedact(s, e, x);
    ScanIsRedact(t, f, x);
  }

  /** Two texts with the same parameter and the same surroundings are redacted
      alike from any point before the parameter. */
  lemma {:induction false} TwinRedaction(s: string, t: string, i: nat, j: nat, k: nat, e: nat, f: nat, x: Syntax)
    requires WellFormed(x) && Twins(s, t, j, k, e, f, x) && i <= j <= |s| && j <= |t|
    ensures Scan(s, i, x) == Scan(t, i, x)
    decreases j - i
  {
    hide Match, Scan, Twins, Parameter, WellFormed;
    TwinTail(s, t, j, k, e, f, x);
    if i < j {
      TwinMatch(s, t, i, j, k, e, f, x);
      ScanStep(s, i, x);
      ScanStep(t, i, x);
      var m := Match(s[i..], x);
      if m.1 == 0 {
        TwinRedaction(s, t, i + 1, j, k, e, f, x);
      } else if m.1 <= j - i {
        TwinRedaction(s, t, i + m.1, j, k, e, f, x);
      }
    }
  }

  lemma TailOf(s: string, i: nat, d: nat)
    requires i + d <= |s|
    ensures s[i..][d..] == s[i + d..]
    ensures d > 0 ==> s[i..][0] == s[i]
  {
  }

  /** Whatever precedes the parameter, its value leaves no trace. */
  lemma SecretIndependence(p: string, h: string, v1: string, v2: string, post: string, x: Syntax)
    requires WellFormed(x) && IsHeader(h, x.names) && IsValue(v1, x) && IsValue(v2, x) && IsRest(post, x)
    ensures Redact(p + h + v1 + post, x) == Redact(p + h + v2 + post, x)
  {
    hide Match, Header, Run, Redact;
    var s, t, j, k := p + h + v1 + post, p + h + v2 + post, |p|, |p + h|;
    assert s[j..k] == h == t[j..k] && s[k..k + |v1|] == v1 && t[k..k + |v2|] == v2;
    assert s[k + |v1|..] == post == t[k + |v2|..] && s[..k] == p + h == t[..k];
    TwinRedaction(s, t, 0, j, k, k + |v1|, k + |v2|, x);
    assert s[0..] == s && t[0..] == t;
    ScanIsRedact(s, 0, x);
    ScanIsRedact(t, 0, x);
  }

  // ------------------------------------------------------------- idempotence

  lemma FirstCharKept(s: string, x: Syntax)
    ensures s == "" <==> Redact(s, x) == ""
    ensures s != "" ==> Redact(s, x)[0] == s[0]
  {
    hide Header, Run;
  }

  lemma NoMatchWithoutOpener(s: string, x: Syntax)
    requires WellFormed(x) && (s == "" || !Opens(s[0]))
    ensures Match(s, x).1 == 0
  {
    hide Match, Header, Run, Redact;
    if Match(s, x).1 > 0 {
      var h, v, post := MatchParts(s, x);
    }
  }

  /** Text up to the next opener is copied. */
  lemma {:induction false} PlainPrefix(s: string, k: nat, x: Syntax)
    requires WellFormed(x) && k <= |s| && forall i :: 0 <= i < k ==> !Opens(s[i])
    ensures Redact(s, x) == s[..k] + Redact(s[k..], x)
  {
    hide Match, Header, Run;
    if k == 0 {
      assert s[0..] == s && s[..0] == "";
    } else {
      NoMatchWithoutOpener(s, x);
      PlainPrefix(s[1..], k - 1, x);
      JoinSlices(s, k, Redact(s[k..], x));
    }
  }

  lemma JoinSlices(s: string, k: nat, rest: string)
    requires 1 <= k <= |s|
    ensures [s[0]] + (s[1..][..k - 1] + rest) == s[..k] + rest
    ensures s[1..][k - 1..] == s[k..]
  {
  }

  /** The length of the text before the next opener. */
  function Plain(s: string): (k: nat)
    ensures k <= |s| && forall i :: 0 <= i < k ==> !Opens(s[i])
    ensures k < |s| ==> Opens(s[k])
  {
    if s == "" || Opens(s[0]) then 0 else 1 + Plain(s[1..])
  }

  /** A match needs only the text up to the next opener and one more character. */
  lemma MatchLooksShort(c: char, a: string, b: string, b': string, x: Syntax)
    requires WellFormed(x) && forall i :: 0 <= i < |a| ==> !Opens(a[i])
    requires b' != "" ==> b != "" && b[0] == b'[0] && Opens(b[0])
    requires Match([c] + a + b', x).1 > 0
    ensures Match([c] + a + b, x).1 > 0
  {
    hide Header, Run, Redact;
    var w, s' := [c] + a, [c] + a + b';
    var h, v, post := MatchParts(s', x);
    assert h + v + post == h + (v + post);
    if |h| > |w| {
      assert h[|w|] == s'[|w|] == b'[0];
      HeaderShape(h, x, |w|);
    }
    Resplit(w, b, b', h, v + post);
    var rest := w[|h|..];
    HeaderInFront(h, rest + b, x);
    assert (rest + b)[0] == (rest + b')[0] == v[0];
    RunOfValue(rest + b, x);
  }

  lemma Resplit(w: string, b: string, b': string, h: string, tail: string)
    requires w + b' == h + tail && |h| <= |w|
    ensures w + b == h + (w[|h|..] + b) && tail == w[|h|..] + b'
  {
    assert h == (h + tail)[..|h|] == (w + b')[..|h|] == w[..|h|];
    assert tail == (h + tail)[|h|..] == (w + b')[|h|..];
  }

  lemma RunOfValue(s: string, x: Syntax)
    requires s != "" && s[0] !in x.stops
    ensures Run(s, x) > 0
  {
  }

  /** Redacting the tail cannot create a match at the character before it. */
  lemma NoNewMatch(c: char, t: string, x: Syntax)
    requires WellFormed(x) && Match([c] + t, x).1 == 0
    ensures Match([c] + Redact(t, x), x).1 == 0
  {
    hide Match, Header, Run, Redact;
    var q := Plain(t);
    PlainPrefix(t, q, x);
    FirstCharKept(t[q..], x);
    Rejoin(c, t, q, Redact(t[q..], x));
    if Match([c] + t[..q] + Redact(t[q..], x), x).1 > 0 {
      MatchLooksShort(c, t[..q], t[q..], Redact(t[q..], x), x);
    }
  }

  lemma Rejoin(c: char, t: string, q: nat, tail: string)
    requires q <= |t|
    ensures [c] + (t[..q] + tail) == [c] + t[..q] + tail
    ensures [c] + t == [c] + t[..q] + t[q..]
  {
  }

  /** A second pass changes nothing. */
  lemma {:induction false} RedactIdempotent(s: string, x: Syntax)
    requires WellFormed(x)
    ensures Redact(Redact(s, x), x) == Redact(s, x)
    decreases |s|
  {
    hide Match, Header, Run;
    if s == "" {
    } else if Match(s, x).1 > 0 {
      var h, v, post := MatchParts(s, x);
      RedactIdempotent(post, x);
      FirstCharKept(post, x);
      MatchInFront(h, v, post, x);
      MatchInFront(h, x.mask, Redact(post, x), x);
    } else {
      var s' := [s[0]] + Redact(s[1..], x);
      RedactIdempotent(s[1..], x);
      assert [s[0]] + s[1..] == s;
      NoNewMatch(s[0], s[1..], x);
      assert s'[1..] == Redact(s[1..], x);
    }
  }

  // ------------------------------------------------------------- clean text

  /** Wherever a sensitive parameter has a value, that value is the mask. */
  ghost predicate Clean(s: string, x: Syntax) {
    forall i :: 0 <= i <= |s| ==> Masked(s[i..], x)
  }

  ghost predicate Masked(s: string, x: Syntax) {
    var m := Match(s, x);
    m.1 > 0 ==> s[m.0..m.1] == x.mask
  }

  /** Clean text is exactly the text that redaction leaves alone. */
  lemma {:induction false} CleanIff(s: string, x: Syntax)
    requires WellFormed(x)
    ensures Clean(s, x) <==> Redact(s, x) == s
    decreases |s|
  {
    hide Match, Header, Run;
    if s == "" {
      assert Match("", x).1 == 0;
    } else if Match(s, x).1 > 0 {
      var h, v, post := MatchParts(s, x);
      MatchInFront(h, v, post, x);
      CleanIff(post, x);
      CleanAcross(h, v, post, x);
      FirstCharKept(post, x);
      if Redact(s, x) == s { ValueIsMask(h, v, post, Redact(post, x), x); }
      assert s[|h|..|h| + |v|] == v;
      if v == x.mask && Redact(post, x) == post { assert Redact(s, x) == s; }
    } else {
      CleanIff(s[1..], x);
      CleanStep(s, x);
      if Redact(s, x) == s { assert Redact(s[1..], x) == s[1..]; }
      if Redact(s[1..], x) == s[1..] { assert [s[0]] + s[1..] == s; }
    }
  }

  lemma CleanStep(s: string, x: Syntax)
    requires s != "" && Match(s, x).1 == 0
    ensures Clean(s, x) <==> Clean(s[1..], x)
  {
    hide Match, Header, Run, Redact;
    assert s[0..] == s;
    forall i | 1 <= i <= |s| ensures s[i..] == s[1..][i - 1..] { }
    if Clean(s, x) {
      forall j | 0 <= j <= |s[1..]| ensures Masked(s[1..][j..], x) {
        assert s[1..][j..] == s[j + 1..];
      }
    }
  }

  /** Inside a header or a value no parameter starts. */
  lemma CleanAcross(h: string, v: string, post: string, x: Syntax)
    requires WellFormed(x) && IsHeader(h, x.names) && IsValue(v, x) && IsRest(post, x)
    ensures Clean(h + v + post, x) ==> v == x.mask && Clean(post, x)
    ensures v == x.mask && Clean(post, x) ==> Clean(h + v + post, x)
  {
    hide Match, Header, Run, Redact;
    var s := h + v + post;
    MatchInFront(h, v, post, x);
    assert s[0..] == s && s[|h|..|h| + |v|] == v;
    forall j | 0 <= j <= |post| ensures post[j..] == s[|h| + |v| + j..] { }
    if v == x.mask && Clean(post, x) {
      forall i | 0 <= i <= |s| ensures Masked(s[i..], x) {
        if 0 < i < |h| + |v| {
          if i < |h| {
            assert s[i] == h[i];
            HeaderShape(h, x, i);
          } else {
            assert s[i] == x.mask[i - |h|];
          }
          NoMatchWithoutOpener(s[i..], x);
        } else if i >= |h| + |v| {
          assert s[i..] == post[i - |h| - |v|..];
        }
      }
    }
  }

  /** If redacting left the text as it was, the value was the mask already. */
  lemma ValueIsMask(h: string, v: string, post: string, rest: string, x: Syntax)
    requires WellFormed(x) && IsValue(v, x) && IsRest(post, x) && (post == "" <==> rest == "") && (post != "" ==> rest[0] == post[0])
    requires h + x.mask + rest == h + v + post
    ensures v == x.mask && rest == post
  {
    assert x.mask + rest == (h + x.mask + rest)[|h|..] == (h + v + post)[|h|..] == v + post;
    assert forall i :: 0 <= i < |x.mask| ==> (x.mask + rest)[i] !in x.stops;
    assert rest != "" ==> (x.mask + rest)[|x.mask|] in x.stops;
    assert forall i :: 0 <= i < |v| ==> (v + post)[i] !in x.stops;
    assert post != "" ==> (v + post)[|v|] in x.stops;
    assert |v| == |x.mask|;
    assert v == (v + post)[..|v|];
  }

  /** What redaction produces is clean. */
  lemma RedactIsClean(s: string, x: Syntax)
    requires WellFormed(x)
    ensures Clean(Redact(s, x), x)
  {
    hide Match, Header, Run, Redact;
    RedactIdempotent(s, x);
    CleanIff(Redact(s, x), x);
  }

  // --------------------------------------------------------------- reference

  /** s[a..b] belongs to the language of the expression. */
  ghost predicate InLanguage(s: string, a: nat, b: nat, x: Syntax) {
    a <= b <= |s| && exists k: nat :: a <= k < b && IsHeader(s[a..k], x.names) && IsValue(s[k..b], x)
  }

  /** A replaced region: header s[a..k], value s[k..b]. */
  datatype Span = Span(a: nat, k: nat, b: nat)

  /** The region is a match that no longer match extends. */
  ghost predicate Greedy(s: string, sp: Span, x: Syntax) {
    && sp.a <= sp.k <= sp.b <= |s| && IsHeader(s[sp.a..sp.k], x.names) && IsValue(s[sp.k..sp.b], x)
    && (sp.b == |s| || s[sp.b] in x.stops)
  }

  /** Nothing in the language starts at any of these places. */
  ghost predicate Silent(s: string, from: nat, to: nat, x: Syntax) {
    forall k: nat, b: nat :: from <= k < to ==> !InLanguage(s, k, b, x)
  }

  /** What substitution must replace from position i on: greedy matches, left
      to right, none overlapping, and nothing left that could have matched. */
  ghost predicate Leftmost(s: string, i: nat, spans: seq<Span>, x: Syntax)
    decreases |spans|
  {
    i <= |s| &&
    if spans == [] then Silent(s, i, |s| + 1, x)
    else i <= spans[0].a && Silent(s, i, spans[0].a, x) && Greedy(s, spans[0], x) && Leftmost(s, spans[0].b, spans[1..], x)
  }

  /** The text with the value of every region replaced by the mask. */
  ghost function Splice(s: string, i: nat, spans: seq<Span>, x: Syntax): string
    requires Leftmost(s, i, spans, x)
    decreases |spans|
  {
    if spans == [] then s[i..]
    else s[i..spans[0].k] + x.mask + Splice(s, spans[0].b, spans[1..], x)
  }

  lemma GreedyIsMatch(s: string, sp: Span, x: Syntax)
    requires WellFormed(x) && Greedy(s, sp, x)
    ensures sp.a < sp.k < sp.b <= |s| && Match(s[sp.a..], x) == (sp.k - sp.a, sp.b - sp.a)
  {
    hide Match, Header, Run, Redact;
    CutAt(s, sp.a, sp.a, sp.k, sp.b);
    MatchInFront(s[sp.a..sp.k], s[sp.k..sp.b], s[sp.b..], x);
  }

  /** Where the language has a member, the scanner matches. */
  lemma SilentOrMatch(s: string, a: nat, x: Syntax) returns (sp: Span)
    requires WellFormed(x) && a <= |s|
    ensures Match(s[a..], x).1 == 0 ==> Silent(s, a, a + 1, x)
    ensures Match(s[a..], x).1 > 0 ==> sp.a == a && Greedy(s, sp, x) && InLanguage(s, a, sp.b, x)
  {
    hide Match, Header, Run, Redact;
    if Match(s[a..], x).1 > 0 {
      var h, v, post := MatchParts(s[a..], x);
      sp := Span(a, a + |h|, a + |h| + |v|);
      Locate(s, a, h, v, post);
    } else {
      sp := Span(a, a, a);
      forall b: nat ensures !InLanguage(s, a, b, x) {
        if InLanguage(s, a, b, x) { LanguageMatches(s, a, b, x); }
      }
    }
  }

  lemma Locate(s: string, a: nat, h: string, v: string, post: string)
    requires a <= |s| && s[a..] == h + v + post
    ensures var k, b := a + |h|, a + |h| + |v|;
      b <= |s| && s[a..k] == h && s[k..b] == v && s[b..] == post
  {
    assert |s| == a + |h| + |v| + |post|;
    assert forall d :: 0 <= d < |s| - a ==> s[a + d] == s[a..][d];
  }

  lemma LanguageMatches(s: string, a: nat, b: nat, x: Syntax)
    requires WellFormed(x) && InLanguage(s, a, b, x)
    ensures Match(s[a..], x).1 > 0
  {
    hide Match, Header, Run, Redact, IsHeader, WellFormed;
    var k: nat :| a <= k < b && IsHeader(s[a..k], x.names) && IsValue(s[k..b], x);
    var n := Run(s[k..], x);
    assert s[k] == s[k..b][0];
    RunIsValue(s, k, x);
    GreedyIsMatch(s, Span(a, k, k + n), x);
  }

  lemma RunIsValue(s: string, k: nat, x: Syntax)
    requires k < |s| && s[k] !in x.stops
    ensures var n := Run(s[k..], x);
      k + n <= |s| && IsValue(s[k..k + n], x) && (k + n == |s| || s[k + n] in x.stops)
  {
    hide Run;
    assert s[k..][0] == s[k];
    RunOfValue(s[k..], x);
    SliceRun(s, k, Run(s[k..], x));
  }

  lemma SliceRun(s: string, k: nat, n: nat)
    requires k + n <= |s|
    ensures s[k..][..n] == s[k..k + n] && (k + n < |s| ==> s[k..][n] == s[k + n])
  {
  }

  /** The scanner computes the substitution: any list of regions that meets the
      definition yields the scanner's output, so there is only one. */
  lemma {:induction false} ScanIsSubstitution(s: string, i: nat, spans: seq<Span>, x: Syntax)
    requires WellFormed(x) && i <= |s| && Leftmost(s, i, spans, x)
    ensures Scan(s, i, x) == Splice(s, i, spans, x)
    decreases |s| - i
  {
    hide Match, Scan, Greedy, Silent, Leftmost, Splice, InLanguage, WellFormed;
    if i == |s| {
      NoRegionAtEnd(s, spans, x);
    } else {
      ScanStep(s, i, x);
      var sp := SilentOrMatch(s, i, x);
      if spans != [] && spans[0].a == i {
        SpliceRegion(s, i, spans, x);
        ScanIsSubstitution(s, spans[0].b, spans[1..], x);
      } else {
        NotHere(s, i, spans, sp, x);
        SpliceCopy(s, i, spans, x);
        ScanIsSubstitution(s, i + 1, spans, x);
      }
    }
  }

  lemma NoRegionAtEnd(s: string, spans: seq<Span>, x: Syntax)
    requires WellFormed(x) && Leftmost(s, |s|, spans, x)
    ensures spans == [] && Splice(s, |s|, spans, x) == Scan(s, |s|, x)
  {
    hide Match, InLanguage, Silent;
    if spans != [] { GreedyIsMatch(s, spans[0], x); }
  }

  lemma SpliceRegion(s: string, i: nat, spans: seq<Span>, x: Syntax)
    requires WellFormed(x) && Leftmost(s, i, spans, x) && spans != [] && spans[0].a == i
    ensures var sp := spans[0];
      && i < sp.k < sp.b <= |s| && Leftmost(s, sp.b, spans[1..], x)
      && Match(s[i..], x) == (sp.k - i, sp.b - i)
      && Splice(s, i, spans, x) == s[i..][..sp.k - i] + x.mask + Splice(s, sp.b, spans[1..], x)
  {
    hide Match, InLanguage, Silent, WellFormed, Greedy, Leftmost, Splice;
    SpliceHead(s, i, spans, x);
    GreedyIsMatch(s, spans[0], x);
    SliceOf(s, i, spans[0].k);
  }

  lemma SpliceHead(s: string, i: nat, spans: seq<Span>, x: Syntax)
    requires Leftmost(s, i, spans, x) && spans != [] && spans[0].a == i
    ensures var sp := spans[0];
      && i <= sp.k <= sp.b <= |s| && Greedy(s, sp, x) && Leftmost(s, sp.b, spans[1..], x)
      && Splice(s, i, spans, x) == s[i..sp.k] + x.mask + Splice(s, sp.b, spans[1..], x)
  {
    hide Silent, InLanguage;
  }

  lemma SliceOf(s: string, i: nat, k: nat)
    requires i <= k <= |s|
    ensures s[i..][..k - i] == s[i..k]
    ensures i < k ==> s[i..k] == [s[i]] + s[i + 1..k]
  {
  }

  lemma SpliceCopy(s: string, i: nat, spans: seq<Span>, x: Syntax)
    requires i < |s| && Leftmost(s, i, spans, x) && Leftmost(s, i + 1, spans, x)
    ensures Splice(s, i, spans, x) == [s[i]] + Splice(s, i + 1, spans, x)
  {
    hide Match, InLanguage, Silent;
    SliceOf(s, i, if spans == [] then |s| else spans[0].k);
    assert s[i..|s|] == s[i..] && s[i + 1..|s|] == s[i + 1..];
  }

  lemma NotHere(s: string, i: nat, spans: seq<Span>, sp: Span, x: Syntax)
    requires i < |s| && Leftmost(s, i, spans, x) && (spans == [] || spans[0].a != i)
    requires Match(s[i..], x).1 > 0 ==> InLanguage(s, i, sp.b, x)
    ensures Match(s[i..], x).1 == 0 && Leftmost(s, i + 1, spans, x)
  {
    hide Match, Header, Run, Redact;
  }

  /** Such a list always exists. */
  lemma {:induction false} SubstitutionExists(s: string, i: nat, x: Syntax) returns (spans: seq<Span>)
    requires WellFormed(x) && i <= |s|
    ensures Leftmost(s, i, spans, x)
    decreases |s| - i
  {
    hide Match, Header, Run, Redact;
    var sp := SilentOrMatch(s, i, x);
    if Match(s[i..], x).1 > 0 {
      GreedyIsMatch(s, sp, x);
      var rest := SubstitutionExists(s, sp.b, x);
      spans := [sp] + rest;
      assert spans[1..] == rest;
    } else if i < |s| {
      spans := SubstitutionExists(s, i + 1, x);
    } else {
      spans := [];
    }
  }

  // ---------------------------------------------------------------- instance

  /** The source's expression and replacement. */
  const SENSITIVE := Syntax(["api", "key", "api_key", "token", "access_token"], {'&', '"', '\''} + SPACES, "[REDACTED]")

  lemma NameIsWord(name: string)
    requires name in SENSITIVE.names
    ensures forall i :: 0 <= i < |name| ==> NameChar(name[i])
  {
  }

  lemma NamesAreWords()
    ensures Words(SENSITIVE.names)
  {
    hide NameChar;
    var names := SENSITIVE.names;
    forall n | n in names ensures forall i :: 0 <= i < |n| ==> NameChar(n[i]) { NameIsWord(n); }
  }

  /** Terminators lie below the capital letters or are one of the spaces beyond
      ASCII, none of which folds to a letter. */
  lemma StopsAreLow(c: char)
    requires c in SENSITIVE.stops
    ensures c < '=' || '\U{85}' <= c <= '\U{a0}' || '\U{1680}' <= c <= '\U{205f}' || c == '\U{3000}'
  {
  }

  lemma StopsAreForeign()
    ensures Foreign(SENSITIVE.stops)
  {
    hide SENSITIVE;
    forall c | c in SENSITIVE.stops ensures !NameChar(Fold(c)) && c != '=' { StopsAreLow(c); }
  }

  lemma MaskIsQuiet()
    ensures Quiet(SENSITIVE.mask, SENSITIVE.stops)
  {
    forall i | 0 <= i < |SENSITIVE.mask| ensures SENSITIVE.mask[i] !in SENSITIVE.stops && !Opens(SENSITIVE.mask[i]) {
      var c := SENSITIVE.mask[i];
      assert 'A' <= c <= ']';
      if c in SENSITIVE.stops { StopsAreLow(c); }
    }
  }

  lemma SensitiveIsWellFormed()
    ensures WellFormed(SENSITIVE)
  {
    hide Words, Foreign, Quiet;
    NamesAreWords();
    StopsAreForeign();
    MaskIsQuiet();
  }

  /** redact_sensitive_query_values. */
  function RedactSensitive(s: string): string { Redact(s, SENSITIVE) }
}
