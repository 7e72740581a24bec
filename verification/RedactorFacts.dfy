/** What the redactor does, told about the text alone: the five names in either
    case, the two openers, the characters that end a value. */
module RedactorFacts {
  import opened Common
  import opened Redactor
  import opened LogFilter

  // --------------------------------------------------------------- characters

  /** The character stands for this small letter or underscore, in either case;
      four letters beyond ASCII fold to i, s and k. */
  ghost predicate Spells(c: char, letter: char) {
    || c == letter
    || ('a' <= letter <= 'z' && c as int == letter as int - 32)
    || (letter == 'i' && (c as int == 0x130 || c as int == 0x131))
    || (letter == 's' && c as int == 0x17f)
    || (letter == 'k' && c as int == 0x212a)
  }

  ghost predicate SpellsOut(n: string, name: string) { |n| == |name| && forall i :: 0 <= i < |n| ==> Spells(n[i], name[i]) }

  /** One of the five names. */
  ghost predicate IsName(n: string) {
    SpellsOut(n, "api") || SpellsOut(n, "key") || SpellsOut(n, "api_key") || SpellsOut(n, "token") || SpellsOut(n, "access_token")
  }

  /** What ends a value. */
  ghost predicate Ends(c: char) { c == '&' || c == '"' || c == '\'' || IsSpace(c) }

  lemma StopsAre(c: char)
    ensures c in SENSITIVE.stops <==> Ends(c)
  {
    hide SPACES, IsSpace;
    SpacesAre(c);
  }

  lemma SpellsIsFold(c: char, letter: char)
    requires NameChar(letter)
    ensures Spells(c, letter) <==> Fold(c) == letter
  {
  }

  lemma SpelledName(n: string, name: string)
    requires forall i :: 0 <= i < |name| ==> NameChar(name[i])
    ensures SpellsOut(n, name) <==> Lower(n) == name
  {
    hide Fold, Spells, NameChar;
    var t := Lower(n);
    if |n| == |name| {
      forall i | 0 <= i < |n| ensures Spells(n[i], name[i]) <==> t[i] == name[i] { SpellsIsFold(n[i], name[i]); }
    }
  }

  lemma NameIs(n: string, name: string)
    requires name in SENSITIVE.names
    ensures SpellsOut(n, name) <==> Lower(n) == name
  {
    hide Lower, SpellsOut, NameChar, SENSITIVE;
    NamesAreWords();
    SpelledName(n, name);
  }

  lemma FiveNames(n: string)
    ensures n in SENSITIVE.names <==> n == "api" || n == "key" || n == "api_key" || n == "token" || n == "access_token"
  {
    assert SENSITIVE.names == ["api", "key", "api_key", "token", "access_token"];
  }

  lemma NamesAre(n: string)
    ensures Lower(n) in SENSITIVE.names <==> IsName(n)
  {
    hide Lower, SpellsOut, SENSITIVE;
    forall name ensures name in SENSITIVE.names <==> name == "api" || name == "key" || name == "api_key" || name == "token" || name == "access_token" {
      FiveNames(name);
    }
    NameIs(n, "api");
    NameIs(n, "key");
    NameIs(n, "api_key");
    NameIs(n, "token");
    NameIs(n, "access_token");
  }

  // --------------------------------------------------------------- parameters

  /** An opener, one of the names, an equals sign. */
  ghost predicate IsOpening(h: string) {
    |h| >= 2 && (h[0] == '?' || h[0] == '&') && IsName(h[1..|h| - 1]) && h[|h| - 1] == '='
  }

  ghost predicate IsSecret(v: string) { v != "" && forall i :: 0 <= i < |v| ==> !Ends(v[i]) }

  ghost predicate IsAfter(post: string) { post == "" || Ends(post[0]) }

  lemma OpeningIs(h: string)
    ensures IsHeader(h, SENSITIVE.names) <==> IsOpening(h)
  {
    hide IsName, Lower, SENSITIVE;
    if |h| >= 2 { NamesAre(h[1..|h| - 1]); }
  }

  lemma SecretIs(v: string)
    ensures IsValue(v, SENSITIVE) <==> IsSecret(v)
  {
    hide SENSITIVE, Ends;
    forall c ensures c in SENSITIVE.stops <==> Ends(c) { StopsAre(c); }
  }

  lemma AfterIs(post: string)
    ensures IsRest(post, SENSITIVE) <==> IsAfter(post)
  {
    hide SENSITIVE, Ends;
    if post != "" { StopsAre(post[0]); }
  }

  /** The value of a parameter leaves no trace, whatever comes before it. */
  lemma SecretLeavesNoTrace(p: string, h: string, v1: string, v2: string, post: string)
    requires IsOpening(h) && IsSecret(v1) && IsSecret(v2) && IsAfter(post)
    ensures RedactSensitive(p + h + v1 + post) == RedactSensitive(p + h + v2 + post)
  {
    hide SENSITIVE, Redact, IsOpening, IsSecret, IsAfter, WellFormed;
    SensitiveIsWellFormed();
    OpeningIs(h);
    SecretIs(v1);
    SecretIs(v2);
    AfterIs(post);
    SecretIndependence(p, h, v1, v2, post, SENSITIVE);
  }

  // ----------------------------------------------------------- cutting a text

  /** The text ends inside a parameter's value, or right where one would begin. */
  ghost predicate Hanging(p: string, x: Syntax) {
    exists j, k :: 0 <= j <= k <= |p| && IsHeader(p[j..k], x.names) && forall i :: k <= i < |p| ==> p[i] !in x.stops
  }

  lemma HangingTail(p: string, d: nat, x: Syntax)
    requires d <= |p| && Hanging(p[d..], x)
    ensures Hanging(p, x)
  {
    var q := p[d..];
    var j, k :| 0 <= j <= k <= |q| && IsHeader(q[j..k], x.names) && forall i :: k <= i < |q| ==> q[i] !in x.stops;
    assert q[j..k] == p[d + j..d + k];
    forall i | d + k <= i < |p| ensures p[i] !in x.stops { assert p[i] == q[i - d]; }
  }

  /** A cut at an opener that no value runs across does not change the match in
      front of it. */
  lemma CutMatch(p: string, w: string, x: Syntax)
    requires WellFormed(x) && p != "" && w != "" && Opens(w[0]) && (w[0] in x.stops || !Hanging(p, x))
    ensures Match(p + w, x) == Match(p, x)
  {
    hide Header, Run, WellFormed;
    var s := p + w;
    var g, h := Header(s, x.names), Header(p, x.names);
    HeaderIs(s, x);
    HeaderIs(p, x);
    assert s[|p|] == w[0];
    EndsBefore(s, g, |p|, x);
    assert s[..g] == p[..g] && (h <= |p| ==> s[..h] == p[..h]);
    if g > 0 {
      assert h == g && s[g..] == p[g..] + w;
      RunAcross(p[g..], w, x);
      if w[0] in x.stops { RunStops(w, x); } else { RunsOut(p, g, x); }
    }
  }

  /** A value at the end of the text hangs. */
  lemma RunsOut(p: string, g: nat, x: Syntax)
    requires g <= |p| && IsHeader(p[..g], x.names)
    ensures Run(p[g..], x) < |p| - g || Hanging(p, x)
  {
    hide Run;
    assert p[0..g] == p[..g];
    assert forall i :: g <= i < |p| ==> p[i] == p[g..][i - g];
  }

  lemma RunStops(w: string, x: Syntax)
    requires w != "" && w[0] in x.stops
    ensures Run(w, x) == 0
  {
  }

  lemma CutSlices(p: string, w: string, d: nat, k: nat)
    requires p != "" && d <= |p| && k <= |p|
    ensures (p + w)[d..] == p[d..] + w && (p + w)[..k] == p[..k] && (p + w)[0] == p[0] && p + w != ""
  {
  }

  /** There the two parts are redacted on their own. */
  lemma {:induction false} CutRedacts(p: string, w: string, x: Syntax)
    requires WellFormed(x) && w != "" && Opens(w[0]) && (w[0] in x.stops || !Hanging(p, x))
    ensures Redact(p + w, x) == Redact(p, x) + Redact(w, x)
    decreases |p|
  {
    hide Match, Redact, Hanging, WellFormed;
    if p == "" {
      assert p + w == w;
      ScanNothing(p, x);
    } else {
      var m := Match(p, x);
      var d := if m.1 == 0 then 1 else m.1;
      CutMatch(p, w, x);
      RedactStep(p, x);
      RedactStep(p + w, x);
      CutSlices(p, w, d, m.0);
      if Hanging(p[d..], x) { HangingTail(p, d, x); }
      CutRedacts(p[d..], w, x);
    }
  }

  /** A parameter without a value stays as it is. */
  lemma HeaderAlone(h: string, x: Syntax)
    requires WellFormed(x) && IsHeader(h, x.names)
    ensures Redact(h, x) == h
  {
    hide Match, Header, Run, Redact, WellFormed;
    assert h + "" == h;
    HeaderInFront(h, "", x);
    assert Match(h, x).1 == 0 by { NoValue(h, x); }
    RedactStep(h, x);
    forall i | 0 <= i < |h| - 1 ensures !Opens(h[1..][i]) { HeaderShape(h, x, i + 1); }
    PlainPrefix(h[1..], |h| - 1, x);
    ScanNothing("", x);
    assert h == [h[0]] + h[1..] && h[1..][|h| - 1..] == "";
  }

  lemma NoValue(h: string, x: Syntax)
    requires Header(h, x.names) == |h|
    ensures Match(h, x).1 == 0
  {
    hide Header;
    assert h[|h|..] == "";
  }

  /** The first place from which the text hangs. */
  lemma FirstHanging(p: string, x: Syntax) returns (j: nat, k: nat)
    requires WellFormed(x) && Hanging(p, x)
    ensures j <= k <= |p| && IsHeader(p[j..k], x.names) && forall i :: k <= i < |p| ==> p[i] !in x.stops
    ensures p[j] in x.stops || !Hanging(p[..j], x)
    decreases |p|
  {
    hide WellFormed, IsHeader;
    j, k :| 0 <= j <= k <= |p| && IsHeader(p[j..k], x.names) && forall i :: k <= i < |p| ==> p[i] !in x.stops;
    assert p[j..k] != "" by { HeaderIsSome(p[j..k], x); }
    if p[j] !in x.stops && Hanging(p[..j], x) {
      var j', k' := FirstHanging(p[..j], x);
      assert p[..j][j'..k'] == p[j'..k'] && (j' < j ==> p[..j][..j'] == p[..j'] && p[..j][j'] == p[j']);
      assert p[j'..k'] != "" by { HeaderIsSome(p[j'..k'], x); }
      forall i | k' <= i < |p| ensures p[i] !in x.stops {
        if i < j { assert p[i] == p[..j][i]; } else if j < i < k { NotInHeader(p, j, k, i, x); }
      }
      j, k := j', k';
    }
  }

  lemma HeaderIsSome(h: string, x: Syntax)
    requires IsHeader(h, x.names)
    ensures h != ""
  {
  }

  lemma NotInHeader(p: string, j: nat, k: nat, i: nat, x: Syntax)
    requires WellFormed(x) && j < i < k <= |p| && IsHeader(p[j..k], x.names)
    ensures p[i] !in x.stops
  {
    HeaderShape(p[j..k], x, i - j);
    assert p[i] == p[j..k][i - j];
  }

  /** A parameter that a hanging text swallows: nothing of it is left, and its
      own mask is missing. */
  lemma Swallowed(p: string, h: string, v: string, post: string, x: Syntax)
    requires WellFormed(x) && IsHeader(h, x.names) && h[0] !in x.stops && IsValue(v, x) && IsRest(post, x) && Hanging(p, x)
    ensures |Redact(p + h + v + post, x)| < |Redact(p, x) + h + x.mask + Redact(post, x)|
  {
    hide Match, Header, Run, Redact, WellFormed, Hanging, IsHeader, IsValue, IsRest;
    var j, k := FirstHanging(p, x);
    HeaderIsSome(p[j..k], x);
    HeaderIsSome(h, x);
    var a, g, u := p[..j], p[j..k], p[k..] + h + v;
    assert p == a + g + p[k..] && p + h + v + post == a + (g + u + post);
    ValueOf(p, k, h, v, x);
    OpensHere(g, x);
    assert (g + u + post)[0] == g[0] == p[j];
    CutRedacts(a, g + u + post, x);
    MatchInFront(g, u, post, x);
    if k == |p| {
      assert p == a + g;
      CutRedacts(a, g, x);
      HeaderAlone(g, x);
    } else {
      assert p == a + (g + p[k..] + "") && (g + p[k..] + "")[0] == g[0];
      CutRedacts(a, g + p[k..] + "", x);
      assert IsRest("", x) && IsValue(p[k..], x) by { TailIsValue(p, k, x); }
      MatchInFront(g, p[k..], "", x);
    }
  }

  lemma TailIsValue(p: string, k: nat, x: Syntax)
    requires k < |p| && forall i :: k <= i < |p| ==> p[i] !in x.stops
    ensures IsRest("", x) && IsValue(p[k..], x)
  {
  }

  lemma OpensHere(h: string, x: Syntax)
    requires IsHeader(h, x.names)
    ensures h != "" && Opens(h[0])
  {
  }

  lemma ValueOf(p: string, k: nat, h: string, v: string, x: Syntax)
    requires WellFormed(x) && k <= |p| && (forall i :: k <= i < |p| ==> p[i] !in x.stops) && IsHeader(h, x.names) && h[0] !in x.stops && IsValue(v, x)
    ensures IsValue(p[k..] + h + v, x)
  {
    var u := p[k..] + h + v;
    forall i | 0 <= i < |u| ensures u[i] !in x.stops {
      if i < |p| - k { assert u[i] == p[k + i]; }
      else if i < |p| - k + |h| { assert u[i] == h[i - (|p| - k)]; if i > |p| - k { HeaderShape(h, x, i - (|p| - k)); } }
      else { assert u[i] == v[i - (|p| - k) - |h|]; }
    }
  }

  // --------------------------------------------------------- one whole text

  /** The text ends inside the value of a sensitive parameter, or just before. */
  ghost predicate Open(p: string) {
    exists j, k :: 0 <= j <= k <= |p| && IsOpening(p[j..k]) && forall i :: k <= i < |p| ==> !Ends(p[i])
  }

  lemma OpenIs(p: string)
    ensures Hanging(p, SENSITIVE) <==> Open(p)
  {
    hide SENSITIVE, Ends, IsOpening, IsHeader;
    forall h ensures IsHeader(h, SENSITIVE.names) <==> IsOpening(h) { OpeningIs(h); }
    forall c ensures c in SENSITIVE.stops <==> Ends(c) { StopsAre(c); }
  }

  /** The whole substitution at a parameter: what precedes is redacted on its own,
      the parameter keeps its name and loses its value, what follows is redacted
      on its own. That is so for every parameter opened by an ampersand, and for
      one opened by a question mark exactly when no earlier value runs into it. */
  lemma ParameterIsMaskedIff(p: string, h: string, v: string, post: string)
    requires IsOpening(h) && IsSecret(v) && IsAfter(post)
    ensures RedactSensitive(p + h + v + post) == RedactSensitive(p) + h + "[REDACTED]" + RedactSensitive(post)
      <==> h[0] == '&' || !Open(p)
  {
    hide SENSITIVE, Redact, IsOpening, IsSecret, IsAfter, WellFormed, Hanging, Open, IsHeader, IsRest, IsValue;
    SensitiveIsWellFormed();
    OpeningIs(h);
    SecretIs(v);
    AfterIs(post);
    OpenIs(p);
    OpensHere(h, SENSITIVE);
    StopsAre(h[0]);
    FirstOfOpening(h);
    MaskIs();
    if h[0] == '&' || !Open(p) {
      assert p + h + v + post == p + (h + v + post) && (h + v + post)[0] == h[0];
      CutRedacts(p, h + v + post, SENSITIVE);
      MatchInFront(h, v, post, SENSITIVE);
      JoinFour(RedactSensitive(p), h, "[REDACTED]", RedactSensitive(post));
    } else {
      Swallowed(p, h, v, post, SENSITIVE);
    }
  }

  lemma MaskIs()
    ensures SENSITIVE.mask == "[REDACTED]"
  {
  }

  lemma FirstOfOpening(h: string)
    requires IsOpening(h)
    ensures h != "" && (h[0] == '&' || h[0] == '?') && (h[0] == '?' ==> !Ends(h[0])) && Ends('&')
  {
  }

  lemma JoinFour(a: string, b: string, c: string, d: string)
    ensures a + (b + c + d) == a + b + c + d
  {
  }

  /** A text in which the second kind happens: the second parameter is taken for a
      part of the first one's value. */
  lemma SwallowedText()
    ensures RedactSensitive("?key=a?token=b") == "?key=[REDACTED]"
  {
    hide SENSITIVE, Redact, WellFormed, IsHeader, IsRest, IsValue, IsOpening, IsSecret, IsAfter;
    var h, v := "?key=", "a?token=b";
    SwallowedParts();
    SensitiveIsWellFormed();
    OpeningIs(h);
    SecretIs(v);
    AfterIs("");
    MatchInFront(h, v, "", SENSITIVE);
    ScanNothing("", SENSITIVE);
    MaskIs();
    assert h + v + "" == "?key=a?token=b";
  }

  lemma SwallowedParts()
    ensures IsOpening("?key=") && IsSecret("a?token=b") && IsAfter("")
  {
    hide IsSpace;
    var h, v := "?key=", "a?token=b";
    assert SpellsOut("key", "key") && h[1..|h| - 1] == "key";
    SpaceLess(v);
  }

  lemma SpaceLess(v: string)
    requires forall i :: 0 <= i < |v| ==> '?' <= v[i] <= 'z' || v[i] == '='
    ensures forall i :: 0 <= i < |v| ==> !IsSpace(v[i])
  {
  }

  // ---------------------------------------------------------- all parameters

  /** A sensitive parameter of the text: opening s[a..k], whole value s[k..b]. */
  ghost predicate Sought(s: string, a: int, k: int, b: int) {
    0 <= a <= k <= b <= |s| && IsOpening(s[a..k]) && IsSecret(s[k..b]) && IsAfter(s[b..])
  }

  ghost predicate AllSought(s: string, i: int, spans: seq<Span>) {
    forall n :: 0 <= n < |spans| ==> i <= spans[n].a && Sought(s, spans[n].a, spans[n].k, spans[n].b)
  }

  ghost predicate Apart(spans: seq<Span>) { forall n, m :: 0 <= n < m < |spans| ==> spans[n].b <= spans[m].a }

  ghost predicate Within(a: int, spans: seq<Span>) { exists n :: 0 <= n < |spans| && spans[n].a <= a < spans[n].b }

  ghost predicate Covers(s: string, i: int, spans: seq<Span>) {
    forall a, k, b :: i <= a && Sought(s, a, k, b) ==> Within(a, spans)
  }

  /** Some of them, one after the other and from a place on, such that every
      parameter from there on begins in one of them. */
  ghost predicate Lists(s: string, i: int, spans: seq<Span>) {
    AllSought(s, i, spans) && Apart(spans) && Covers(s, i, spans)
  }

  /** The text from a place on, with these values replaced. */
  function Replaced(s: string, i: nat, spans: seq<Span>): string
    requires i <= |s|
    decreases |spans|
  {
    if spans == [] then s[i..]
    else if i <= spans[0].k <= spans[0].b <= |s| then s[i..spans[0].k] + "[REDACTED]" + Replaced(s, spans[0].b, spans[1..])
    else ""
  }

  lemma SoughtIs(s: string, sp: Span)
    ensures Sought(s, sp.a, sp.k, sp.b) <==> Greedy(s, sp, SENSITIVE)
  {
    hide SENSITIVE, IsOpening, IsSecret, IsHeader, IsValue, Ends;
    if sp.a <= sp.k <= sp.b <= |s| {
      OpeningIs(s[sp.a..sp.k]);
      SecretIs(s[sp.k..sp.b]);
      if sp.b < |s| { StopsAre(s[sp.b]); }
    }
  }

  /** Such a list is what the expression's leftmost greedy matching asks. */
  lemma {:induction false} ListsIsLeftmost(s: string, i: nat, spans: seq<Span>)
    requires i <= |s| && Lists(s, i, spans)
    ensures Leftmost(s, i, spans, SENSITIVE) && Splice(s, i, spans, SENSITIVE) == Replaced(s, i, spans)
    decreases |spans|
  {
    hide SENSITIVE, Sought, Greedy, InLanguage, WellFormed, Within;
    MaskIs();
    SilentBefore(s, i, spans);
    if spans != [] {
      var sp := spans[0];
      SoughtFits(s, sp);
      SoughtIs(s, sp);
      ListsTail(s, i, spans);
      ListsIsLeftmost(s, sp.b, spans[1..]);
    }
  }

  lemma SilentBefore(s: string, i: nat, spans: seq<Span>)
    requires Lists(s, i, spans)
    ensures Silent(s, i, if spans == [] then |s| + 1 else spans[0].a, SENSITIVE)
  {
    hide SENSITIVE, Sought, InLanguage, Lists;
    forall k: nat, b: nat | i <= k && (spans == [] || k < spans[0].a) ensures !InLanguage(s, k, b, SENSITIVE) { NotCovered(s, i, spans, k, b); }
  }

  lemma SoughtFits(s: string, sp: Span)
    requires Sought(s, sp.a, sp.k, sp.b)
    ensures sp.a < sp.k < sp.b <= |s|
  {
  }

  lemma ListsTail(s: string, i: nat, spans: seq<Span>)
    requires Lists(s, i, spans) && spans != [] && i <= spans[0].b
    ensures Lists(s, spans[0].b, spans[1..])
  {
    hide AllSought, Apart, Covers;
    SpansTail(s, i, spans);
    CoversTail(s, i, spans);
  }

  lemma SpansTail(s: string, i: nat, spans: seq<Span>)
    requires AllSought(s, i, spans) && Apart(spans) && spans != []
    ensures AllSought(s, spans[0].b, spans[1..]) && Apart(spans[1..])
  {
    hide Sought;
    assert forall n :: 0 <= n < |spans[1..]| ==> spans[1..][n] == spans[n + 1];
  }

  lemma CoversTail(s: string, i: nat, spans: seq<Span>)
    requires Covers(s, i, spans) && spans != [] && i <= spans[0].b
    ensures Covers(s, spans[0].b, spans[1..])
  {
    hide Sought, Within;
    forall a, k, b | spans[0].b <= a && Sought(s, a, k, b) ensures Within(a, spans[1..]) { WithinTail(a, spans); }
  }

  lemma WithinTail(a: int, spans: seq<Span>)
    requires Within(a, spans) && spans != [] && spans[0].b <= a
    ensures Within(a, spans[1..])
  {
    var n :| 0 <= n < |spans| && spans[n].a <= a < spans[n].b;
    assert n > 0 && spans[1..][n - 1] == spans[n];
  }

  lemma NotWithin(a: int, spans: seq<Span>)
    requires Apart(spans) && (forall n :: 0 <= n < |spans| ==> spans[n].a < spans[n].b) && (spans != [] ==> a < spans[0].a)
    ensures !Within(a, spans)
  {
    forall n | 0 <= n < |spans| ensures a < spans[n].a { if n > 0 { assert spans[0].b <= spans[n].a; } }
  }

  /** A member of the language before the first listed parameter would be a
      parameter that is not covered. */
  lemma NotCovered(s: string, i: nat, spans: seq<Span>, k: nat, b: nat)
    requires Lists(s, i, spans) && i <= k && (spans == [] || k < spans[0].a)
    ensures !InLanguage(s, k, b, SENSITIVE)
  {
    hide SENSITIVE, Sought, Match, InLanguage, Greedy, Within;
    if InLanguage(s, k, b, SENSITIVE) {
      SensitiveIsWellFormed();
      LanguageFits(s, k, b);
      LanguageMatches(s, k, b, SENSITIVE);
      var sp := SilentOrMatch(s, k, SENSITIVE);
      SoughtIs(s, sp);
      forall n | 0 <= n < |spans| ensures spans[n].a < spans[n].b { SoughtFits(s, spans[n]); }
      NotWithin(sp.a, spans);
    }
  }

  lemma LanguageFits(s: string, k: nat, b: nat)
    requires InLanguage(s, k, b, SENSITIVE)
    ensures k <= |s|
  {
  }

  /** Any list of the sensitive parameters of a text, none overlapping and every
      parameter beginning in one, gives the redacted text: their values are
      replaced, and nothing else changes. */
  lemma RedactReplaces(s: string, spans: seq<Span>)
    requires Lists(s, 0, spans)
    ensures RedactSensitive(s) == Replaced(s, 0, spans)
  {
    hide SENSITIVE, Lists, Leftmost, Splice, Replaced, Redact, WellFormed;
    SensitiveIsWellFormed();
    ListsIsLeftmost(s, 0, spans);
    ScanIsSubstitution(s, 0, spans, SENSITIVE);
    ScanIsRedact(s, 0, SENSITIVE);
    assert s[0..] == s;
  }

  /** And there always is such a list. */
  lemma ListExists(s: string) returns (spans: seq<Span>)
    ensures Lists(s, 0, spans)
  {
    hide SENSITIVE, Leftmost, Lists, WellFormed;
    SensitiveIsWellFormed();
    spans := SubstitutionExists(s, 0, SENSITIVE);
    LeftmostLists(s, 0, spans);
  }

  lemma {:induction false} LeftmostLists(s: string, i: nat, spans: seq<Span>)
    requires Leftmost(s, i, spans, SENSITIVE)
    ensures Lists(s, i, spans)
    decreases |spans|
  {
    hide SENSITIVE, Sought, Greedy, Silent, Within, Lists;
    if spans == [] {
      NothingListed(s, i);
    } else {
      var sp := spans[0];
      SoughtIs(s, sp);
      SoughtFits(s, sp);
      LeftmostLists(s, sp.b, spans[1..]);
      OneMoreListed(s, i, spans);
    }
  }

  lemma NothingListed(s: string, i: nat)
    requires i <= |s| && Silent(s, i, |s| + 1, SENSITIVE)
    ensures Lists(s, i, [])
  {
    hide SENSITIVE, Sought, InLanguage;
    forall a, k, b | i <= a ensures !Sought(s, a, k, b) {
      if Sought(s, a, k, b) { SoughtInLanguage(s, a, k, b); }
    }
  }

  lemma OneMoreListed(s: string, i: nat, spans: seq<Span>)
    requires spans != [] && i <= spans[0].a < spans[0].b && Silent(s, i, spans[0].a, SENSITIVE)
    requires Sought(s, spans[0].a, spans[0].k, spans[0].b) && Lists(s, spans[0].b, spans[1..])
    ensures Lists(s, i, spans)
  {
    hide SENSITIVE, Sought, InLanguage, Within;
    var sp, rest := spans[0], spans[1..];
    forall n | 0 < n < |spans| ensures spans[n] == rest[n - 1] && sp.b <= spans[n].a && Sought(s, spans[n].a, spans[n].k, spans[n].b) { }
    forall n, m | 0 <= n < m < |spans| ensures spans[n].b <= spans[m].a {
      if n > 0 { assert rest[n - 1].b <= rest[m - 1].a; }
    }
    forall a, k, b | i <= a && Sought(s, a, k, b) ensures Within(a, spans) {
      SoughtInLanguage(s, a, k, b);
      if a >= sp.b { WithinMore(a, spans); } else { WithinFirst(a, spans); }
    }
  }

  lemma WithinMore(a: int, spans: seq<Span>)
    requires spans != [] && Within(a, spans[1..])
    ensures Within(a, spans)
  {
    var n :| 0 <= n < |spans[1..]| && spans[1..][n].a <= a < spans[1..][n].b;
    assert spans[n + 1] == spans[1..][n];
  }

  lemma WithinFirst(a: int, spans: seq<Span>)
    requires spans != [] && spans[0].a <= a < spans[0].b
    ensures Within(a, spans)
  {
  }

  lemma SoughtInLanguage(s: string, a: int, k: int, b: int)
    requires Sought(s, a, k, b)
    ensures 0 <= a < b <= |s| && InLanguage(s, a, b, SENSITIVE)
  {
    hide SENSITIVE, IsName;
    assert a < k < b;
    OpeningIs(s[a..k]);
    SecretIs(s[k..b]);
  }

  // ---------------------------------------------------------------- log records

  ghost predicate HasSecret(s: string) { exists a, k, b :: Sought(s, a, k, b) }

  lemma LeakIs(s: string)
    ensures Leaks(s) <==> HasSecret(s)
  {
    hide SENSITIVE, Sought, Match, Greedy, InLanguage;
    SensitiveIsWellFormed();
    if i :| 0 <= i <= |s| && Match(s[i..], SENSITIVE).1 > 0 {
      var sp := SilentOrMatch(s, i, SENSITIVE);
      SoughtIs(s, sp);
    }
    if a, k, b :| Sought(s, a, k, b) {
      SoughtInLanguage(s, a, k, b);
      LanguageMatches(s, a, b, SENSITIVE);
    }
  }

  /** An argument that is text is redacted; an object is replaced by its redacted
      text if that holds a secret, and is the object itself otherwise. */
  lemma ArgumentIs(v: Value)
    ensures RedactArg(v) ==
      if v.Str? then Str(RedactSensitive(v.text))
      else if HasSecret(v.rendered) then Str(RedactSensitive(v.rendered))
      else v
  {
    hide HasSecret, Leaks, RedactSensitive;
    if v.Obj? { LeakIs(v.rendered); }
  }

  /** A record keeps the number and the names of its arguments, each is redacted
      as above, and of the message only text is. */
  lemma RecordIs(m: Value, a: Args)
    ensures RedactMsg(m) == if m.Str? then Str(RedactSensitive(m.text)) else m
    ensures var b := RedactArgs(a);
      && (a.Positional? ==> b.Positional? && |b.values| == |a.values| && forall i :: 0 <= i < |a.values| ==> b.values[i] == RedactArg(a.values[i]))
      && (a.Named? ==> b.Named? && b.entries.Keys == a.entries.Keys && forall k :: k in a.entries ==> b.entries[k] == RedactArg(a.entries[k]))
      && (a.Other? ==> b.Other?)
  {
    hide RedactArg, RedactSensitive;
  }
}
