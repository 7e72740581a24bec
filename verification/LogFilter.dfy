/** SensitiveQueryFilter and its installation: a record passes through every
    filter of its logger and of its handlers, so it can be rewritten often. */
module LogFilter {
  import opened Redactor

  /** A value handed to logging: a string, or an object with its str(). */
  datatype Value = Str(text: string) | Obj(id: int, rendered: string) {
    function Rendering(): string { if Str? then text else rendered }
  }

  datatype Args = Positional(values: seq<Value>) | Named(entries: map<string, Value>) | Other

  predicate Leaks(s: string) { exists i :: 0 <= i <= |s| && Match(s[i..], SENSITIVE).1 > 0 }

  /** _redact_arg: an object is replaced by text only if its text matches. */
  function RedactArg(v: Value): Value {
    match v
    case Str(s) => Str(RedactSensitive(s))
    case Obj(_, s) => if Leaks(s) then Str(RedactSensitive(s)) else v
  }

  function RedactMsg(v: Value): Value {
    if v.Str? then Str(RedactSensitive(v.text)) else v
  }

  function RedactArgs(a: Args): Args {
    match a
    case Positional(vs) => Positional(seq(|vs|, i requires 0 <= i < |vs| => RedactArg(vs[i])))
    case Named(m) => Named(map k | k in m :: RedactArg(m[k]))
    case Other => Other
  }

  lemma SensitiveIdempotent(s: string)
    ensures RedactSensitive(RedactSensitive(s)) == RedactSensitive(s)
    ensures Clean(RedactSensitive(s), SENSITIVE)
  {
    hide Redact, Clean, WellFormed;
    SensitiveIsWellFormed();
    RedactIdempotent(s, SENSITIVE);
    RedactIsClean(s, SENSITIVE);
  }

  /** Text in which the expression matches nowhere is clean already. */
  lemma NoLeakIsClean(s: string)
    requires !Leaks(s)
    ensures Clean(s, SENSITIVE)
  {
    hide Match;
  }

  lemma ArgOnce(v: Value)
    ensures RedactArg(RedactArg(v)) == RedactArg(v)
    ensures Clean(RedactArg(v).Rendering(), SENSITIVE)
  {
    hide Leaks, RedactSensitive, Clean;
    SensitiveIdempotent(v.Rendering());
    if v.Obj? && !Leaks(v.rendered) { NoLeakIsClean(v.rendered); }
  }

  lemma ArgsOnce(a: Args)
    ensures RedactArgs(RedactArgs(a)) == RedactArgs(a)
  {
    hide RedactArg;
    forall v: Value ensures RedactArg(RedactArg(v)) == RedactArg(v) { ArgOnce(v); }
    match a
    case Positional(vs) =>
      assert RedactArgs(RedactArgs(a)).values == RedactArgs(a).values;
    case Named(m) =>
      assert RedactArgs(RedactArgs(a)).entries == RedactArgs(a).entries;
    case Other =>
  }

  class LogRecord {
    var msg: Value
    var args: Args

    constructor (m: Value, a: Args)
      ensures msg == m && args == a
    {
      msg, args := m, a;
    }

    /** One filter pass over the record. */
    method Filter() returns (keep: bool)
      modifies this
      ensures keep
      ensures msg == RedactMsg(old(msg)) && args == RedactArgs(old(args))
    {
      if msg.Str? {
        msg := Str(RedactSensitive(msg.text));
      }
      match args {
        case Named(m) => args := Named(map k | k in m :: RedactArg(m[k]));
        case Positional(vs) => args := Positional(seq(|vs|, i requires 0 <= i < |vs| => RedactArg(vs[i])));
        case Other =>
      }
      keep := true;
    }

    /** Any positive number of passes leaves what one pass leaves, and then no
        argument text holds a value; the message is safe too unless it is an
        object, which the filter never touches. */
    method Emit(passes: nat)
      requires passes > 0
      modifies this
      ensures msg == RedactMsg(old(msg)) && args == RedactArgs(old(args))
      ensures args.Positional? ==> forall i :: 0 <= i < |args.values| ==> Clean(args.values[i].Rendering(), SENSITIVE)
      ensures args.Named? ==> forall k :: k in args.entries ==> Clean(args.entries[k].Rendering(), SENSITIVE)
      ensures Clean(msg.Rendering(), SENSITIVE) <==> old(msg).Str? || Clean(old(msg).rendered, SENSITIVE)
    {
      hide RedactArg, RedactSensitive, Clean;
      ghost var m, a := msg, args;
      MsgOnce(m);
      ArgsOnce(a);
      forall v: Value ensures Clean(RedactArg(v).Rendering(), SENSITIVE) { ArgOnce(v); }
      for i := 0 to passes
        invariant msg == if i == 0 then m else RedactMsg(m)
        invariant args == if i == 0 then a else RedactArgs(a)
      {
        var _ := Filter();
      }
    }
  }

  lemma MsgOnce(v: Value)
    ensures RedactMsg(RedactMsg(v)) == RedactMsg(v)
    ensures Clean(RedactMsg(v).Rendering(), SENSITIVE) <==> v.Str? || Clean(v.rendered, SENSITIVE)
  {
    hide RedactSensitive, Clean;
    if v.Str? { SensitiveIdempotent(v.text); }
  }

  // -------------------------------------------------------------- installing

  /** logging.Filterer: a logger or a handler. */
  class Filterer {
    var filters: seq<int>

    constructor ()
      ensures filters == []
    {
      filters := [];
    }

    /** addFilter ignores a filter that is already attached. */
    method AddFilter(f: int)
      modifies this
      ensures filters == if f in old(filters) then old(filters) else old(filters) + [f]
    {
      if f !in filters {
        filters := filters + [f];
      }
    }
  }

  function Attached(filters: seq<int>, f: int): seq<int> {
    if f in filters then filters else filters + [f]
  }

  class Logger {
    const node: Filterer
    const handlers: seq<Filterer>

    constructor (n: Filterer, hs: seq<Filterer>)
      ensures node == n && handlers == hs
    {
      node, handlers := n, hs;
    }

    function Reached(): set<Filterer> { {node} + set h | h in handlers }
  }

  function ReachedBy(loggers: seq<Logger>): set<Filterer> {
    set l, h | l in loggers && h in l.Reached() :: h
  }

  lemma ReachedSnoc(loggers: seq<Logger>, i: nat)
    requires i < |loggers|
    ensures ReachedBy(loggers[..i + 1]) == ReachedBy(loggers[..i]) + loggers[i].Reached()
    ensures loggers[i].Reached() <= ReachedBy(loggers)
  {
    assert forall l :: l in loggers[..i + 1] <==> l in loggers[..i] || l == loggers[i];
  }

  /** The inner loop: the handlers of one logger. */
  method AttachTo(handlers: seq<Filterer>, f: int)
    modifies set h | h in handlers
    ensures forall h :: h in handlers ==> h.filters == Attached(old(h.filters), f)
  {
    for j := 0 to |handlers|
      invariant forall h :: h in handlers[..j] ==> h.filters == Attached(old(h.filters), f)
      invariant forall h :: h in handlers && h !in handlers[..j] ==> h.filters == old(h.filters)
    {
      handlers[j].AddFilter(f);
      assert forall h :: h in handlers[..j + 1] <==> h in handlers[..j] || h == handlers[j];
    }
    assert handlers[..|handlers|] == handlers;
  }

  method Reach(logger: Logger, f: int)
    modifies logger.Reached()
    ensures forall t :: t in logger.Reached() ==> t.filters == Attached(old(t.filters), f)
  {
    logger.node.AddFilter(f);
    AttachTo(logger.handlers, f);
  }

  /** install_sensitive_query_filter over the named loggers and the handlers
      each of them has at that moment. Loggers may share handlers: everything
      reached still gets the new filter exactly once and keeps its others. */
  method Install(loggers: seq<Logger>, f: int)
    modifies ReachedBy(loggers)
    ensures forall t :: t in ReachedBy(loggers) ==> t.filters == Attached(old(t.filters), f)
    ensures forall l, t :: l in loggers && (t == l.node || t in l.handlers) ==>
      t.filters == if f in old(t.filters) then old(t.filters) else old(t.filters) + [f]
  {
    ghost var all, done: set<Filterer> := ReachedBy(loggers), {};
    ghost var first := map t | t in all :: t.filters;
    for i := 0 to |loggers|
      invariant done == ReachedBy(loggers[..i]) <= all
      invariant Halfway(all, done, first, f)
    {
      hide Halfway;
      ReachedSnoc(loggers, i);
      ReachNext(loggers[i], f, all, done, first);
      done := done + loggers[i].Reached();
    }
    assert loggers[..|loggers|] == loggers;
    forall l, t | l in loggers && (t == l.node || t in l.handlers) ensures t in ReachedBy(loggers) { assert t in l.Reached(); }
  }

  /** Everything done carries the filter, everything else is as it was first. */
  ghost predicate Halfway(all: set<Filterer>, done: set<Filterer>, first: map<Filterer, seq<int>>, f: int)
    requires first.Keys == all
    reads all
  {
    forall t :: t in all ==> t.filters == if t in done then Attached(first[t], f) else first[t]
  }

  /** One logger and its handlers, some of which may be done already. */
  method ReachNext(logger: Logger, f: int, ghost all: set<Filterer>, ghost done: set<Filterer>, ghost first: map<Filterer, seq<int>>)
    requires first.Keys == all && logger.Reached() <= all && Halfway(all, done, first, f)
    modifies logger.Reached()
    ensures Halfway(all, done + logger.Reached(), first, f)
  {
    hide Attached;
    label before:
    Reach(logger, f);
    forall t | t in all ensures t.filters == if t in done + logger.Reached() then Attached(first[t], f) else first[t] {
      AttachedTwice(first[t], f);
      if t !in logger.Reached() { assert t.filters == old@before(t.filters); }
    }
  }

  /** Attaching again changes nothing. */
  lemma AttachedTwice(filters: seq<int>, f: int)
    ensures Attached(Attached(filters, f), f) == Attached(filters, f)
  {
  }
}
