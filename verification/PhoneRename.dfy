/** Re-normalising phones: an insertion-ordered map of identifier changes, and
    one in-place UPDATE per entry over two tables. */
module PhoneRename {
  import opened Common

  // ------------------------------------------------------------------ entries

  /** An item of identifier_map, in insertion order. */
  datatype Entry = Entry(project: int, was: string, now: string)

  predicate SameKey(a: Entry, project: int, was: string) { a.project == project && a.was == was }

  /** dict assignment: a new key goes last, a known one keeps its place. */
  function Assign(entries: seq<Entry>, e: Entry): seq<Entry> {
    if entries == [] then [e]
    else if SameKey(entries[0], e.project, e.was) then [e] + entries[1..]
    else [entries[0]] + Assign(entries[1..], e)
  }

  ghost predicate DistinctKeys(entries: seq<Entry>) {
    forall i, j :: 0 <= i < j < |entries| ==> (entries[i].project, entries[i].was) != (entries[j].project, entries[j].was)
  }

  ghost predicate RealChanges(entries: seq<Entry>) { forall e :: e in entries ==> e.was != e.now }

  /** dict.get. */
  function Get(entries: seq<Entry>, project: int, was: string): Option<string> {
    if entries == [] then None
    else if SameKey(entries[0], project, was) then Some(entries[0].now)
    else Get(entries[1..], project, was)
  }

  lemma {:induction false} AssignKeys(entries: seq<Entry>, e: Entry)
    ensures forall x :: x in Assign(entries, e) ==> x == e || x in entries
    ensures DistinctKeys(entries) ==> DistinctKeys(Assign(entries, e))
    ensures forall p, o :: Get(Assign(entries, e), p, o) == if SameKey(e, p, o) then Some(e.now) else Get(entries, p, o)
  {
    if entries != [] && !SameKey(entries[0], e.project, e.was) {
      AssignKeys(entries[1..], e);
      if DistinctKeys(entries) {
        var tail := Assign(entries[1..], e);
        forall x | x in tail ensures (x.project, x.was) != (entries[0].project, entries[0].was) {
          if x in entries[1..] { var j :| 0 <= j < |entries[1..]| && entries[1..][j] == x; assert entries[j + 1] == x; }
        }
      }
    }
  }

  // --------------------------------------------------------------------- rows

  /** A row of either table: the project whose renames can touch it, if any,
      and its identifier. */
  datatype Row = Row(scope: Option<int>, identifier: string)

  predicate Matches(r: Row, e: Entry) { r.scope == Some(e.project) && r.identifier == e.was }

  function RenameRow(r: Row, e: Entry): Row { if Matches(r, e) then r.(identifier := e.now) else r }

  /** One UPDATE statement. */
  function Rename(rows: seq<Row>, e: Entry): seq<Row> {
    seq(|rows|, k requires 0 <= k < |rows| => RenameRow(rows[k], e))
  }

  function RenameAll(rows: seq<Row>, entries: seq<Entry>): seq<Row> {
    if entries == [] then rows else Rename(RenameAll(rows, Front(entries)), Last(entries))
  }

  /** What the loop does to one row, and how often it hits it. */
  function Final(r: Row, entries: seq<Entry>): Row {
    if entries == [] then r else RenameRow(Final(r, Front(entries)), Last(entries))
  }

  function Hops(r: Row, entries: seq<Entry>): nat {
    if entries == [] then 0 else Hops(r, Front(entries)) + if Matches(Final(r, Front(entries)), Last(entries)) then 1 else 0
  }

  /** The substitution all entries describe at once. */
  function Substitute(r: Row, entries: seq<Entry>): Row {
    if r.scope.None? then r
    else
      var found := Get(entries, r.scope.value, r.identifier);
      if found.Some? then r.(identifier := found.value) else r
  }

  function SubstituteAll(rows: seq<Row>, entries: seq<Entry>): seq<Row> {
    seq(|rows|, k requires 0 <= k < |rows| => Substitute(rows[k], entries))
  }

  lemma {:induction false} RenameAllIsFinal(rows: seq<Row>, entries: seq<Entry>)
    ensures |RenameAll(rows, entries)| == |rows|
    ensures forall k :: 0 <= k < |rows| ==> RenameAll(rows, entries)[k] == Final(rows[k], entries)
  {
    if entries != [] { RenameAllIsFinal(rows, Front(entries)); }
  }

  /** The later of two entries renames what the earlier one produces. */
  predicate Chains(entries: seq<Entry>, i: int, j: int) {
    0 <= i < j < |entries| && entries[i].project == entries[j].project && entries[i].now == entries[j].was
  }

  ghost predicate HasChain(entries: seq<Entry>) { exists i, j :: Chains(entries, i, j) }

  lemma {:induction false} GetAt(entries: seq<Entry>, project: int, was: string)
    requires DistinctKeys(entries)
    ensures Get(entries, project, was).None? <==> forall e :: e in entries ==> !SameKey(e, project, was)
    ensures forall e :: e in entries && SameKey(e, project, was) ==> Get(entries, project, was) == Some(e.now)
  {
    if entries != [] {
      assert entries == [entries[0]] + entries[1..];
      assert forall e :: e in entries[1..] ==> !SameKey(e, entries[0].project, entries[0].was);
      GetAt(entries[1..], project, was);
    }
  }

  /** Until its entry comes, a row is untouched; from then on it is on the
      entry's new identifier until a later entry starts from there. */
  lemma {:induction false} Course(r: Row, entries: seq<Entry>, i: nat)
    requires DistinctKeys(entries) && i < |entries| && Matches(r, entries[i])
    requires forall j :: !Chains(entries, i, j)
    ensures Final(r, entries) == r.(identifier := entries[i].now) && Hops(r, entries) == 1
  {
    var front, n := Front(entries), |entries|;
    if i == n - 1 {
      Untouched(r, front);
    } else {
      assert forall j :: Chains(front, i, j) ==> Chains(entries, i, j);
      Course(r, front, i);
      assert !Chains(entries, i, n - 1);
    }
  }

  lemma {:induction false} Untouched(r: Row, entries: seq<Entry>)
    requires forall e :: e in entries ==> !Matches(r, e)
    ensures Final(r, entries) == r && Hops(r, entries) == 0
  {
    if entries != [] {
      assert forall e :: e in Front(entries) ==> e in entries;
      assert Last(entries) in entries;
      Untouched(r, Front(entries));
    }
  }

  /** A row that no chain starts from is renamed as by the substitution. */
  lemma Unchained(r: Row, entries: seq<Entry>)
    requires DistinctKeys(entries)
    requires forall i, j :: Chains(entries, i, j) ==> !Matches(r, entries[i])
    ensures Final(r, entries) == Substitute(r, entries)
    ensures Hops(r, entries) == if Substitute(r, entries) == r && (forall e :: e in entries ==> !Matches(r, e)) then 0 else 1
  {
    if e :| e in entries && Matches(r, e) {
      var i :| 0 <= i < |entries| && entries[i] == e;
      Course(r, entries, i);
      GetAt(entries, e.project, e.was);
    } else {
      Untouched(r, entries);
      if r.scope.Some? { GetAt(entries, r.scope.value, r.identifier); }
    }
  }

  lemma {:induction false} HopsGrow(r: Row, entries: seq<Entry>, k: nat)
    requires k <= |entries|
    ensures Hops(r, entries[..k]) <= Hops(r, entries)
  {
    if k == |entries| {
      assert entries[..k] == entries;
    } else {
      assert Front(entries)[..k] == entries[..k];
      HopsGrow(r, Front(entries), k);
    }
  }

  /** A row at the start of a chain is hit at least twice. */
  lemma Chained(r: Row, entries: seq<Entry>, i: int, j: int)
    requires DistinctKeys(entries) && Chains(entries, i, j) && Matches(r, entries[i])
    ensures Hops(r, entries) >= 2
    ensures Final(r, entries[..j]) == r.(identifier := entries[i].now)
  {
    var before := entries[..j];
    assert forall k :: i < k < j ==> (entries[k].project, entries[k].was) != (entries[j].project, entries[j].was);
    Course(r, before, i);
    FrontOfPrefix(entries, j);
    HopsGrow(r, entries, j + 1);
  }

  /** Renaming one after another is the simultaneous substitution, on every
      table, if and only if no entry starts where an earlier one of the same
      project ends. */
  lemma SequentialIsSimultaneousIff(entries: seq<Entry>)
    requires DistinctKeys(entries) && RealChanges(entries)
    ensures (forall rows :: RenameAll(rows, entries) == SubstituteAll(rows, entries)) <==> !HasChain(entries)
  {
    if !HasChain(entries) {
      forall rows ensures RenameAll(rows, entries) == SubstituteAll(rows, entries) {
        RenameAllIsFinal(rows, entries);
        forall k | 0 <= k < |rows| ensures RenameAll(rows, entries)[k] == SubstituteAll(rows, entries)[k] {
          Unchained(rows[k], entries);
        }
      }
    } else {
      var i, j := LastChain(entries);
      var r := Row(Some(entries[i].project), entries[i].was);
      ChainDiffers(r, entries, i, j);
      RenameAllIsFinal([r], entries);
      assert RenameAll([r], entries)[0] != SubstituteAll([r], entries)[0];
    }
  }

  /** A chain whose end nothing continues. */
  lemma LastChain(entries: seq<Entry>) returns (i: int, j: int)
    requires HasChain(entries)
    ensures Chains(entries, i, j) && forall k :: !Chains(entries, j, k)
  {
    i, j :| Chains(entries, i, j);
    while exists k :: Chains(entries, j, k)
      invariant Chains(entries, i, j)
      decreases |entries| - j
    {
      var k :| Chains(entries, j, k);
      i, j := j, k;
    }
  }

  lemma ChainDiffers(r: Row, entries: seq<Entry>, i: int, j: int)
    requires DistinctKeys(entries) && RealChanges(entries) && Chains(entries, i, j) && forall k :: !Chains(entries, j, k)
    requires r == Row(Some(entries[i].project), entries[i].was)
    ensures Final(r, entries) != Substitute(r, entries)
  {
    Chained(r, entries, i, j);
    var at := r.(identifier := entries[i].now);
    FinalFrom(r, entries, j);
    Course(at, entries, j);
    FinalFrom(at, entries, j);
    BeforeItsEntry(at, entries, j);
    GetAt(entries, r.scope.value, r.identifier);
    assert entries[i] in entries && SameKey(entries[i], r.scope.value, r.identifier);
    assert entries[j] in entries;
  }

  lemma BeforeItsEntry(r: Row, entries: seq<Entry>, j: nat)
    requires DistinctKeys(entries) && j < |entries| && Matches(r, entries[j])
    ensures Final(r, entries[..j]) == r
  {
    Untouched(r, entries[..j]);
  }

  /** The rest of a run depends only on where the row stands. */
  lemma {:induction false} FinalFrom(r: Row, entries: seq<Entry>, j: nat)
    requires j <= |entries|
    ensures Final(r, entries) == Final(Final(r, entries[..j]), entries[j..])
  {
    if j == |entries| {
      assert entries[..j] == entries && entries[j..] == [];
    } else {
      assert Front(entries)[..j] == entries[..j] && Front(entries[j..]) == Front(entries)[j..] && Last(entries[j..]) == Last(entries);
      FinalFrom(r, Front(entries), j);
    }
  }

  // ------------------------------------------------------------------- counts

  function MatchesEntry(e: Entry): Row -> bool { (r: Row) => Matches(r, e) }

  /** Rows one statement touches: rowcount, or the dry run's SELECT COUNT. */
  function CountOf(rows: seq<Row>, e: Entry): nat { |Where(rows, MatchesEntry(e))| }

  /** The applied total: each entry counts in the table the earlier ones left. */
  function ApplyCount(rows: seq<Row>, entries: seq<Entry>): nat {
    if entries == [] then 0 else ApplyCount(rows, Front(entries)) + CountOf(RenameAll(rows, Front(entries)), Last(entries))
  }

  /** The dry run's total: each entry counts in the table as it is. */
  function DryCount(rows: seq<Row>, entries: seq<Entry>): nat {
    if entries == [] then 0 else DryCount(rows, Front(entries)) + CountOf(rows, Last(entries))
  }

  function TotalHops(rows: seq<Row>, entries: seq<Entry>): nat {
    if rows == [] then 0 else Hops(rows[0], entries) + TotalHops(rows[1..], entries)
  }

  predicate Hit(r: Row, entries: seq<Entry>) { exists e :: e in entries && Matches(r, e) }

  function TotalHit(rows: seq<Row>, entries: seq<Entry>): nat {
    if rows == [] then 0 else (if Hit(rows[0], entries) then 1 else 0) + TotalHit(rows[1..], entries)
  }

  lemma {:induction false} HopsSnoc(rows: seq<Row>, entries: seq<Entry>)
    requires entries != []
    ensures TotalHops(rows, entries) == TotalHops(rows, Front(entries)) + CountOf(RenameAll(rows, Front(entries)), Last(entries))
  {
    RenameAllIsFinal(rows, Front(entries));
    if rows == [] {
      assert RenameAll(rows, Front(entries)) == [];
    } else {
      var renamed := RenameAll(rows, Front(entries));
      RenameAllIsFinal(rows[1..], Front(entries));
      assert renamed[1..] == RenameAll(rows[1..], Front(entries));
      HopsSnoc(rows[1..], entries);
    }
  }

  lemma {:induction false} NoEntries(rows: seq<Row>)
    ensures TotalHops(rows, []) == 0 && TotalHit(rows, []) == 0
  {
    if rows != [] { NoEntries(rows[1..]); }
  }

  lemma {:induction false} ApplyIsHops(rows: seq<Row>, entries: seq<Entry>)
    ensures ApplyCount(rows, entries) == TotalHops(rows, entries)
  {
    if entries == [] {
      NoEntries(rows);
    } else {
      ApplyIsHops(rows, Front(entries));
      HopsSnoc(rows, entries);
    }
  }

  lemma {:induction false} HitSnoc(rows: seq<Row>, entries: seq<Entry>)
    requires entries != [] && DistinctKeys(entries)
    ensures TotalHit(rows, entries) == TotalHit(rows, Front(entries)) + CountOf(rows, Last(entries))
  {
    if rows != [] {
      HitSnoc(rows[1..], entries);
      HitOnce(rows[0], entries);
    }
  }

  lemma HitOnce(r: Row, entries: seq<Entry>)
    requires entries != [] && DistinctKeys(entries)
    ensures Hit(r, entries) <==> Hit(r, Front(entries)) || Matches(r, Last(entries))
    ensures !(Hit(r, Front(entries)) && Matches(r, Last(entries)))
  {
    assert forall e :: e in entries <==> e in Front(entries) || e == Last(entries);
    forall e | e in Front(entries) ensures (e.project, e.was) != (Last(entries).project, Last(entries).was) {
      var i :| 0 <= i < |entries| - 1 && entries[i] == e;
    }
  }

  lemma {:induction false} DryIsHit(rows: seq<Row>, entries: seq<Entry>)
    requires DistinctKeys(entries)
    ensures DryCount(rows, entries) == TotalHit(rows, entries)
  {
    if entries == [] {
      NoEntries(rows);
    } else {
      DryIsHit(rows, Front(entries));
      HitSnoc(rows, entries);
    }
  }

  /** The row stands at the start of a chain. */
  ghost predicate OnChain(r: Row, entries: seq<Entry>) { exists i, j :: Chains(entries, i, j) && Matches(r, entries[i]) }

  lemma RowCount(r: Row, entries: seq<Entry>)
    requires DistinctKeys(entries)
    ensures OnChain(r, entries) ==> Hit(r, entries) && Hops(r, entries) >= 2
    ensures !OnChain(r, entries) ==> Hops(r, entries) == if Hit(r, entries) then 1 else 0
  {
    if i, j :| Chains(entries, i, j) && Matches(r, entries[i]) {
      Chained(r, entries, i, j);
      assert entries[i] in entries;
    } else if Hit(r, entries) {
      var e :| e in entries && Matches(r, e);
      var i :| 0 <= i < |entries| && entries[i] == e;
      Course(r, entries, i);
    } else {
      Untouched(r, entries);
    }
  }

  /** The dry run never announces more than is done, and announces exactly what
      is done if and only if no row stands at the start of a chain. */
  lemma CountsAgreeIff(rows: seq<Row>, entries: seq<Entry>)
    requires DistinctKeys(entries)
    ensures DryCount(rows, entries) <= ApplyCount(rows, entries)
    ensures DryCount(rows, entries) == ApplyCount(rows, entries) <==> forall r :: r in rows ==> !OnChain(r, entries)
  {
    ApplyIsHops(rows, entries);
    DryIsHit(rows, entries);
    TotalsAgreeIff(rows, entries);
  }

  lemma {:induction false} TotalsAgreeIff(rows: seq<Row>, entries: seq<Entry>)
    requires DistinctKeys(entries)
    ensures TotalHit(rows, entries) <= TotalHops(rows, entries)
    ensures TotalHit(rows, entries) == TotalHops(rows, entries) <==> forall r :: r in rows ==> !OnChain(r, entries)
  {
    hide OnChain, Hops, Hit;
    if rows != [] {
      RowCount(rows[0], entries);
      TotalsAgreeIff(rows[1..], entries);
      assert rows == [rows[0]] + rows[1..];
    }
  }

  // -------------------------------------------------------------------- users

  datatype User = User(id: int, project: int, phone: Option<string>, e164: Option<string>, status: Option<string>)

  datatype WhatsApp = WhatsApp(workspace: int, active: bool, country: Option<string>)

  /** PhoneNormalizer.normalize, given a raw phone and a fallback country code. */
  type Normalizer = (string, Option<string>) -> (Option<string>, Option<string>)

  datatype Context = Context(workspaces: map<int, int>, instances: seq<WhatsApp>, normalize: Normalizer)

  /** The project's first active instance with a country code. */
  function Fallback(c: Context, project: int): Option<string> {
    if project !in c.workspaces then None
    else
      var found := First(c.instances, (w: WhatsApp) => w.workspace == c.workspaces[project] && w.active && w.country.Some?);
      if found.Some? then found.value.country else None
  }

  predicate Selected(u: User) { u.phone.Some? && u.phone.value != "" }

  function Renormalized(c: Context, u: User): User
    requires Selected(u)
  {
    var (e164, status) := c.normalize(u.phone.value, Fallback(c, u.project));
    u.(e164 := e164, status := status)
  }

  function Truthy(t: Option<string>): bool { t.Some? && t.value != "" }

  /** The identifier change a user contributes, if any. */
  function Change(c: Context, u: User): Option<Entry> {
    if !Selected(u) then None
    else
      var now := Renormalized(c, u).e164;
      if Truthy(u.e164) && Truthy(now) && u.e164 != now then Some(Entry(u.project, u.e164.value, now.value)) else None
  }

  function Collect(c: Context, users: seq<User>): seq<Entry> {
    if users == [] then []
    else
      var before, change := Collect(c, Front(users)), Change(c, Last(users));
      if change.Some? then Assign(before, change.value) else before
  }

  function Fix(c: Context, u: User): User { if Selected(u) then Renormalized(c, u) else u }

  function FixAll(c: Context, users: seq<User>): seq<User> {
    seq(|users|, k requires 0 <= k < |users| => Fix(c, users[k]))
  }

  function NeedsFix(c: Context): User -> bool { (u: User) => Selected(u) && Renormalized(c, u) != u }

  function IsSelected(): User -> bool { (u: User) => Selected(u) }

  /** The last user's change for a project and an old number. */
  function LastChange(c: Context, users: seq<User>, project: int, was: string): Option<string> {
    if users == [] then None
    else
      var change := Change(c, Last(users));
      if change.Some? && SameKey(change.value, project, was) then Some(change.value.now)
      else LastChange(c, Front(users), project, was)
  }

  /** The collected entries have distinct keys, change something, and give each
      key what its last user gave it. */
  lemma {:induction false} CollectFacts(c: Context, users: seq<User>)
    ensures DistinctKeys(Collect(c, users)) && RealChanges(Collect(c, users))
    ensures forall p, o :: Get(Collect(c, users), p, o) == LastChange(c, users, p, o)
  {
    if users != [] {
      CollectFacts(c, Front(users));
      var change := Change(c, Last(users));
      if change.Some? { AssignKeys(Collect(c, Front(users)), change.value); }
    }
  }

  /** After an apply, a second apply skips every user and renames nothing. */
  lemma SecondApply(c: Context, users: seq<User>)
    ensures forall u :: u in FixAll(c, users) ==> !NeedsFix(c)(u)
    ensures Collect(c, FixAll(c, users)) == [] && FixAll(c, FixAll(c, users)) == FixAll(c, users)
  {
    NothingToCollect(c, FixAll(c, users));
  }

  lemma {:induction false} NothingToCollect(c: Context, users: seq<User>)
    requires forall u :: u in users ==> !NeedsFix(c)(u)
    ensures Collect(c, users) == []
  {
    if users != [] {
      assert forall u :: u in Front(users) ==> u in users;
      assert Last(users) in users;
      NothingToCollect(c, Front(users));
    }
  }

  lemma NoChange(c: Context, u: User)
    requires !Selected(u)
    ensures Change(c, u).None?
  {
  }

  /** The loop of both patching phases: a statement and its row count per entry,
      or only the count. */
  method Patch(rows: seq<Row>, entries: seq<Entry>, apply: bool) returns (after: seq<Row>, patched: nat)
    ensures after == if apply then RenameAll(rows, entries) else rows
    ensures patched == if apply then ApplyCount(rows, entries) else DryCount(rows, entries)
  {
    after, patched := rows, 0;
    for k := 0 to |entries|
      invariant after == if apply then RenameAll(rows, entries[..k]) else rows
      invariant patched == if apply then ApplyCount(rows, entries[..k]) else DryCount(rows, entries[..k])
    {
      FrontOfPrefix(entries, k);
      patched := patched + CountOf(after, entries[k]);
      if apply {
        after := Rename(after, entries[k]);
      }
    }
    assert entries[..|entries|] == entries;
  }

  // ------------------------------------------------------------------- script

  class Script {
    const context: Context
    var users: seq<User>
    var routing: seq<Row>
    /** A session's scope is its chatbot's project, on channel whatsapp only. */
    var sessions: seq<Row>

    constructor (context: Context, users: seq<User>, routing: seq<Row>, sessions: seq<Row>)
      ensures this.context == context && this.users == users && this.routing == routing && this.sessions == sessions
    {
      this.context := context;
      this.users, this.routing, this.sessions := users, routing, sessions;
    }

    /** The cached look-up of a project's country code. */
    method FallbackFor(project: int, cache: map<int, Option<string>>) returns (country: Option<string>, cache': map<int, Option<string>>)
      requires forall p :: p in cache ==> cache[p] == Fallback(context, p)
      ensures country == Fallback(context, project)
      ensures forall p :: p in cache' ==> cache'[p] == Fallback(context, p)
    {
      if project in cache {
        return cache[project], cache;
      }
      country := Fallback(context, project);
      cache' := cache[project := country];
    }

    /** One user of phase 1: its new values, whether they differ, and the
        identifier change to record. */
    method Inspect(user: User, cache: map<int, Option<string>>) returns (fixed: User, change: Option<Entry>, cache': map<int, Option<string>>)
      requires Selected(user) && forall p :: p in cache ==> cache[p] == Fallback(context, p)
      ensures fixed == Renormalized(context, user) && change == Change(context, user)
      ensures forall p :: p in cache' ==> cache'[p] == Fallback(context, p)
    {
      var country;
      country, cache' := FallbackFor(user.project, cache);
      var (e164, status) := context.normalize(user.phone.value, country);
      fixed, change := user.(e164 := e164, status := status), None;
      if fixed != user && Truthy(user.e164) && Truthy(e164) && user.e164 != e164 {
        change := Some(Entry(user.project, user.e164.value, e164.value));
      }
    }

    /** Phase 1. */
    method RenormalizeUsers(apply: bool) returns (entries: seq<Entry>, changed: nat, skipped: nat)
      modifies this`users
      ensures entries == Collect(context, old(users))
      ensures users == if apply then FixAll(context, old(users)) else old(users)
      ensures changed == |Where(old(users), NeedsFix(context))|
      ensures changed + skipped == |Where(old(users), IsSelected())|
    {
      hide Fallback, Change, Where;
      var cache: map<int, Option<string>> := map[];
      entries, changed, skipped := [], 0, 0;
      var all := users;
      CountNone(NeedsFix(context));
      CountNone(IsSelected());
      for k := 0 to |all|
        invariant |users| == |all|
        invariant forall j :: 0 <= j < |all| ==> users[j] == if apply && j < k then Fix(context, all[j]) else all[j]
        invariant entries == Collect(context, all[..k])
        invariant changed == |Where(all[..k], NeedsFix(context))|
        invariant changed + skipped == |Where(all[..k], IsSelected())|
        invariant forall p :: p in cache ==> cache[p] == Fallback(context, p)
      {
        FrontOfPrefix(all, k);
        CountNext(all, k, NeedsFix(context));
        CountNext(all, k, IsSelected());
        var user := all[k];
        if !Selected(user) {
          NoChange(context, user);
          continue;
        }
        var fixed, change;
        fixed, change, cache := Inspect(user, cache);
        if change.Some? {
          entries := Assign(entries, change.value);
        }
        if fixed == user {
          skipped := skipped + 1;
        } else {
          if apply {
            users := users[k := fixed];
          }
          changed := changed + 1;
        }
      }
      assert all[..|all|] == all;
    }

    /** Phase 2, over the routing states. */
    method PatchRouting(entries: seq<Entry>, apply: bool) returns (patched: nat)
      modifies this`routing
      ensures routing == if apply then RenameAll(old(routing), entries) else old(routing)
      ensures patched == if apply then ApplyCount(old(routing), entries) else DryCount(old(routing), entries)
    {
      routing, patched := Patch(routing, entries, apply);
    }

    /** Phase 3, over the chat sessions. */
    method PatchSessions(entries: seq<Entry>, apply: bool) returns (patched: nat)
      modifies this`sessions
      ensures sessions == if apply then RenameAll(old(sessions), entries) else old(sessions)
      ensures patched == if apply then ApplyCount(old(sessions), entries) else DryCount(old(sessions), entries)
    {
      sessions, patched := Patch(sessions, entries, apply);
    }

    /** The script: what it reports, dry or applied, and what it leaves. */
    method Renormalize(apply: bool) returns (changed: nat, routed: nat, chatted: nat)
      modifies this
      ensures !apply ==> users == old(users) && routing == old(routing) && sessions == old(sessions)
      ensures apply ==> users == FixAll(context, old(users))
      ensures var entries := Collect(context, old(users));
        && changed == |Where(old(users), NeedsFix(context))|
        && (apply ==> routing == RenameAll(old(routing), entries) && sessions == RenameAll(old(sessions), entries))
        && (apply && !HasChain(entries) ==>
              routing == SubstituteAll(old(routing), entries) && sessions == SubstituteAll(old(sessions), entries))
        && routed >= DryCount(old(routing), entries) && chatted >= DryCount(old(sessions), entries)
        && ((forall r :: r in old(routing) + old(sessions) ==> !OnChain(r, entries)) ==>
              routed == DryCount(old(routing), entries) && chatted == DryCount(old(sessions), entries))
    {
      hide Collect, RenameAll, ApplyCount, DryCount, OnChain, HasChain;
      var entries, fixed, skipped := RenormalizeUsers(apply);
      CollectFacts(context, old(users));
      CountsAgreeIff(routing, entries);
      CountsAgreeIff(sessions, entries);
      if !HasChain(entries) { SequentialIsSimultaneousIff(entries); }
      changed := fixed;
      routed := PatchRouting(entries, apply);
      chatted := PatchSessions(entries, apply);
    }
  }
}
