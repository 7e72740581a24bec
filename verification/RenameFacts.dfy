/** What re-normalising does to users and rows, told in stored and new numbers. */
module RenameFacts {
  import opened Common
  import opened PhoneRename

  // -------------------------------------------------------------------- users

  /** An active instance of the project's workspace, with a country code. */
  ghost predicate Serves(c: Context, w: WhatsApp, project: int) {
    project in c.workspaces && w.workspace == c.workspaces[project] && w.active && w.country.Some?
  }

  ghost predicate FirstAt(c: Context, project: int, i: int) {
    0 <= i < |c.instances| && Serves(c, c.instances[i], project) && forall j :: 0 <= j < i ==> !Serves(c, c.instances[j], project)
  }

  /** The country code of the first such instance, if there is one. */
  ghost predicate IsCountry(c: Context, project: int, country: Option<string>) {
    && (country.Some? ==> exists i :: FirstAt(c, project, i) && c.instances[i].country == country)
    && (country.None? ==> forall i :: !FirstAt(c, project, i))
  }

  lemma {:induction false} FirstIs<T>(rows: seq<T>, test: T -> bool)
    ensures First(rows, test).Some? ==> exists i :: 0 <= i < |rows| && rows[i] == First(rows, test).value && test(rows[i]) && forall j :: 0 <= j < i ==> !test(rows[j])
  {
    if rows != [] && !test(rows[0]) {
      FirstIs(rows[1..], test);
      if First(rows, test).Some? {
        var i :| 0 <= i < |rows[1..]| && rows[1..][i] == First(rows, test).value && test(rows[1..][i]) && forall j :: 0 <= j < i ==> !test(rows[1..][j]);
        forall j | 0 <= j < i + 1 ensures !test(rows[j]) { if j > 0 { assert rows[j] == rows[1..][j - 1]; } }
        assert rows[i + 1] == rows[1..][i];
      }
    }
  }

  lemma CountryIs(c: Context, project: int, country: Option<string>)
    ensures IsCountry(c, project, country) <==> country == Fallback(c, project)
  {
    if project in c.workspaces {
      var test := (w: WhatsApp) => w.workspace == c.workspaces[project] && w.active && w.country.Some?;
      FirstIs(c.instances, test);
      var found := First(c.instances, test);
      if found.Some? {
        var i :| 0 <= i < |c.instances| && c.instances[i] == found.value && test(c.instances[i]) && forall j :: 0 <= j < i ==> !test(c.instances[j]);
        assert FirstAt(c, project, i);
        forall k | FirstAt(c, project, k) ensures k == i { assert k < i || i < k || k == i; }
      } else {
        forall k | 0 <= k < |c.instances| ensures !Serves(c, c.instances[k], project) { assert c.instances[k] in c.instances; }
      }
    }
  }

  /** The number and the status that the user's phone gives today. */
  ghost predicate Today(c: Context, u: User, number: Option<string>, status: Option<string>) {
    u.phone.Some? && u.phone.value != "" && exists country :: IsCountry(c, u.project, country) && c.normalize(u.phone.value, country) == (number, status)
  }

  /** A user with a phone gets the number and the status of today, another stays;
      nothing else of it changes. The changed and the skipped are told by that. */
  lemma FixedIs(c: Context, users: seq<User>, k: nat)
    requires k < |users|
    ensures var u, v := users[k], FixAll(c, users)[k];
      && |FixAll(c, users)| == |users| && v == u.(e164 := v.e164, status := v.status)
      && (if u.phone.Some? && u.phone.value != "" then Today(c, u, v.e164, v.status) else v == u)
  {
    CountryIs(c, users[k].project, Fallback(c, users[k].project));
  }

  lemma {:induction false} ChangedCount(c: Context, users: seq<User>)
    ensures |Where(users, NeedsFix(c))| == |set k | 0 <= k < |users| && FixAll(c, users)[k] != users[k]|
    ensures |Where(users, IsSelected())| == |Where(users, (u: User) => u.phone.Some? && u.phone.value != "")|
  {
    WhereExt(users, IsSelected(), (u: User) => u.phone.Some? && u.phone.value != "");
    ChangedAre(c, users, FixAll(c, users));
  }

  lemma {:induction false} ChangedAre(c: Context, users: seq<User>, after: seq<User>)
    requires |after| == |users| && forall k :: 0 <= k < |users| ==> after[k] == Fix(c, users[k])
    ensures |Where(users, NeedsFix(c))| == |set k | 0 <= k < |users| && after[k] != users[k]|
  {
    hide Fix, NeedsFix, Where;
    if users == [] {
      CountNone(NeedsFix(c));
    } else {
      var front, n := Front(users), |users|;
      ChangedAre(c, front, Front(after));
      WhereSnoc(users, NeedsFix(c));
      NeedsIs(c, Last(users));
      var before, all := set k | 0 <= k < n - 1 && Front(after)[k] != front[k], set k | 0 <= k < n && after[k] != users[k];
      assert all == if after[n - 1] != users[n - 1] then before + {n - 1} else before;
    }
  }

  lemma NeedsIs(c: Context, u: User)
    ensures NeedsFix(c)(u) <==> Fix(c, u) != u
  {
  }

  // ------------------------------------------------------------------ renames

  /** A user of the project has the one number stored and gets the other. */
  ghost predicate Moves(c: Context, u: User, project: int, was: string, now: string) {
    && u.project == project && u.e164 == Some(was) && was != "" && now != "" && was != now
    && exists status :: Today(c, u, Some(now), status)
  }

  lemma ChangeIs(c: Context, u: User, project: int, was: string, now: string)
    ensures Change(c, u) == Some(Entry(project, was, now)) <==> Moves(c, u, project, was, now)
  {
    forall country ensures IsCountry(c, u.project, country) <==> country == Fallback(c, u.project) { CountryIs(c, u.project, country); }
    if Change(c, u) == Some(Entry(project, was, now)) {
      var (e164, status) := c.normalize(u.phone.value, Fallback(c, u.project));
      assert Today(c, u, Some(now), status);
    }
  }

  ghost predicate LastAt(c: Context, users: seq<User>, project: int, was: string, now: string, k: int) {
    0 <= k < |users| && Moves(c, users[k], project, was, now) && forall j, other :: k < j < |users| ==> !Moves(c, users[j], project, was, other)
  }

  /** The last user of the project that had the old number got the new one. */
  ghost predicate Renumbered(c: Context, users: seq<User>, project: int, was: string, now: string) {
    exists k :: LastAt(c, users, project, was, now, k)
  }

  lemma {:induction false} LastChangeIs(c: Context, users: seq<User>, project: int, was: string, now: string)
    ensures LastChange(c, users, project, was) == Some(now) <==> Renumbered(c, users, project, was, now)
  {
    hide Change, Moves;
    if users != [] {
      var front, u, n := Front(users), Last(users), |users|;
      LastChangeIs(c, front, project, was, now);
      forall p, a, b ensures Change(c, u) == Some(Entry(p, a, b)) <==> Moves(c, u, p, a, b) { ChangeIs(c, u, p, a, b); }
      forall k | 0 <= k < n - 1 && (forall other :: !Moves(c, u, project, was, other))
        ensures LastAt(c, users, project, was, now, k) <==> LastAt(c, front, project, was, now, k)
      {
        LastAtFront(c, users, project, was, now, k);
      }
      if change :| Change(c, u) == Some(change) && SameKey(change, project, was) {
        assert Moves(c, u, project, was, change.now);
        if change.now == now { assert LastAt(c, users, project, was, now, n - 1); }
        assert forall k :: LastAt(c, users, project, was, now, k) ==> k == n - 1;
      } else {
        forall other ensures !Moves(c, u, project, was, other) { assert SameKey(Entry(project, was, other), project, was); }
        if Renumbered(c, users, project, was, now) {
          var k :| LastAt(c, users, project, was, now, k);
          assert k < n - 1 && LastAt(c, front, project, was, now, k);
        }
      }
    }
  }

  lemma LastAtFront(c: Context, users: seq<User>, project: int, was: string, now: string, k: int)
    requires users != [] && 0 <= k < |users| - 1 && forall other :: !Moves(c, Last(users), project, was, other)
    ensures LastAt(c, users, project, was, now, k) <==> LastAt(c, Front(users), project, was, now, k)
  {
    hide Moves;
    forall j | k < j < |users| ensures users[j] == if j == |users| - 1 then Last(users) else Front(users)[j] { }
  }

  /** What the collected map holds. */
  lemma CollectedIs(c: Context, users: seq<User>, project: int, was: string, now: string)
    ensures Get(Collect(c, users), project, was) == Some(now) <==> Renumbered(c, users, project, was, now)
    ensures Entry(project, was, now) in Collect(c, users) <==> Renumbered(c, users, project, was, now)
  {
    hide Collect, Renumbered, LastChange;
    CollectFacts(c, users);
    LastChangeIs(c, users, project, was, now);
    var entries := Collect(c, users);
    GetAt(entries, project, was);
    if Entry(project, was, now) in entries { assert SameKey(Entry(project, was, now), project, was); }
    if Get(entries, project, was) == Some(now) {
      var e :| e in entries && SameKey(e, project, was);
      assert e == Entry(project, was, now);
    }
  }

  /** Nobody of the project moved on from the new number. */
  ghost predicate EndsAt(c: Context, users: seq<User>, project: int, was: string, now: string) {
    Renumbered(c, users, project, was, now) && forall other :: !Renumbered(c, users, project, now, other)
  }

  /** A row of the project moves to the new number of the last user that had its
      identifier, if no other user of the project then moves on from that number;
      a row whose identifier nobody moves from stays, and nothing else changes. */
  lemma RowIs(c: Context, users: seq<User>, rows: seq<Row>, k: nat)
    requires k < |rows|
    ensures var after, r := RenameAll(rows, Collect(c, users)), rows[k];
      && |after| == |rows| && after[k].scope == r.scope
      && ((forall p, now :: r.scope == Some(p) ==> !Renumbered(c, users, p, r.identifier, now)) ==> after[k] == r)
      && forall p, now :: r.scope == Some(p) && EndsAt(c, users, p, r.identifier, now) ==> after[k].identifier == now
  {
    hide Collect, Renumbered;
    var entries, r := Collect(c, users), rows[k];
    RenameAllIsFinal(rows, entries);
    CollectFacts(c, users);
    FinalScope(r, entries);
    forall e ensures e in entries <==> Renumbered(c, users, e.project, e.was, e.now) { CollectedIs(c, users, e.project, e.was, e.now); }
    if forall p, now :: r.scope == Some(p) ==> !Renumbered(c, users, p, r.identifier, now) {
      forall e | e in entries ensures !Matches(r, e) { }
      Untouched(r, entries);
    }
    forall p, now | r.scope == Some(p) && EndsAt(c, users, p, r.identifier, now)
      ensures Final(r, entries).identifier == now
    {
      var e := Entry(p, r.identifier, now);
      var i :| 0 <= i < |entries| && entries[i] == e;
      forall j | 0 <= j < |entries| ensures !SameKey(entries[j], p, now) { assert entries[j] in entries; }
      Course(r, entries, i);
    }
  }

  lemma {:induction false} FinalScope(r: Row, entries: seq<Entry>)
    ensures Final(r, entries).scope == r.scope
  {
    if entries != [] { FinalScope(r, Front(entries)); }
  }

  /** The row's identifier is a number that someone of its project moved from. */
  ghost predicate Affected(c: Context, users: seq<User>, r: Row) {
    exists p, now :: r.scope == Some(p) && Renumbered(c, users, p, r.identifier, now)
  }

  /** The dry run announces the rows that are affected. */
  lemma AnnouncedAre(c: Context, users: seq<User>, rows: seq<Row>)
    ensures DryCount(rows, Collect(c, users)) == |set k | 0 <= k < |rows| && Affected(c, users, rows[k])|
  {
    hide Collect, Renumbered, Affected;
    var entries := Collect(c, users);
    CollectFacts(c, users);
    DryIsHit(rows, entries);
    forall r ensures Hit(r, entries) <==> Affected(c, users, r) { HitIs(c, users, r); }
    HitSet(c, users, rows, entries);
  }

  lemma HitIs(c: Context, users: seq<User>, r: Row)
    ensures Hit(r, Collect(c, users)) <==> Affected(c, users, r)
  {
    hide Collect, Renumbered;
    var entries := Collect(c, users);
    forall e ensures e in entries <==> Renumbered(c, users, e.project, e.was, e.now) { CollectedIs(c, users, e.project, e.was, e.now); }
    if p, now :| r.scope == Some(p) && Renumbered(c, users, p, r.identifier, now) { assert Matches(r, Entry(p, r.identifier, now)); }
  }

  lemma {:induction false} HitSet(c: Context, users: seq<User>, rows: seq<Row>, entries: seq<Entry>)
    requires forall r :: Hit(r, entries) <==> Affected(c, users, r)
    ensures TotalHit(rows, entries) == |set k | 0 <= k < |rows| && Affected(c, users, rows[k])|
  {
    hide Affected, Hit;
    if rows != [] {
      HitSnocRow(Front(rows), Last(rows), entries);
      HitSet(c, users, Front(rows), entries);
      assert rows == Front(rows) + [Last(rows)];
      var front, n := Front(rows), |rows|;
      var before, all := set k | 0 <= k < n - 1 && Affected(c, users, front[k]), set k | 0 <= k < n && Affected(c, users, rows[k]);
      assert all == if Affected(c, users, Last(rows)) then before + {n - 1} else before;
    }
  }

  lemma {:induction false} HitSnocRow(rows: seq<Row>, r: Row, entries: seq<Entry>)
    ensures TotalHit(rows + [r], entries) == TotalHit(rows, entries) + if Hit(r, entries) then 1 else 0
  {
    if rows == [] {
      assert rows + [r] == [r];
    } else {
      assert (rows + [r])[1..] == rows[1..] + [r];
      HitSnocRow(rows[1..], r, entries);
    }
  }
}
