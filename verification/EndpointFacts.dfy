/** What the row repairs of migration 138 do, told in the columns of the rows. */
module EndpointFacts {
  import opened Common
  import opened EndpointBackfill

  // ------------------------------------------------------------------ repairs

  /** Later, where never comes last; between equals the higher id. */
  ghost predicate After(seenA: Option<int>, a: int, seenB: Option<int>, b: int) {
    || (seenA.Some? && seenB.None?)
    || (seenA.Some? && seenB.Some? && seenA.value > seenB.value)
    || (seenA == seenB && a > b)
  }

  lemma RankIs(seenA: Option<int>, a: int, seenB: Option<int>, b: int)
    ensures Before(Rank(seenA, a), Rank(seenB, b)) <==> !After(seenB, b, seenA, a)
  {
  }

  ghost predicate Overtakes(a: Endpoint, b: Endpoint) {
    a.primary && a.project == b.project && a.user == b.user && a.kind == b.kind && After(a.seen, a.id, b.seen, b.id)
  }

  ghost predicate OvertakesSender(a: Sender, b: Sender) {
    a.default && a.project == b.project && a.channel == b.channel && After(a.updated, a.id, b.updated, b.id)
  }

  /** A primary endpoint stays primary exactly when no other primary of the same
      project, contact and kind was seen after it; nothing else changes. */
  lemma PrimaryStaysIff(rows: seq<Endpoint>, i: nat)
    requires DistinctIds(EndpointIds(rows)) && i < |rows|
    ensures var after, r := Dedupe(rows, PrimaryRepair()), rows[i];
      && |after| == |rows| && after[i] == r.(primary := after[i].primary)
      && (after[i].primary <==> r.primary && forall j :: 0 <= j < |rows| ==> !Overtakes(rows[j], r))
  {
    hide Dedupe, Rank, RepairOk, Best, Overtakes, OvertakesSender;
    var m := PrimaryRepair();
    RepairsAreOk(rows, []);
    KeepsFlagIff(rows, m, i);
    BestPrimary(rows, i);
    PrimaryFlag(Dedupe(rows, m)[i], rows[i]);
  }

  lemma BestPrimary(rows: seq<Endpoint>, i: nat)
    requires i < |rows|
    ensures Best(rows, PrimaryRepair(), i) <==> forall j :: 0 <= j < |rows| ==> !Overtakes(rows[j], rows[i])
  {
    hide Rank, Before, After;
    forall j | 0 <= j < |rows|
      ensures Before(PrimaryRepair().rank(rows[i]), PrimaryRepair().rank(rows[j])) <==> !After(rows[j].seen, rows[j].id, rows[i].seen, rows[i].id)
    {
      RankIs(rows[i].seen, rows[i].id, rows[j].seen, rows[j].id);
    }
  }

  lemma PrimaryFlag(a: Endpoint, r: Endpoint)
    ensures PrimaryRepair().flagged(a) <==> a.primary
    ensures a == r || a == PrimaryRepair().clear(r) ==> a == r.(primary := a.primary)
  {
  }

  /** A default sender stays default exactly when no other default of the same
      project and channel was updated after it; nothing else changes. */
  lemma DefaultStaysIff(rows: seq<Sender>, i: nat)
    requires DistinctIds(SenderIds(rows)) && i < |rows|
    ensures var after, r := Dedupe(rows, DefaultRepair()), rows[i];
      && |after| == |rows| && after[i] == r.(default := after[i].default)
      && (after[i].default <==> r.default && forall j :: 0 <= j < |rows| ==> !OvertakesSender(rows[j], r))
  {
    hide Dedupe, Rank, RepairOk, Best, Overtakes, OvertakesSender;
    var m := DefaultRepair();
    RepairsAreOk([], rows);
    KeepsFlagIff(rows, m, i);
    BestDefault(rows, i);
    DefaultFlag(Dedupe(rows, m)[i], rows[i]);
  }

  lemma BestDefault(rows: seq<Sender>, i: nat)
    requires i < |rows|
    ensures Best(rows, DefaultRepair(), i) <==> forall j :: 0 <= j < |rows| ==> !OvertakesSender(rows[j], rows[i])
  {
    hide Rank, Before, After;
    forall j | 0 <= j < |rows|
      ensures Before(DefaultRepair().rank(rows[i]), DefaultRepair().rank(rows[j])) <==> !After(rows[j].updated, rows[j].id, rows[i].updated, rows[i].id)
    {
      RankIs(rows[i].updated, rows[i].id, rows[j].updated, rows[j].id);
    }
  }

  lemma DefaultFlag(a: Sender, r: Sender)
    ensures DefaultRepair().flagged(a) <==> a.default
    ensures a == r || a == DefaultRepair().clear(r) ==> a == r.(default := a.default)
  {
  }

  // ------------------------------------------------------------------- insert

  /** From place a, s reads t; around it are blanks, and t neither starts nor ends
      with one. */
  ghost predicate CutAt(s: string, t: string, a: nat) {
    && a + |t| <= |s| && s[a..a + |t|] == t
    && (forall i :: 0 <= i < a ==> s[i] == ' ') && (forall i :: a + |t| <= i < |s| ==> s[i] == ' ')
    && (t != "" ==> t[0] != ' ' && t[|t| - 1] != ' ')
  }

  /** The text without the blanks around it. */
  ghost predicate Trims(s: string, t: string) { exists a: nat :: CutAt(s, t, a) }

  lemma {:induction false} LeftIs(s: string) returns (a: nat)
    ensures a <= |s| && TrimLeft(s) == s[a..] && (forall i :: 0 <= i < a ==> s[i] == ' ') && (a < |s| ==> s[a] != ' ')
  {
    if s != "" && s[0] == ' ' {
      var rest := LeftIs(s[1..]);
      a := rest + 1;
      assert s[1..][rest..] == s[a..];
      forall i | 0 <= i < a ensures s[i] == ' ' { if i > 0 { assert s[i] == s[1..][i - 1]; } }
      assert a < |s| ==> s[a] == s[1..][rest];
    } else {
      a := 0;
      assert s[0..] == s;
    }
  }

  lemma {:induction false} RightIs(s: string) returns (n: nat)
    ensures n <= |s| && TrimRight(s) == s[..n] && (forall i :: n <= i < |s| ==> s[i] == ' ') && (n > 0 ==> s[n - 1] != ' ')
  {
    if s != "" && Last(s) == ' ' {
      n := RightIs(Front(s));
      assert Front(s)[..n] == s[..n];
    } else {
      n := |s|;
      assert s[..n] == s;
    }
  }

  lemma TrimIs(s: string)
    ensures Trims(s, Trim(s))
  {
    var a := LeftIs(s);
    var u := TrimLeft(s);
    var n := RightIs(u);
    var t := Trim(s);
    assert u == s[a..] && t == u[..n];
    assert s[a..a + |t|] == t;
    forall i | a + |t| <= i < |s| ensures s[i] == ' ' { assert u[i - a] == ' '; }
    if t != "" {
      assert t[0] == u[0] == s[a];
      assert t[|t| - 1] == u[n - 1];
    }
    assert CutAt(s, t, a);
  }

  /** There is one such text. */
  lemma TrimsOnce(s: string, t: string)
    requires Trims(s, t)
    ensures t == Trim(s)
  {
    hide Trim, CutAt;
    TrimIs(s);
    var a: nat :| CutAt(s, t, a);
    var c: nat :| CutAt(s, Trim(s), c);
    CutsMeet(s, t, a, Trim(s), c);
    CutsMeet(s, Trim(s), c, t, a);
    CutsAgree(s, t, a, Trim(s), c);
  }

  lemma CutsMeet(s: string, t: string, a: nat, u: string, c: nat)
    requires CutAt(s, t, a) && CutAt(s, u, c)
    ensures t != "" ==> c <= a && a + |t| <= c + |u|
  {
    if t != "" {
      assert s[a] == t[0];
      assert s[a + |t| - 1] == t[|t| - 1];
    }
  }

  lemma CutsAgree(s: string, t: string, a: nat, u: string, c: nat)
    requires CutAt(s, t, a) && CutAt(s, u, c)
    requires (t != "" ==> c <= a && a + |t| <= c + |u|) && (u != "" ==> a <= c && c + |u| <= a + |t|)
    ensures t == u
  {
  }

  /** A contact with an address that is not blank, and its hash, has an email row
      with the trimmed address. */
  lemma EmailIs(c: Contact, value: string, hash: string)
    ensures EmailOf(c) == Some(Candidate("email", value, hash)) <==> c.email.Some? && Trims(c.email.value, value) && value != "" && c.emailHash == Some(hash)
    ensures EmailOf(c).Some? ==> EmailOf(c).value.kind == "email"
  {
    hide Trims, Trim;
    if c.email.Some? {
      TrimIs(c.email.value);
      if Trims(c.email.value, value) { TrimsOnce(c.email.value, value); }
    }
  }

  /** A contact with a phone that is not blank, the normalised one if there is one,
      and its hash, has a phone row with the phone as it is. */
  lemma PhoneIs(c: Contact, value: string, hash: string)
    ensures PhoneOf(c) == Some(Candidate("phone", value, hash)) <==>
      && (c.phoneE164.Some? ==> value == c.phoneE164.value) && (c.phoneE164.None? ==> c.phone == Some(value))
      && c.phoneHash == Some(hash) && !Trims(value, "")
    ensures PhoneOf(c).Some? ==> PhoneOf(c).value.kind == "phone"
  {
    hide Trims, Trim;
    TrimIs(value);
    if Trims(value, "") { TrimsOnce(value, ""); }
  }

  /** The row is of this project, contact and kind. */
  ghost predicate Of(e: Endpoint, project: int, user: int, kind: string) { e.project == project && e.user == user && e.kind == kind }

  /** The new row for a contact: its address and hash, primary unless the contact
      had a primary of that kind before the statement, last seen when the contact
      was updated, or now. */
  ghost predicate IsNewRow(before: seq<Endpoint>, c: Contact, k: Candidate, now: int, e: Endpoint) {
    && Of(e, c.project, c.id, k.kind) && e.hash == k.hash && e.value == k.value
    && (e.primary <==> !exists i :: 0 <= i < |before| && before[i].primary && Of(before[i], c.project, c.id, k.kind))
    && e.seen == (if c.updated.Some? then c.updated else Some(now))
  }

  lemma NewRowIs(before: seq<Endpoint>, c: Contact, k: Candidate, id: int, now: int)
    ensures IsNewRow(before, c, k, now, NewEndpoint(before, c, k, id, now)) && NewEndpoint(before, c, k, id, now).id == id
  {
    var key := (c.project, c.id, k.kind);
    forall i | 0 <= i < |before| ensures KeyOf(before[i]) == key <==> Of(before[i], c.project, c.id, k.kind) { }
  }

  lemma HashIs(rows: seq<Endpoint>, project: int, user: int, kind: string, hash: string)
    ensures HasHash(rows, project, user, kind, hash) <==> exists i :: 0 <= i < |rows| && Of(rows[i], project, user, kind) && rows[i].hash == hash
  {
    forall i | 0 <= i < |rows| ensures KeyOf(rows[i]) == (project, user, kind) <==> Of(rows[i], project, user, kind) { }
  }

  /** The rows that a statement adds are new rows of contacts of its SELECT, with
      ids in sequence. */
  lemma {:induction false} AddedRowsAre(before: seq<Endpoint>, contacts: seq<Contact>, source: Contact -> Option<Candidate>, id: int, now: int)
    ensures var rows := Insert(before, contacts, source, id, now);
      && |rows| >= |before| && rows[..|before|] == before
      && forall n :: |before| <= n < |rows| ==> rows[n].id == id + n && exists c :: c in contacts && source(c).Some? && IsNewRow(before, c, source(c).value, now, rows[n])
  {
    hide NewEndpoint, IsNewRow, HasHash;
    if contacts != [] {
      var front, c := Front(contacts), Last(contacts);
      assert forall x :: x in front ==> x in contacts;
      assert c in contacts;
      AddedRowsAre(before, front, source, id, now);
      var rows := Insert(before, front, source, id, now);
      if source(c).Some? { NewRowIs(before, c, source(c).value, id + |rows|, now); }
    }
  }

  /** A contact gets a row exactly when it is of the SELECT and no row of its kind
      with its hash was there before the statement. */
  lemma AddedIff(before: seq<Endpoint>, contacts: seq<Contact>, source: Contact -> Option<Candidate>, kind: string, id: int, now: int, c: Contact)
    requires OneKind(contacts, source, kind) && DistinctContacts(contacts) && c in contacts
    ensures var rows := Insert(before, contacts, source, id, now);
      (exists n :: |before| <= n < |rows| && rows[n].user == c.id)
      <==> source(c).Some? && !exists i :: 0 <= i < |before| && Of(before[i], c.project, c.id, kind) && before[i].hash == source(c).value.hash
  {
    hide IsNewRow, HasHash, Insert;
    var rows := Insert(before, contacts, source, id, now);
    AddedRowsAre(before, contacts, source, id, now);
    if source(c).Some? {
      var hash := source(c).value.hash;
      HashIs(before, c.project, c.id, kind, hash);
      HashIs(rows, c.project, c.id, kind, hash);
      if HasHash(before, c.project, c.id, kind, hash) {
        NoNewRow(before, contacts, source, kind, id, now, c);
      } else {
        InsertCovers(before, contacts, source, id, now, c);
        assert forall i :: 0 <= i < |before| ==> before[i] == rows[..|before|][i];
        var n :| 0 <= n < |rows| && Of(rows[n], c.project, c.id, kind) && rows[n].hash == hash;
      }
    } else {
      forall n | |before| <= n < |rows| ensures rows[n].user != c.id {
        var x :| x in contacts && source(x).Some? && IsNewRow(before, x, source(x).value, now, rows[n]);
        UserOf(before, x, source(x).value, now, rows[n]);
        SameContact(contacts, x, c);
      }
    }
  }

  lemma UserOf(before: seq<Endpoint>, c: Contact, k: Candidate, now: int, e: Endpoint)
    requires IsNewRow(before, c, k, now, e)
    ensures e.user == c.id
  {
  }

  lemma SameContact(contacts: seq<Contact>, x: Contact, c: Contact)
    requires DistinctContacts(contacts) && x in contacts && c in contacts
    ensures x.id == c.id ==> x == c
  {
  }

  lemma SourcesAreOneKind(contacts: seq<Contact>)
    ensures OneKind(contacts, EmailOf, "email") && OneKind(contacts, PhoneOf, "phone")
  {
    forall c ensures EmailOf(c).Some? ==> EmailOf(c).value.kind == "email" { EmailIs(c, "", ""); }
    forall c ensures PhoneOf(c).Some? ==> PhoneOf(c).value.kind == "phone" { PhoneIs(c, "", ""); }
  }

  /** The email statement in full. */
  lemma EmailsInFull(before: seq<Endpoint>, contacts: seq<Contact>, id: int, now: int, c: Contact, value: string, hash: string)
    requires DistinctContacts(contacts) && c in contacts && c.email.Some? && Trims(c.email.value, value) && c.emailHash == Some(hash)
    ensures (exists n :: |before| <= n < |Insert(before, contacts, EmailOf, id, now)| && Insert(before, contacts, EmailOf, id, now)[n].user == c.id)
      <==> value != "" && !exists i :: 0 <= i < |before| && Of(before[i], c.project, c.id, "email") && before[i].hash == hash
  {
    hide Insert, EmailOf, Trims, Of;
    SourcesAreOneKind(contacts);
    AddedIff(before, contacts, EmailOf, "email", id, now, c);
    EmailIs(c, value, hash);
    if EmailOf(c).Some? {
      EmailIs(c, EmailOf(c).value.value, EmailOf(c).value.hash);
      TrimsOnce(c.email.value, value);
      TrimsOnce(c.email.value, EmailOf(c).value.value);
    }
  }

  /** The phone statement in full: the normalised number goes first, blanks stay. */
  lemma PhonesInFull(before: seq<Endpoint>, contacts: seq<Contact>, id: int, now: int, c: Contact, value: string, hash: string)
    requires DistinctContacts(contacts) && c in contacts && c.phoneHash == Some(hash)
    requires c.phoneE164 == Some(value) || (c.phoneE164.None? && c.phone == Some(value))
    ensures (exists n :: |before| <= n < |Insert(before, contacts, PhoneOf, id, now)| && Insert(before, contacts, PhoneOf, id, now)[n].user == c.id)
      <==> !Trims(value, "") && !exists i :: 0 <= i < |before| && Of(before[i], c.project, c.id, "phone") && before[i].hash == hash
  {
    hide Insert, PhoneOf, Trims, Of;
    SourcesAreOneKind(contacts);
    AddedIff(before, contacts, PhoneOf, "phone", id, now, c);
    PhoneIs(c, value, hash);
    if PhoneOf(c).Some? { PhoneIs(c, PhoneOf(c).value.value, PhoneOf(c).value.hash); }
  }

  // --------------------------------------------------------------------- links

  /** The endpoint is the state's: project, contact, hash, and the kind that the
      verification is about, a phone for whatsapp. */
  ghost predicate Belongs(e: Endpoint, s: State) {
    && e.project == s.project && e.user == s.user && e.hash == s.hash
    && (s.kind == "whatsapp" ==> e.kind == "phone") && (s.kind != "whatsapp" ==> e.kind == s.kind)
  }

  lemma BelongsIs(e: Endpoint, s: State)
    ensures Fits(s, e) <==> Belongs(e, s)
  {
  }

  /** A linked state stays as it is; another is linked to the one endpoint that is
      its own, or to none if there is none; nothing else of it changes. */
  lemma StateIs(endpoints: seq<Endpoint>, states: seq<State>, i: nat)
    requires DistinctHashes(endpoints) && i < |states|
    ensures var s, t := states[i], LinkAll(endpoints, states)[i];
      && t == s.(endpoint := t.endpoint)
      && (s.endpoint.Some? ==> t.endpoint == s.endpoint)
      && (s.endpoint.None? ==> forall e :: e in endpoints && Belongs(e, s) ==> t.endpoint == Some(e.id))
      && (s.endpoint.None? && (forall e :: e in endpoints ==> !Belongs(e, s)) ==> t.endpoint.None?)
  {
    hide Fits, Belongs;
    var s := states[i];
    forall e ensures Fits(s, e) <==> Belongs(e, s) { BelongsIs(e, s); }
    forall e | e in endpoints && Belongs(e, s) ensures Match(endpoints, s) == Some(e) { OneMatch(endpoints, s, e, e); }
  }

  /** Linking fails exactly when the endpoint of an unlinked state is the one that
      a linked state of the same project and kind already has. */
  lemma TakenIff(endpoints: seq<Endpoint>, states: seq<State>)
    requires DistinctHashes(endpoints)
    ensures Taken(endpoints, states) <==>
      exists i, j, e :: 0 <= i < |states| && 0 <= j < |states| && e in endpoints && Belongs(e, states[i])
        && states[i].endpoint.None? && states[j].endpoint == Some(e.id) && states[i].project == states[j].project && states[i].kind == states[j].kind
  {
    hide Belongs;
    forall i | 0 <= i < |states| ensures LinkAll(endpoints, states)[i] == LinkOne(endpoints, states[i]) { StateIs(endpoints, states, i); }
    if Taken(endpoints, states) {
      var i, j :| 0 <= i < |states| && 0 <= j < |states| && Takes(endpoints, states[i], states[j]);
      StateIs(endpoints, states, i);
      if forall e :: e in endpoints ==> !Belongs(e, states[i]) { } else {
        var e :| e in endpoints && Belongs(e, states[i]);
        assert states[j].endpoint == Some(e.id);
      }
    }
    if i, j, e :| 0 <= i < |states| && 0 <= j < |states| && e in endpoints && Belongs(e, states[i]) && states[i].endpoint.None? && states[j].endpoint == Some(e.id) && states[i].project == states[j].project && states[i].kind == states[j].kind {
      StateIs(endpoints, states, i);
      assert Takes(endpoints, states[i], states[j]);
    }
  }

  /** The two rules that the statement must keep, in the columns. */
  lemma RulesAre(states: seq<State>)
    ensures EndpointsDistinct(states) <==> forall i, j :: 0 <= i < j < |states| && states[i].endpoint.Some? && states[j].endpoint.Some? ==>
      states[i].project != states[j].project || states[i].endpoint != states[j].endpoint || states[i].kind != states[j].kind
    ensures LegacyDistinct(states) <==> forall i, j :: 0 <= i < j < |states| && states[i].endpoint.None? && states[j].endpoint.None? ==>
      states[i].project != states[j].project || states[i].user != states[j].user || states[i].kind != states[j].kind
  {
  }
}
