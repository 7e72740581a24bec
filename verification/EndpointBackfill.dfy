/** The row repairs of migration 138: one primary per key is kept, endpoints are
    inserted from users, and verification states are linked to endpoints. */
module EndpointBackfill {
  import opened Common

  // ------------------------------------------------------------ one survivor

  /** ORDER BY seen DESC NULLS LAST, id DESC. */
  function Rank(seen: Option<int>, id: int): (rank: SortKey)
    ensures rank.2 == -id
  {
    if seen.Some? then (0, -seen.value, -id) else (1, 0, -id)
  }

  /** What a ranked repair looks at: a flag, the partition key, the order. */
  datatype Repair<!T, !K> = Repair(flagged: T -> bool, key: T -> K, rank: T -> SortKey, clear: T -> T)

  /** The flagged rows of one partition, best first. */
  function Partition<T, K(==)>(rows: seq<T>, m: Repair<T, K>, k: K): seq<T> {
    OrderBy(Where(rows, (r: T) => m.flagged(r) && m.key(r) == k), m.rank)
  }

  /** position > 1 in its partition. */
  predicate Outranked<T(==), K(==)>(rows: seq<T>, m: Repair<T, K>, r: T) {
    m.flagged(r) && var p := Partition(rows, m, m.key(r)); p != [] && p[0] != r
  }

  /** The UPDATE: every flagged row but its partition's first loses the flag. */
  function Dedupe<T(==), K(==)>(rows: seq<T>, m: Repair<T, K>): seq<T> {
    seq(|rows|, i requires 0 <= i < |rows| => if Outranked(rows, m, rows[i]) then m.clear(rows[i]) else rows[i])
  }

  /** Ranks tell rows apart, and clearing touches the flag alone. */
  ghost predicate RepairOk<T(!new), K>(rows: seq<T>, m: Repair<T, K>) {
    && (forall i, j :: 0 <= i < j < |rows| ==> m.rank(rows[i]) != m.rank(rows[j]))
    && (forall r :: !m.flagged(m.clear(r)) && m.key(m.clear(r)) == m.key(r))
  }

  lemma PartitionFacts<T, K>(rows: seq<T>, m: Repair<T, K>, k: K)
    ensures forall r :: r in Partition(rows, m, k) <==> r in rows && m.flagged(r) && m.key(r) == k
    ensures Partition(rows, m, k) != [] ==> forall r :: r in rows && m.flagged(r) && m.key(r) == k ==> Before(m.rank(Partition(rows, m, k)[0]), m.rank(r))
  {
    var kept := Where(rows, (r: T) => m.flagged(r) && m.key(r) == k);
    OrderByMembers(kept, m.rank);
    OrderByHead(kept, m.rank);
  }

  ghost predicate Best<T, K>(rows: seq<T>, m: Repair<T, K>, i: nat)
    requires i < |rows|
  {
    forall j :: 0 <= j < |rows| && m.flagged(rows[j]) && m.key(rows[j]) == m.key(rows[i]) ==> Before(m.rank(rows[i]), m.rank(rows[j]))
  }

  /** A flagged row keeps the flag exactly when no flagged row of its key ranks
      better; nothing else changes. */
  lemma KeepsFlagIff<T(!new), K>(rows: seq<T>, m: Repair<T, K>, i: nat)
    requires RepairOk(rows, m) && i < |rows|
    ensures |Dedupe(rows, m)| == |rows|
    ensures m.flagged(Dedupe(rows, m)[i]) <==> m.flagged(rows[i]) && Best(rows, m, i)
    ensures Dedupe(rows, m)[i] == rows[i] || (m.flagged(rows[i]) && Dedupe(rows, m)[i] == m.clear(rows[i]))
  {
    var r := rows[i];
    if m.flagged(r) {
      var p := Partition(rows, m, m.key(r));
      PartitionFacts(rows, m, m.key(r));
      assert r in rows && r in p && p[0] in p;
      assert p[0] in rows;
      var j :| 0 <= j < |rows| && rows[j] == p[0];
      assert Before(m.rank(p[0]), m.rank(r));
      if Best(rows, m, i) {
        assert m.rank(rows[i]) == m.rank(rows[j]);
      }
    }
  }

  /** At most one flagged row per key: what the partial unique index asks. */
  ghost predicate OnePerKey<T, K>(rows: seq<T>, m: Repair<T, K>) {
    forall i, j :: 0 <= i < j < |rows| && m.flagged(rows[i]) && m.flagged(rows[j]) ==> m.key(rows[i]) != m.key(rows[j])
  }

  /** After the repair each key that had a flagged row has exactly one, and a
      table that already had at most one of each is left alone. */
  lemma OneSurvivor<T(!new), K>(rows: seq<T>, m: Repair<T, K>)
    requires RepairOk(rows, m)
    ensures OnePerKey(Dedupe(rows, m), m)
    ensures forall i :: 0 <= i < |rows| && m.flagged(rows[i]) ==>
      exists j :: 0 <= j < |rows| && m.key(rows[j]) == m.key(rows[i]) && m.flagged(Dedupe(rows, m)[j]) && Dedupe(rows, m)[j] == rows[j]
    ensures OnePerKey(rows, m) ==> Dedupe(rows, m) == rows
  {
    var rows' := Dedupe(rows, m);
    forall i | 0 <= i < |rows| ensures m.key(rows'[i]) == m.key(rows[i]) { KeepsFlagIff(rows, m, i); }
    forall i, j | 0 <= i < j < |rows'| && m.flagged(rows'[i]) && m.flagged(rows'[j]) ensures m.key(rows'[i]) != m.key(rows'[j]) {
      KeepsFlagIff(rows, m, i);
      KeepsFlagIff(rows, m, j);
      assert m.rank(rows[i]) != m.rank(rows[j]);
    }
    forall i | 0 <= i < |rows| && m.flagged(rows[i])
      ensures exists j :: 0 <= j < |rows| && m.key(rows[j]) == m.key(rows[i]) && m.flagged(rows'[j]) && rows'[j] == rows[j]
    {
      Survivor(rows, m, i);
    }
    if OnePerKey(rows, m) {
      forall i | 0 <= i < |rows| ensures rows'[i] == rows[i] { Alone(rows, m, i); }
    }
  }

  lemma Survivor<T(!new), K>(rows: seq<T>, m: Repair<T, K>, i: nat)
    requires RepairOk(rows, m) && i < |rows| && m.flagged(rows[i])
    ensures exists j :: 0 <= j < |rows| && m.key(rows[j]) == m.key(rows[i]) && m.flagged(Dedupe(rows, m)[j]) && Dedupe(rows, m)[j] == rows[j]
  {
    PartitionFacts(rows, m, m.key(rows[i]));
    var p := Partition(rows, m, m.key(rows[i]));
    assert rows[i] in p && p[0] in p;
    assert p[0] in rows;
    var j :| 0 <= j < |rows| && rows[j] == p[0];
    assert Dedupe(rows, m)[j] == rows[j];
  }

  lemma Alone<T(!new), K>(rows: seq<T>, m: Repair<T, K>, i: nat)
    requires OnePerKey(rows, m) && i < |rows|
    ensures !Outranked(rows, m, rows[i])
  {
    PartitionFacts(rows, m, m.key(rows[i]));
    var p := Partition(rows, m, m.key(rows[i]));
    if m.flagged(rows[i]) && p != [] {
      assert p[0] in p;
      assert p[0] in rows;
      var j :| 0 <= j < |rows| && rows[j] == p[0];
      assert j == i;
    }
  }

  // ---------------------------------------------------------------- endpoints

  datatype Endpoint = Endpoint(id: int, project: int, user: int, kind: string, hash: string, value: string, primary: bool, seen: Option<int>)

  type EndpointKey = (int, int, string)

  function KeyOf(e: Endpoint): EndpointKey { (e.project, e.user, e.kind) }

  function PrimaryRepair(): Repair<Endpoint, EndpointKey> {
    Repair((e: Endpoint) => e.primary, KeyOf, (e: Endpoint) => Rank(e.seen, e.id), (e: Endpoint) => e.(primary := false))
  }

  datatype Sender = Sender(id: int, project: int, channel: string, default: bool, updated: Option<int>)

  function DefaultRepair(): Repair<Sender, (int, string)> {
    Repair((s: Sender) => s.default, (s: Sender) => (s.project, s.channel), (s: Sender) => Rank(s.updated, s.id), (s: Sender) => s.(default := false))
  }

  ghost predicate DistinctIds(ids: seq<int>) { forall i, j :: 0 <= i < j < |ids| ==> ids[i] != ids[j] }

  function EndpointIds(rows: seq<Endpoint>): seq<int> { seq(|rows|, i requires 0 <= i < |rows| => rows[i].id) }

  function SenderIds(rows: seq<Sender>): seq<int> { seq(|rows|, i requires 0 <= i < |rows| => rows[i].id) }

  /** Ids make the two concrete orders strict. */
  lemma RepairsAreOk(endpoints: seq<Endpoint>, senders: seq<Sender>)
    requires DistinctIds(EndpointIds(endpoints)) && DistinctIds(SenderIds(senders))
    ensures RepairOk(endpoints, PrimaryRepair()) && RepairOk(senders, DefaultRepair())
  {
    var m, d := PrimaryRepair(), DefaultRepair();
    forall i, j | 0 <= i < j < |endpoints| ensures m.rank(endpoints[i]) != m.rank(endpoints[j]) {
      assert EndpointIds(endpoints)[i] != EndpointIds(endpoints)[j];
      assert m.rank(endpoints[i]).2 == -endpoints[i].id && m.rank(endpoints[j]).2 == -endpoints[j].id;
    }
    forall i, j | 0 <= i < j < |senders| ensures d.rank(senders[i]) != d.rank(senders[j]) {
      assert SenderIds(senders)[i] != SenderIds(senders)[j];
      assert d.rank(senders[i]).2 == -senders[i].id && d.rank(senders[j]).2 == -senders[j].id;
    }
  }

  // ------------------------------------------------------------------- insert

  /** The columns of messaging_users the two inserts read. */
  datatype Contact = Contact(
    id: int, project: int, email: Option<string>, emailHash: Option<string>,
    phone: Option<string>, phoneE164: Option<string>, phoneHash: Option<string>, updated: Option<int>)

  function Trim(s: string): string { TrimRight(TrimLeft(s)) }

  function TrimLeft(s: string): string { if s != "" && s[0] == ' ' then TrimLeft(s[1..]) else s }

  function TrimRight(s: string): string { if s != "" && Last(s) == ' ' then TrimRight(Front(s)) else s }

  /** kind, value and hash of a contact's row in the SELECT, if it has one. */
  datatype Candidate = Candidate(kind: string, value: string, hash: string)

  function EmailOf(c: Contact): Option<Candidate> {
    if c.email.Some? && Trim(c.email.value) != "" && c.emailHash.Some? then Some(Candidate("email", Trim(c.email.value), c.emailHash.value)) else None
  }

  function PhoneOf(c: Contact): Option<Candidate> {
    var phone := if c.phoneE164.Some? then c.phoneE164 else c.phone;
    if phone.Some? && Trim(phone.value) != "" && c.phoneHash.Some? then Some(Candidate("phone", phone.value, c.phoneHash.value)) else None
  }

  predicate HasHash(rows: seq<Endpoint>, project: int, user: int, kind: string, hash: string) {
    exists i :: 0 <= i < |rows| && KeyOf(rows[i]) == (project, user, kind) && rows[i].hash == hash
  }

  predicate HasPrimary(rows: seq<Endpoint>, key: EndpointKey) {
    exists i :: 0 <= i < |rows| && rows[i].primary && KeyOf(rows[i]) == key
  }

  /** The new row: primary unless the table before the statement had one. */
  function NewEndpoint(before: seq<Endpoint>, c: Contact, k: Candidate, id: int, now: int): Endpoint {
    Endpoint(id, c.project, c.id, k.kind, k.hash, k.value, !HasPrimary(before, (c.project, c.id, k.kind)), Some(if c.updated.Some? then c.updated.value else now))
  }

  /** INSERT ... SELECT ... ON CONFLICT DO NOTHING: primaries are decided on
      the table before the statement, conflicts on the table as it grows. */
  function Insert(before: seq<Endpoint>, contacts: seq<Contact>, source: Contact -> Option<Candidate>, id: int, now: int): seq<Endpoint> {
    if contacts == [] then before
    else
      var rows, c := Insert(before, Front(contacts), source, id, now), Last(contacts);
      var k := source(c);
      if k.None? || HasHash(rows, c.project, c.id, k.value.kind, k.value.hash) then rows
      else rows + [NewEndpoint(before, c, k.value, id + |rows|, now)]
  }

  ghost predicate DistinctContacts(contacts: seq<Contact>) { forall i, j :: 0 <= i < j < |contacts| ==> contacts[i].id != contacts[j].id }

  /** uq_contact_endpoint_hash. */
  ghost predicate DistinctHashes(rows: seq<Endpoint>) {
    forall i, j :: 0 <= i < j < |rows| ==> KeyOf(rows[i]) != KeyOf(rows[j]) || rows[i].hash != rows[j].hash
  }

  ghost predicate OneKind(contacts: seq<Contact>, source: Contact -> Option<Candidate>, kind: string) {
    forall c :: c in contacts && source(c).Some? ==> source(c).value.kind == kind
  }

  /** Rows inserted so far: the old table, then at most one row per contact. */
  lemma {:induction false} InsertShape(before: seq<Endpoint>, contacts: seq<Contact>, source: Contact -> Option<Candidate>, kind: string, id: int, now: int)
    requires OneKind(contacts, source, kind) && DistinctContacts(contacts)
    ensures var rows := Insert(before, contacts, source, id, now);
      && before <= rows
      && (forall i :: |before| <= i < |rows| ==> rows[i].kind == kind && rows[i].primary == !HasPrimary(before, KeyOf(rows[i])))
      && (forall i :: |before| <= i < |rows| ==> exists c :: c in contacts && c.id == rows[i].user)
      && (forall i, j :: |before| <= i < j < |rows| ==> rows[i].user != rows[j].user)
  {
    if contacts != [] {
      var front, c := Front(contacts), Last(contacts);
      assert forall x :: x in front ==> x in contacts;
      assert c in contacts;
      InsertShape(before, front, source, kind, id, now);
      assert forall x :: x in front ==> x.id != c.id;
    }
  }

  /** Both partial unique rules of the endpoints survive an insert. */
  lemma InsertKeepsOnePrimary(before: seq<Endpoint>, contacts: seq<Contact>, source: Contact -> Option<Candidate>, kind: string, id: int, now: int)
    requires OneKind(contacts, source, kind) && DistinctContacts(contacts) && OnePerKey(before, PrimaryRepair())
    ensures OnePerKey(Insert(before, contacts, source, id, now), PrimaryRepair())
  {
    var rows := Insert(before, contacts, source, id, now);
    InsertShape(before, contacts, source, kind, id, now);
    forall i, j | 0 <= i < j < |rows| && rows[i].primary && rows[j].primary ensures KeyOf(rows[i]) != KeyOf(rows[j]) {
      if j < |before| {
        assert rows[i] == before[i] && rows[j] == before[j];
        assert PrimaryRepair().flagged(before[i]) && PrimaryRepair().flagged(before[j]);
      } else if i < |before| {
        assert rows[i] == before[i] && HasPrimary(before, KeyOf(rows[i]));
      }
    }
  }

  lemma {:induction false} InsertKeepsHashes(before: seq<Endpoint>, contacts: seq<Contact>, source: Contact -> Option<Candidate>, id: int, now: int)
    requires DistinctHashes(before)
    ensures DistinctHashes(Insert(before, contacts, source, id, now))
  {
    if contacts != [] { InsertKeepsHashes(before, Front(contacts), source, id, now); }
  }

  /** Serial ids stay apart. */
  lemma {:induction false} InsertKeepsIds(before: seq<Endpoint>, contacts: seq<Contact>, source: Contact -> Option<Candidate>, id: int, now: int)
    requires DistinctIds(EndpointIds(before)) && forall e :: e in before ==> e.id < id + |before|
    ensures var rows := Insert(before, contacts, source, id, now);
      |rows| >= |before| && DistinctIds(EndpointIds(rows)) && forall e :: e in rows ==> e.id < id + |rows|
  {
    if contacts != [] {
      InsertKeepsIds(before, Front(contacts), source, id, now);
      var rows, all := Insert(before, Front(contacts), source, id, now), Insert(before, contacts, source, id, now);
      if all != rows { assert EndpointIds(all) == EndpointIds(rows) + [id + |rows|]; }
      forall i | 0 <= i < |rows| ensures EndpointIds(rows)[i] < id + |rows| { assert rows[i] in rows; }
    }
  }

  /** Every contact of the SELECT ends with a row for its hash. */
  lemma {:induction false} InsertCovers(before: seq<Endpoint>, contacts: seq<Contact>, source: Contact -> Option<Candidate>, id: int, now: int, c: Contact)
    requires c in contacts && source(c).Some?
    ensures HasHash(Insert(before, contacts, source, id, now), c.project, c.id, source(c).value.kind, source(c).value.hash)
  {
    var front, rows := Front(contacts), Insert(before, Front(contacts), source, id, now);
    var all, k := Insert(before, contacts, source, id, now), source(c).value;
    if c in front {
      InsertCovers(before, front, source, id, now, c);
      var i :| 0 <= i < |rows| && KeyOf(rows[i]) == (c.project, c.id, k.kind) && rows[i].hash == k.hash;
      assert all[i] == rows[i];
    } else {
      assert c == Last(contacts);
      if !HasHash(rows, c.project, c.id, k.kind, k.hash) {
        var n := |rows|;
        assert all[n] == NewEndpoint(before, c, k, id + n, now);
        assert KeyOf(all[n]) == (c.project, c.id, k.kind) && all[n].hash == k.hash;
      }
    }
  }

  /** A contact of the SELECT has a primary endpoint afterwards if and only if
      it had one, or had no row with its hash: a known but demoted endpoint is
      not promoted. */
  lemma {:induction false} PrimaryAfterIff(before: seq<Endpoint>, contacts: seq<Contact>, source: Contact -> Option<Candidate>, kind: string, id: int, now: int, c: Contact)
    requires OneKind(contacts, source, kind) && DistinctContacts(contacts) && c in contacts && source(c).Some?
    ensures var key := (c.project, c.id, kind);
      HasPrimary(Insert(before, contacts, source, id, now), key) <==>
        HasPrimary(before, key) || !HasHash(before, c.project, c.id, kind, source(c).value.hash)
  {
    var rows := Insert(before, contacts, source, id, now);
    var key, hash := (c.project, c.id, kind), source(c).value.hash;
    InsertShape(before, contacts, source, kind, id, now);
    InsertCovers(before, contacts, source, id, now, c);
    assert forall i :: 0 <= i < |before| ==> rows[i] == before[i];
    if HasHash(before, c.project, c.id, kind, hash) {
      NoNewRow(before, contacts, source, kind, id, now, c);
    } else {
      var i :| 0 <= i < |rows| && KeyOf(rows[i]) == key && rows[i].hash == hash;
      assert rows[i].primary == !HasPrimary(before, key);
    }
  }

  lemma {:induction false} NoNewRow(before: seq<Endpoint>, contacts: seq<Contact>, source: Contact -> Option<Candidate>, kind: string, id: int, now: int, c: Contact)
    requires OneKind(contacts, source, kind) && DistinctContacts(contacts) && c in contacts && source(c).Some?
    requires HasHash(before, c.project, c.id, kind, source(c).value.hash)
    ensures forall i :: |before| <= i < |Insert(before, contacts, source, id, now)| ==> Insert(before, contacts, source, id, now)[i].user != c.id
  {
    var front, last := Front(contacts), Last(contacts);
    var rows, hash := Insert(before, front, source, id, now), source(c).value.hash;
    assert forall x :: x in front ==> x in contacts;
    assert OneKind(front, source, kind) && DistinctContacts(front);
    InsertShape(before, front, source, kind, id, now);
    assert c in contacts;
    if c in front {
      NoNewRow(before, front, source, kind, id, now, c);
      assert last.id != c.id;
    } else {
      assert c == last;
      assert forall x :: x in front ==> x.id != c.id;
      var i :| 0 <= i < |before| && KeyOf(before[i]) == (c.project, c.id, kind) && before[i].hash == hash;
      assert rows[i] == before[i];
    }
  }

  // --------------------------------------------------------------------- links

  datatype State = State(id: int, project: int, user: int, kind: string, hash: string, endpoint: Option<int>)

  /** A whatsapp verification is of a phone endpoint. */
  function EndpointKind(kind: string): string { if kind == "whatsapp" then "phone" else kind }

  predicate Fits(s: State, e: Endpoint) { KeyOf(e) == (s.project, s.user, EndpointKind(s.kind)) && e.hash == s.hash }

  function Match(endpoints: seq<Endpoint>, s: State): Option<Endpoint> { First(endpoints, (e: Endpoint) => Fits(s, e)) }

  function LinkOne(endpoints: seq<Endpoint>, s: State): State {
    if s.endpoint.Some? then s
    else
      var found := Match(endpoints, s);
      if found.Some? then s.(endpoint := Some(found.value.id)) else s
  }

  function LinkAll(endpoints: seq<Endpoint>, states: seq<State>): seq<State> {
    seq(|states|, i requires 0 <= i < |states| => LinkOne(endpoints, states[i]))
  }

  predicate Clash(s: State, t: State) {
    s.endpoint.Some? && t.endpoint.Some? && (s.project, s.endpoint, s.kind) == (t.project, t.endpoint, t.kind)
  }

  /** uq_contact_verify_state_ep. */
  ghost predicate EndpointsDistinct(states: seq<State>) {
    forall i, j :: 0 <= i < j < |states| ==> !Clash(states[i], states[j])
  }

  /** uq_contact_verify_state_legacy. */
  ghost predicate LegacyDistinct(states: seq<State>) {
    forall i, j :: 0 <= i < j < |states| && states[i].endpoint.None? && states[j].endpoint.None? ==>
      (states[i].project, states[i].user, states[i].kind) != (states[j].project, states[j].user, states[j].kind)
  }

  /** An unlinked state would get the endpoint that a linked one has. */
  predicate Takes(endpoints: seq<Endpoint>, s: State, t: State) {
    s.endpoint.None? && t.endpoint.Some? && LinkOne(endpoints, s).endpoint == t.endpoint && s.project == t.project && s.kind == t.kind
  }

  /** An unlinked state's endpoint is already taken by a linked one. */
  ghost predicate Taken(endpoints: seq<Endpoint>, states: seq<State>) {
    exists i, j :: 0 <= i < |states| && 0 <= j < |states| && Takes(endpoints, states[i], states[j])
  }

  lemma SameEndpoint(endpoints: seq<Endpoint>, e: Endpoint, f: Endpoint)
    requires DistinctIds(EndpointIds(endpoints)) && e in endpoints && f in endpoints && e.id == f.id
    ensures e == f
  {
    var i :| 0 <= i < |endpoints| && endpoints[i] == e;
    var j :| 0 <= j < |endpoints| && endpoints[j] == f;
    assert EndpointIds(endpoints)[i] == EndpointIds(endpoints)[j];
  }

  /** No state has a choice of endpoints. */
  lemma OneMatch(endpoints: seq<Endpoint>, s: State, e: Endpoint, f: Endpoint)
    requires DistinctHashes(endpoints) && e in endpoints && f in endpoints && Fits(s, e) && Fits(s, f)
    ensures e == f && Match(endpoints, s) == Some(e)
  {
    Unique(endpoints, e, f);
    Unique(endpoints, e, Match(endpoints, s).value);
  }

  lemma Unique(endpoints: seq<Endpoint>, e: Endpoint, f: Endpoint)
    requires DistinctHashes(endpoints) && e in endpoints && f in endpoints && KeyOf(e) == KeyOf(f) && e.hash == f.hash
    ensures e == f
  {
    var i :| 0 <= i < |endpoints| && endpoints[i] == e;
    var j :| 0 <= j < |endpoints| && endpoints[j] == f;
    assert i == j;
  }

  /** Two states that link now to the same endpoint in the same kind of
      verification would have been the same legacy row. */
  lemma NewLinksDiffer(endpoints: seq<Endpoint>, a: State, b: State)
    requires DistinctIds(EndpointIds(endpoints)) && a.endpoint.None? && b.endpoint.None?
    requires LinkOne(endpoints, a).endpoint.Some? && LinkOne(endpoints, a).endpoint == LinkOne(endpoints, b).endpoint
    ensures a.project == b.project && a.user == b.user
  {
    SameEndpoint(endpoints, Match(endpoints, a).value, Match(endpoints, b).value);
  }

  /** Linking keeps both partial unique rules if and only if no endpoint is
      already taken in that way; the legacy rule it keeps always. */
  lemma LinkKeepsIff(endpoints: seq<Endpoint>, states: seq<State>)
    requires DistinctIds(EndpointIds(endpoints)) && EndpointsDistinct(states) && LegacyDistinct(states)
    ensures LegacyDistinct(LinkAll(endpoints, states))
    ensures EndpointsDistinct(LinkAll(endpoints, states)) <==> !Taken(endpoints, states)
  {
    var linked := LinkAll(endpoints, states);
    if !Taken(endpoints, states) {
      forall i, j | 0 <= i < j < |states| ensures !Clash(linked[i], linked[j]) {
        PairKept(endpoints, states, i, j);
      }
    }
    if i, j :| 0 <= i < |states| && 0 <= j < |states| && Takes(endpoints, states[i], states[j]) {
      assert linked[j] == states[j];
      assert Clash(linked[i], linked[j]) && Clash(linked[j], linked[i]);
    }
  }

  lemma PairKept(endpoints: seq<Endpoint>, states: seq<State>, i: nat, j: nat)
    requires DistinctIds(EndpointIds(endpoints)) && EndpointsDistinct(states) && LegacyDistinct(states) && !Taken(endpoints, states)
    requires i < j < |states|
    ensures !Clash(LinkOne(endpoints, states[i]), LinkOne(endpoints, states[j]))
  {
    hide LinkOne;
    var s, t := states[i], states[j];
    LinkKeeps(endpoints, s);
    LinkKeeps(endpoints, t);
    assert !Takes(endpoints, s, t) && !Takes(endpoints, t, s) && !Clash(s, t);
    if s.endpoint.None? && t.endpoint.None? && Clash(LinkOne(endpoints, s), LinkOne(endpoints, t)) {
      NewLinksDiffer(endpoints, s, t);
    }
  }

  lemma LinkKeeps(endpoints: seq<Endpoint>, s: State)
    ensures var t := LinkOne(endpoints, s);
      t == s.(endpoint := t.endpoint) && (s.endpoint.Some? ==> t == s)
  {
  }

  /** From a table under revision 137's constraint nothing can be taken: there
      the migration's links never violate either index. */
  lemma FreshLinksAreSafe(endpoints: seq<Endpoint>, states: seq<State>)
    requires DistinctIds(EndpointIds(endpoints))
    requires forall s :: s in states ==> s.endpoint.None?
    requires forall i, j :: 0 <= i < j < |states| ==> (states[i].project, states[i].user, states[i].kind) != (states[j].project, states[j].user, states[j].kind)
    ensures EndpointsDistinct(LinkAll(endpoints, states)) && LegacyDistinct(LinkAll(endpoints, states))
  {
    LinkKeepsIff(endpoints, states);
  }

  // ---------------------------------------------------------------- the steps

  class Rows {
    var endpoints: seq<Endpoint>
    var senders: seq<Sender>
    var states: seq<State>
    const contacts: seq<Contact>
    const now: int

    constructor (endpoints: seq<Endpoint>, senders: seq<Sender>, states: seq<State>, contacts: seq<Contact>, now: int)
      ensures this.endpoints == endpoints && this.senders == senders && this.states == states
      ensures this.contacts == contacts && this.now == now
    {
      this.endpoints, this.senders, this.states, this.contacts, this.now := endpoints, senders, states, contacts, now;
    }

    /** The two ranked repairs, before the two partial unique indexes. */
    method KeepOne()
      requires DistinctIds(EndpointIds(endpoints)) && DistinctIds(SenderIds(senders))
      modifies this`endpoints, this`senders
      ensures endpoints == Dedupe(old(endpoints), PrimaryRepair()) && OnePerKey(endpoints, PrimaryRepair())
      ensures senders == Dedupe(old(senders), DefaultRepair()) && OnePerKey(senders, DefaultRepair())
    {
      hide Dedupe, RepairOk, OnePerKey;
      RepairsAreOk(endpoints, senders);
      OneSurvivor(endpoints, PrimaryRepair());
      OneSurvivor(senders, DefaultRepair());
      endpoints := Dedupe(endpoints, PrimaryRepair());
      senders := Dedupe(senders, DefaultRepair());
    }

    /** The email insert, then the phone insert. */
    method InsertEndpoints(id: int)
      requires DistinctContacts(contacts) && OnePerKey(endpoints, PrimaryRepair()) && DistinctHashes(endpoints)
      requires DistinctIds(EndpointIds(endpoints)) && forall e :: e in endpoints ==> e.id < id + |endpoints|
      modifies this`endpoints
      ensures endpoints == Insert(Insert(old(endpoints), contacts, EmailOf, id, now), contacts, PhoneOf, id, now)
      ensures OnePerKey(endpoints, PrimaryRepair()) && DistinctHashes(endpoints) && DistinctIds(EndpointIds(endpoints))
    {
      hide OnePerKey, DistinctHashes, DistinctIds, Insert;
      InsertKeepsIds(endpoints, contacts, EmailOf, id, now);
      InsertKeepsIds(Insert(endpoints, contacts, EmailOf, id, now), contacts, PhoneOf, id, now);
      InsertKeepsOnePrimary(endpoints, contacts, EmailOf, "email", id, now);
      InsertKeepsHashes(endpoints, contacts, EmailOf, id, now);
      endpoints := Insert(endpoints, contacts, EmailOf, id, now);
      InsertKeepsOnePrimary(endpoints, contacts, PhoneOf, "phone", id, now);
      InsertKeepsHashes(endpoints, contacts, PhoneOf, id, now);
      endpoints := Insert(endpoints, contacts, PhoneOf, id, now);
    }

    /** The link statement; it fails, and changes nothing, when the index of
        linked states would be violated. */
    method LinkStates() returns (failed: bool)
      requires DistinctIds(EndpointIds(endpoints)) && EndpointsDistinct(states) && LegacyDistinct(states)
      modifies this`states
      ensures EndpointsDistinct(states) && LegacyDistinct(states)
      ensures failed <==> Taken(endpoints, old(states))
      ensures states == if failed then old(states) else LinkAll(endpoints, old(states))
    {
      LinkKeepsIff(endpoints, states);
      var linked := LinkAll(endpoints, states);
      failed := exists i, j :: 0 <= i < j < |linked| && Clash(linked[i], linked[j]);
      if !failed {
        states := linked;
      }
    }
  }
}
