/** The check-in dashboard: every team document of the attendee collection
    becomes a flat list of check-in entities (the leader held in the root
    fields, then the named entries of `members`), sorted by name; the header
    counts them; a QR code is offered per entity; and a confirmed click
    toggles one entity's check-in flag in the store. */
module CheckInDashboard {
  import opened Json
  import opened Ordering
  import opened Store

  /** One row of the dashboard. `memberIndex` is the position in `members`
      (absent for the leader). */
  datatype Attendee = Attendee(
    id: string,
    uniqueId: string,
    name: string,
    eventName: Value,
    barcode: Value,
    role: string,
    checkedIn: bool,
    isLeader: bool,
    memberIndex: Option<nat>,
    team: Value)

  /** `data.event || data.eventName || "Innovate 2026"` */
  function EventName(d: Doc): (r: Value)
    ensures Truthy(r)
    ensures r == Get(d, "event") || r == Get(d, "eventName") || r == Str("Innovate 2026")
    ensures Truthy(Get(d, "event")) ==> r == Get(d, "event")
    ensures Truthy(Get(d, "eventName")) ==> r == Get(d, "event") || r == Get(d, "eventName")
  {
    Or(Or(Get(d, "event"), Get(d, "eventName")), Str("Innovate 2026"))
  }

  /** `data.team || "Individual"` */
  function TeamName(d: Doc): (r: Value)
    ensures Truthy(r)
    ensures Truthy(Get(d, "team")) <==> r == Get(d, "team")
    ensures !Truthy(Get(d, "team")) ==> r == Str("Individual")
  {
    Or(Get(d, "team"), Str("Individual"))
  }

  /** The leader entity, present when the root `name` is truthy. */
  function Leader(docId: string, d: Doc): Option<Attendee> {
    if Truthy(Get(d, "name")) then
      var team := TeamName(d);
      Some(Attendee(docId, docId + "_leader", ToText(Get(d, "name")), EventName(d),
                    Or(Get(d, "ticketId"), Str(docId)), "Leader - " + ToText(team),
                    Truthy(Get(d, "checkedIn")), true, None, team))
    else None
  }

  /** `data.members` when it is an array, otherwise no members. */
  function MembersOf(d: Doc): seq<Value> {
    var m := Get(d, "members");
    if m.Arr? then m.items else []
  }

  predicate Named(m: Value) {
    Truthy(Get(Fields(m), "name"))
  }

  /** The entity built for the member at `index` of the members array. */
  function MemberAttendee(docId: string, d: Doc, m: Value, index: nat): Attendee {
    var team := TeamName(d);
    var f := Fields(m);
    Attendee(docId, docId + "_member_" + NatText(index), ToText(Get(f, "name")), EventName(d),
             Or(Get(f, "ticketId"), Str("N/A")), "Member - " + ToText(team),
             Truthy(Get(f, "checkedIn")), false, Some(index), team)
  }

  /** Entities of the first `n` members, in array order, unnamed ones skipped. */
  function MemberEntities(docId: string, d: Doc, ms: seq<Value>, n: nat): seq<Attendee>
    requires n <= |ms|
  {
    if n == 0 then []
    else MemberEntities(docId, d, ms, n - 1)
         + (if Named(ms[n - 1]) then [MemberAttendee(docId, d, ms[n - 1], n - 1)] else [])
  }

  /** Number of named members among the first `n`. */
  function NamedCount(ms: seq<Value>, n: nat): nat
    requires n <= |ms|
  {
    if n == 0 then 0 else NamedCount(ms, n - 1) + (if Named(ms[n - 1]) then 1 else 0)
  }

  function LeaderPart(docId: string, d: Doc): seq<Attendee> {
    match Leader(docId, d)
    case Some(l) => [l]
    case None => []
  }

  /** All entities of one document: the leader first, then the members. */
  function DocEntities(docId: string, d: Doc): seq<Attendee> {
    LeaderPart(docId, d) + MemberEntities(docId, d, MembersOf(d), |MembersOf(d)|)
  }

  lemma CollectStep(snap: seq<Entry>, i: nat)
    requires i < |snap|
    ensures Collect(snap[..i + 1]) == Collect(snap[..i]) + DocEntities(snap[i].id, snap[i].data)
  {
    assert snap[..i + 1][..i] == snap[..i];
  }

  /** Entities of a whole snapshot, document after document. */
  function Collect(snap: seq<Entry>): seq<Attendee> {
    if snap == [] then []
    else Collect(snap[..|snap| - 1]) + DocEntities(snap[|snap| - 1].id, snap[|snap| - 1].data)
  }

  /** The dashboard's comparator: by name. */
  predicate NameLe(a: Attendee, b: Attendee) {
    TextLe(a.name, b.name)
  }

  lemma NameLeIsTotalPreorder()
    ensures TotalPreorder(NameLe)
  {
    forall a: Attendee, b: Attendee ensures NameLe(a, b) || NameLe(b, a) {
      TextLeTotal(a.name, b.name);
    }
    forall a: Attendee, b: Attendee, c: Attendee | NameLe(a, b) && NameLe(b, c)
      ensures NameLe(a, c)
    {
      TextLeTransitive(a.name, b.name, c.name);
    }
  }

  /** The body of the per-document callback: pushes the leader, when named,
      then every named member, onto `parsed`. */
  method PushDocument(parsed: seq<Attendee>, docId: string, data: Doc) returns (out: seq<Attendee>)
    ensures out == parsed + DocEntities(docId, data)
  {
    out := parsed;
    var leader := Leader(docId, data);
    if leader.Some? {
      out := out + [leader.value];
    }
    var members := Get(data, "members");
    if members.Arr? {
      var ms := members.items;
      var j := 0;
      while j < |ms|
        invariant 0 <= j <= |ms|
        invariant out == parsed + (LeaderPart(docId, data) + MemberEntities(docId, data, ms, j))
      {
        if Named(ms[j]) {
          out := out + [MemberAttendee(docId, data, ms[j], j)];
        }
        j := j + 1;
      }
      assert MembersOf(data) == ms;
    } else {
      assert MembersOf(data) == [];
    }
  }

  /** The snapshot listener: walks the documents, pushes each document's
      entities, then sorts the list by name. The result is a permutation of
      the collected entities, in name order. */
  method Normalize(snap: seq<Entry>) returns (attendees: seq<Attendee>)
    ensures attendees == SortBy(Collect(snap), NameLe)
    ensures multiset(attendees) == multiset(Collect(snap))
    ensures Sorted(attendees, NameLe)
  {
    var parsed: seq<Attendee> := [];
    var i := 0;
    while i < |snap|
      invariant 0 <= i <= |snap|
      invariant parsed == Collect(snap[..i])
    {
      parsed := PushDocument(parsed, snap[i].id, snap[i].data);
      CollectStep(snap, i);
      i := i + 1;
    }
    assert snap[..|snap|] == snap;
    NameLeIsTotalPreorder();
    SortBySorted(parsed, NameLe);
    attendees := SortBy(parsed, NameLe);
  }

  lemma {:induction false} MemberEntitiesCount(docId: string, d: Doc, ms: seq<Value>, n: nat)
    requires n <= |ms|
    ensures |MemberEntities(docId, d, ms, n)| == NamedCount(ms, n)
  {
    if n > 0 {
      MemberEntitiesCount(docId, d, ms, n - 1);
    }
  }

  /** Every member entity is the entity of a named member, at the index it
      carries. */
  lemma {:induction false} MemberEntitiesFromNamed(docId: string, d: Doc, ms: seq<Value>, n: nat, k: nat)
    requires n <= |ms| && k < |MemberEntities(docId, d, ms, n)|
    ensures var e := MemberEntities(docId, d, ms, n)[k];
      && e.memberIndex.Some? && e.memberIndex.value < n && Named(ms[e.memberIndex.value])
      && e == MemberAttendee(docId, d, ms[e.memberIndex.value], e.memberIndex.value)
  {
    var prev := MemberEntities(docId, d, ms, n - 1);
    if k < |prev| {
      MemberEntitiesFromNamed(docId, d, ms, n - 1, k);
    }
  }

  /** Member entities keep the array order: their indices strictly ascend. */
  lemma {:induction false} MemberEntitiesAscending(docId: string, d: Doc, ms: seq<Value>, n: nat, k: nat, l: nat)
    requires n <= |ms| && k < l < |MemberEntities(docId, d, ms, n)|
    ensures var a, b := MemberEntities(docId, d, ms, n)[k].memberIndex, MemberEntities(docId, d, ms, n)[l].memberIndex;
      a.Some? && b.Some? && a.value < b.value
  {
    var prev := MemberEntities(docId, d, ms, n - 1);
    MemberEntitiesFromNamed(docId, d, ms, n, k);
    MemberEntitiesFromNamed(docId, d, ms, n, l);
    MemberEntitiesFromNamed(docId, d, ms, n - 1, k);
    if l < |prev| {
      MemberEntitiesAscending(docId, d, ms, n - 1, k, l);
    }
  }

  /** Every named member is represented. */
  lemma {:induction false} MemberEntitiesCover(docId: string, d: Doc, ms: seq<Value>, n: nat, i: nat)
    requires i < n <= |ms| && Named(ms[i])
    ensures exists k :: 0 <= k < |MemberEntities(docId, d, ms, n)| && MemberEntities(docId, d, ms, n)[k].memberIndex == Some(i)
  {
    var prev := MemberEntities(docId, d, ms, n - 1);
    var cur := MemberEntities(docId, d, ms, n);
    if i == n - 1 {
      assert cur[|prev|].memberIndex == Some(i);
    } else {
      MemberEntitiesCover(docId, d, ms, n - 1, i);
      var k :| 0 <= k < |prev| && prev[k].memberIndex == Some(i);
      assert cur[k] == prev[k];
    }
  }

  /** Per document: one entity for a named leader plus one per named member. */
  lemma DocEntitiesCount(docId: string, d: Doc)
    ensures |DocEntities(docId, d)| ==
      (if Truthy(Get(d, "name")) then 1 else 0) + NamedCount(MembersOf(d), |MembersOf(d)|)
  {
    MemberEntitiesCount(docId, d, MembersOf(d), |MembersOf(d)|);
  }

  /** The leader entity exists exactly when the root name is truthy, and
      carries the document id, the `_leader` key, the ticket or else the
      document id as barcode, and the team defaults. */
  lemma LeaderShape(docId: string, d: Doc)
    ensures Leader(docId, d).Some? <==> Truthy(Get(d, "name"))
    ensures Leader(docId, d).Some? ==>
      var l := Leader(docId, d).value;
      && l.id == docId && l.uniqueId == docId + "_leader" && l.isLeader
      && l.memberIndex.None?
      && (Truthy(Get(d, "ticketId")) ==> l.barcode == Get(d, "ticketId"))
      && (!Truthy(Get(d, "ticketId")) ==> l.barcode == Str(docId))
      && l.role == "Leader - " + ToText(l.team)
      && (Truthy(Get(d, "team")) ==> l.team == Get(d, "team"))
      && (!Truthy(Get(d, "team")) ==> l.team == Str("Individual"))
    ensures DocEntities(docId, d) != [] && Truthy(Get(d, "name")) ==>
      DocEntities(docId, d)[0] == Leader(docId, d).value
  {
  }

  // ---------------------------------------------------------------- stats

  datatype Stats = Stats(total: nat, checkedIn: nat, pending: nat)

  /** Number of entities whose check-in flag equals `status`. */
  function CountStatus(list: seq<Attendee>, status: bool): nat {
    if list == [] then 0
    else (if list[0].checkedIn == status then 1 else 0) + CountStatus(list[1..], status)
  }

  lemma {:induction false} CountStatusSplit(list: seq<Attendee>)
    ensures CountStatus(list, true) + CountStatus(list, false) == |list|
  {
    if list != [] {
      CountStatusSplit(list[1..]);
    }
  }

  /** The header counters: every entity is either checked in or pending. */
  function StatsOf(list: seq<Attendee>): (s: Stats)
    ensures s.total == |list|
    ensures s.total == s.checkedIn + s.pending
  {
    CountStatusSplit(list);
    Stats(|list|, CountStatus(list, true), CountStatus(list, false))
  }

  // ---------------------------------------------------------------- QR code

  /** The text encoded in an entity's QR code: its barcode, unless that is
      missing or the member placeholder "N/A", in which case the document id. */
  function CodeToEncode(a: Attendee): (r: Value)
    ensures r == a.barcode || r == Str(a.id)
    ensures r == a.barcode <== Truthy(a.barcode) && a.barcode != Str("N/A")
    ensures !(Truthy(a.barcode) && a.barcode != Str("N/A")) ==> r == Str(a.id)
    ensures r != Str("N/A") || a.id == "N/A"
  {
    if Truthy(a.barcode) && a.barcode != Str("N/A") then a.barcode else Str(a.id)
  }

  /** A member without a ticket gets the code of its parent document, so the
      scanner, which looks codes up as document ids, opens that document. */
  lemma QrCodeOfTicketlessMember(docId: string, d: Doc, m: Value, index: nat)
    requires !Truthy(Get(Fields(m), "ticketId"))
    ensures CodeToEncode(MemberAttendee(docId, d, m, index)) == Str(docId)
  {
  }

  /** The leader's code is its ticket, or else the document id. */
  lemma QrCodeOfLeader(docId: string, d: Doc)
    requires Leader(docId, d).Some?
    requires Get(d, "ticketId") != Str("N/A")
    ensures CodeToEncode(Leader(docId, d).value) == Or(Get(d, "ticketId"), Str(docId))
  {
  }

  // ---------------------------------------------------------------- toggle

  /** `[...(data.members || [])]`: the members array, the one-character
      strings of a string, no members for a falsy value, and a failed spread
      (no write) for any other value. */
  function MembersCopy(d: Doc): Option<seq<Value>> {
    Items(Get(d, "members"))
  }

  /** The member entry with its check-in flag negated and its check-in time
      set to `iso` on checking in and to null on checking out. */
  function FlipMember(m: Value, iso: string): (r: Value)
    ensures r.Obj?
    ensures Truthy(Get(Fields(r), "checkedIn")) == !Truthy(Get(Fields(m), "checkedIn"))
    ensures Truthy(Get(Fields(r), "checkedIn")) <==> Get(Fields(r), "checkInTime") != Null
    ensures Fields(r).Keys == Fields(m).Keys + {"checkedIn", "checkInTime"}
    ensures forall k :: k in Fields(m) && k != "checkedIn" && k != "checkInTime" ==>
      Fields(r)[k] == Fields(m)[k]
  {
    var f := Fields(m);
    var current := Truthy(Get(f, "checkedIn"));
    Obj(f["checkedIn" := Bool(!current)]["checkInTime" := if !current then Str(iso) else Null])
  }

  /** The `{ members }` update a member toggle writes, or nothing when the
      entity has no index or the indexed entry is missing or falsy. */
  function MemberUpdate(d: Doc, index: Option<nat>, iso: string): Option<Doc> {
    match MembersCopy(d)
    case None => None
    case Some(ms) =>
      if index.Some? && index.value < |ms| && Truthy(ms[index.value]) then
        Some(map["members" := Arr(ms[index.value := FlipMember(ms[index.value], iso)])])
      else None
  }

  /** The leader toggle: the root flag becomes the negation of the flag the
      entity showed, with a server timestamp on checking in and null otherwise. */
  function LeaderUpdate(a: Attendee, now: nat): (u: Doc)
    ensures u.Keys == {"checkedIn", "checkInTime"}
    ensures u["checkedIn"] == Bool(!a.checkedIn)
    ensures u["checkInTime"] != Null <==> !a.checkedIn
  {
    map["checkedIn" := Bool(!a.checkedIn), "checkInTime" := if !a.checkedIn then Stamp(now) else Null]
  }

  /** The store after `toggleCheckIn`. Nothing is written when the operator
      does not confirm or the document is missing. */
  function Toggle(docs: map<string, Doc>, a: Attendee, confirmed: bool, now: nat, iso: string): map<string, Doc> {
    if !confirmed || a.id !in docs then docs
    else if a.isLeader then docs[a.id := Merge(docs[a.id], LeaderUpdate(a, now))]
    else match MemberUpdate(docs[a.id], a.memberIndex, iso)
      case None => docs
      case Some(u) => docs[a.id := Merge(docs[a.id], u)]
  }

  /** `toggleCheckIn`: confirm, then update the root fields of a leader, or
      re-read the document and rewrite its members array for a member. */
  method ToggleCheckIn(store: Collection, a: Attendee, confirmed: bool, now: nat, iso: string)
    modifies store
    ensures store.docs == Toggle(old(store.docs), a, confirmed, now, iso)
  {
    if !confirmed {
      return;
    }
    if a.isLeader {
      var _ := store.UpdateDoc(a.id, LeaderUpdate(a, now));
    } else {
      var snap := store.GetDoc(a.id);
      if snap.None? {
        return;
      }
      var update := MemberUpdate(snap.value, a.memberIndex, iso);
      if update.Some? {
        var _ := store.UpdateDoc(a.id, update.value);
      }
    }
  }

  /** A member toggle changes only `members[i]`: the array keeps its length,
      the other entries and the other fields of the document. */
  lemma MemberToggleFrame(docs: map<string, Doc>, a: Attendee, now: nat, iso: string, i: nat)
    requires a.id in docs && !a.isLeader && a.memberIndex == Some(i)
    requires MemberUpdate(docs[a.id], a.memberIndex, iso).Some?
    ensures var after := Toggle(docs, a, true, now, iso);
      && after.Keys == docs.Keys
      && (forall id :: id in docs && id != a.id ==> after[id] == docs[id])
      && (forall k :: k in docs[a.id] && k != "members" ==> after[a.id][k] == docs[a.id][k])
      && MembersOf(after[a.id]) == MembersCopy(docs[a.id]).value[i := FlipMember(MembersCopy(docs[a.id]).value[i], iso)]
      && i < |MembersOf(after[a.id])|
      && Truthy(Get(Fields(MembersOf(after[a.id])[i]), "checkedIn")) == !Truthy(Get(Fields(MembersCopy(docs[a.id]).value[i]), "checkedIn"))
  {
  }

  /** No write when the document is missing or the index names no entry. */
  lemma MemberToggleNoWrite(docs: map<string, Doc>, a: Attendee, now: nat, iso: string)
    requires !a.isLeader
    requires a.id !in docs || MemberUpdate(docs[a.id], a.memberIndex, iso).None?
    ensures Toggle(docs, a, true, now, iso) == docs
  {
  }

  /** Toggling an entity the dashboard derived from the stored document flips
      exactly that entity: re-deriving the document gives the same entity with
      its flag negated, and every other entity of the document is unchanged. */
  lemma ToggleFlipsMemberEntity(docs: map<string, Doc>, docId: string, i: nat, j: nat, now: nat, iso: string)
    requires docId in docs
    requires i < |MembersOf(docs[docId])| && Named(MembersOf(docs[docId])[i])
    requires j < |MembersOf(docs[docId])|
    ensures var d := docs[docId];
      var a := MemberAttendee(docId, d, MembersOf(d)[i], i);
      var d' := Toggle(docs, a, true, now, iso)[docId];
      && |MembersOf(d')| == |MembersOf(d)|
      && MemberAttendee(docId, d', MembersOf(d')[i], i) == a.(checkedIn := !a.checkedIn)
      && (j != i ==> MemberAttendee(docId, d', MembersOf(d')[j], j) == MemberAttendee(docId, d, MembersOf(d)[j], j))
      && Leader(docId, d') == Leader(docId, d)
  {
    var d := docs[docId];
    var ms := MembersOf(d);
    var m := ms[i];
    assert Truthy(m);
    var d' := Toggle(docs, MemberAttendee(docId, d, m, i), true, now, iso)[docId];
    var flipped := FlipMember(m, iso);
    assert d' == d["members" := Arr(ms[i := flipped])];
    assert MembersOf(d') == ms[i := flipped];
    SameRootSameEntities(docId, d, d', flipped, i);
    SameRootSameEntities(docId, d, d', ms[j], j);
    assert Get(Fields(flipped), "name") == Get(Fields(m), "name");
    assert Get(Fields(flipped), "ticketId") == Get(Fields(m), "ticketId");
  }

  /** A `members` value that is a string is spread into its characters: the
      indexed one-character entry is rewritten and the array is written back. */
  lemma ToggleSpreadsString(docs: map<string, Doc>, a: Attendee, s: string, i: nat, now: nat, iso: string)
    requires a.id in docs && !a.isLeader && a.memberIndex == Some(i)
    requires Get(docs[a.id], "members") == Str(s) && i < |s|
    ensures var after := Toggle(docs, a, true, now, iso);
      && a.id in after && "members" in after[a.id]
      && after[a.id]["members"] == Arr(Chars(s)[i := FlipMember(Str([s[i]]), iso)])
  {
    var d := docs[a.id];
    var u := map["members" := Arr(Chars(s)[i := FlipMember(Str([s[i]]), iso)])];
    StringMemberUpdate(d, s, i, iso);
    var after := Toggle(docs, a, true, now, iso);
    assert after == docs[a.id := Merge(d, u)];
    assert after[a.id] == d + u;
  }

  lemma StringMemberUpdate(d: Doc, s: string, i: nat, iso: string)
    requires Get(d, "members") == Str(s) && i < |s|
    ensures MemberUpdate(d, Some(i), iso) ==
      Some(map["members" := Arr(Chars(s)[i := FlipMember(Str([s[i]]), iso)])])
  {
    var ms := Chars(s);
    assert ms[i] == Str([s[i]]);
    assert Truthy(ms[i]);
  }

  /** Entities depend on the document only through its root fields other
      than `members`. */
  lemma SameRootSameEntities(docId: string, d: Doc, d': Doc, m: Value, index: nat)
    requires forall k :: k != "members" ==> Get(d', k) == Get(d, k)
    ensures Leader(docId, d') == Leader(docId, d)
    ensures MemberAttendee(docId, d', m, index) == MemberAttendee(docId, d, m, index)
  {
    assert Get(d', "name") == Get(d, "name") && Get(d', "team") == Get(d, "team");
    assert Get(d', "event") == Get(d, "event") && Get(d', "eventName") == Get(d, "eventName");
    assert Get(d', "ticketId") == Get(d, "ticketId") && Get(d', "checkedIn") == Get(d, "checkedIn");
  }

  /** A leader toggle of the displayed entity flips the leader's flag and
      leaves the members array alone. */
  lemma ToggleFlipsLeaderEntity(docs: map<string, Doc>, docId: string, now: nat, iso: string)
    requires docId in docs && Leader(docId, docs[docId]).Some?
    ensures var d := docs[docId];
      var a := Leader(docId, d).value;
      var d' := Toggle(docs, a, true, now, iso)[docId];
      && Leader(docId, d') == Some(a.(checkedIn := !a.checkedIn))
      && MembersOf(d') == MembersOf(d)
      && (Get(d', "checkInTime") != Null <==> !a.checkedIn)
  {
    var d := docs[docId];
    var a := Leader(docId, d).value;
    var d' := Toggle(docs, a, true, now, iso)[docId];
    assert d' == Merge(d, LeaderUpdate(a, now));
    assert Get(d', "name") == Get(d, "name") && Get(d', "team") == Get(d, "team");
    assert Get(d', "event") == Get(d, "event") && Get(d', "eventName") == Get(d, "eventName");
    assert Get(d', "ticketId") == Get(d, "ticketId") && Get(d', "members") == Get(d, "members");
  }
}
