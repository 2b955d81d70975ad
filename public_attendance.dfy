/** The public attendee list: the snapshot of the attendee collection is
    flattened into one row per named person, the rows are grouped by team,
    groups are ordered by team name and each group's rows leader first, then
    by name; a search term then filters the rows and drops emptied groups. */
module PublicAttendance {
  import opened Json
  import opened Ordering
  import opened Store

  /** One row of the list. Names and teams are held as the text they render. */
  datatype Person = Person(
    id: string,
    uniqueId: string,
    name: string,
    checkedIn: bool,
    isLeader: bool,
    team: string)

  /** One team's table section. */
  datatype Group = Group(id: string, teamName: string, members: seq<Person>)

  // ------------------------------------------------------------ flattening

  /** The row `add(name, status, isLeader, teamName)` pushes for a truthy
      name: the team falls back to the document's `team_name`, then
      "Individual". */
  function PersonOf(docId: string, d: Doc, name: Value, status: Value, isLeader: bool, teamName: Value): Person {
    var team := Or(teamName, Or(Get(d, "team_name"), Str("Individual")));
    Person(docId + "_" + ToText(name), docId + "_" + ToText(name), ToText(name), Truthy(status), isLeader, ToText(team))
  }

  function Add(docId: string, d: Doc, name: Value, status: Value, isLeader: bool, teamName: Value): seq<Person> {
    if Truthy(name) then [PersonOf(docId, d, name, status, isLeader, teamName)] else []
  }

  function LeaderRows(docId: string, d: Doc): seq<Person> {
    if Truthy(Get(d, "name")) then Add(docId, d, Get(d, "name"), Get(d, "checkedIn"), true, Get(d, "team"))
    else []
  }

  /** `data.members` when it is an array. */
  function MemberList(d: Doc): seq<Value> {
    if Get(d, "members").Arr? then Get(d, "members").items else []
  }

  /** Rows of the first `n` array members, in array order. */
  function MemberRows(docId: string, d: Doc, ms: seq<Value>, n: nat): seq<Person>
    requires n <= |ms|
  {
    if n == 0 then []
    else MemberRows(docId, d, ms, n - 1) + MemberRow(docId, d, ms[n - 1])
  }

  /** The row a member array element pushes, if any. */
  function MemberRow(docId: string, d: Doc, member: Value): seq<Person> {
    Add(docId, d, Get(Fields(member), "name"), Get(Fields(member), "checkedIn"), false, Get(d, "team"))
  }

  function DocRows(docId: string, d: Doc): seq<Person> {
    LeaderRows(docId, d) + MemberRows(docId, d, MemberList(d), |MemberList(d)|)
  }

  /** `rawList` after the snapshot's documents have been walked. */
  function Flatten(snap: seq<Entry>): seq<Person> {
    if snap == [] then []
    else Flatten(snap[..|snap| - 1]) + DocRows(snap[|snap| - 1].id, snap[|snap| - 1].data)
  }

  lemma FlattenStep(snap: seq<Entry>, i: nat)
    requires i < |snap|
    ensures Flatten(snap[..i + 1]) == Flatten(snap[..i]) + DocRows(snap[i].id, snap[i].data)
  {
    assert snap[..i + 1][..i] == snap[..i];
  }

  /** One document's pushes: the leader when named, then each named member. */
  method PushRows(rawList: seq<Person>, docId: string, data: Doc) returns (out: seq<Person>)
    ensures out == rawList + DocRows(docId, data)
  {
    out := rawList;
    if Truthy(Get(data, "name")) {
      out := out + Add(docId, data, Get(data, "name"), Get(data, "checkedIn"), true, Get(data, "team"));
    }
    assert out == rawList + LeaderRows(docId, data);
    var members := Get(data, "members");
    if members.Arr? {
      out := PushMembers(out, docId, data, members.items);
    }
  }

  /** The `forEach` over a member array. */
  method PushMembers(rows: seq<Person>, docId: string, data: Doc, ms: seq<Value>) returns (out: seq<Person>)
    ensures out == rows + MemberRows(docId, data, ms, |ms|)
  {
    out := rows;
    var j := 0;
    while j < |ms|
      invariant 0 <= j <= |ms|
      invariant out == rows + MemberRows(docId, data, ms, j)
    {
      out := PushMember(out, docId, data, ms[j]);
      MemberRowsStep(docId, data, ms, j);
      j := j + 1;
    }
  }

  lemma MemberRowsStep(docId: string, d: Doc, ms: seq<Value>, j: nat)
    requires j < |ms|
    ensures MemberRows(docId, d, ms, j + 1)
         == MemberRows(docId, d, ms, j) + MemberRow(docId, d, ms[j])
  {
  }

  /** One member's push: a row when the member is named. */
  method PushMember(rows: seq<Person>, docId: string, data: Doc, member: Value) returns (out: seq<Person>)
    ensures out == rows + MemberRow(docId, data, member)
  {
    var m := Fields(member);
    out := rows;
    if Truthy(Get(m, "name")) {
      out := out + [PersonOf(docId, data, Get(m, "name"), Get(m, "checkedIn"), false, Get(data, "team"))];
    }
  }

  method FlattenSnapshot(snap: seq<Entry>) returns (rawList: seq<Person>)
    ensures rawList == Flatten(snap)
  {
    rawList := [];
    var i := 0;
    while i < |snap|
      invariant 0 <= i <= |snap|
      invariant rawList == Flatten(snap[..i])
    {
      rawList := PushRows(rawList, snap[i].id, snap[i].data);
      FlattenStep(snap, i);
      i := i + 1;
    }
    assert snap[..|snap|] == snap;
  }

  /** Every row has a truthy (non-empty) name, a non-empty team, and the id
      `docId + "_" + name`; the leader row, when there is one, comes first. */
  lemma DocRowsShape(docId: string, d: Doc)
    ensures forall p :: p in DocRows(docId, d) ==> p.name != "" && p.team != "" && p.uniqueId == docId + "_" + p.name
    ensures Truthy(Get(d, "name")) <==> (DocRows(docId, d) != [] && DocRows(docId, d)[0].isLeader)
    ensures forall k :: 0 < k < |DocRows(docId, d)| ==> !DocRows(docId, d)[k].isLeader
  {
    MemberRowsShape(docId, d, MemberList(d), |MemberList(d)|);
  }

  lemma {:induction false} MemberRowsShape(docId: string, d: Doc, ms: seq<Value>, n: nat)
    requires n <= |ms|
    ensures forall p :: p in MemberRows(docId, d, ms, n) ==>
      p.name != "" && p.team != "" && p.uniqueId == docId + "_" + p.name && !p.isLeader
    ensures |MemberRows(docId, d, ms, n)| <= n
  {
    if n > 0 {
      MemberRowsShape(docId, d, ms, n - 1);
      var nm := Get(Fields(ms[n - 1]), "name");
      if Truthy(nm) {
        TruthyText(nm);
        TruthyText(Or(Get(d, "team"), Or(Get(d, "team_name"), Str("Individual"))));
      }
    }
  }

  /** The text of a truthy value is never empty. */
  lemma TruthyText(v: Value)
    requires Truthy(v)
    ensures ToText(v) != ""
  {
  }

  // -------------------------------------------------------------- grouping

  /** The keys of `groups` in the order `Object.values` lists them. */
  function Names(gs: seq<Group>): seq<string> {
    if gs == [] then [] else [gs[0].teamName] + Names(gs[1..])
  }

  /** `groups[p.team].members.push(p)`, creating the group on first use. */
  function AddToGroups(gs: seq<Group>, p: Person): (r: seq<Group>)
    ensures |r| == |gs| || |r| == |gs| + 1
  {
    if gs == [] then [Group(p.team, p.team, [p])]
    else if gs[0].teamName == p.team then [gs[0].(members := gs[0].members + [p])] + gs[1..]
    else [gs[0]] + AddToGroups(gs[1..], p)
  }

  /** The groups built from `rawList`, in order of first appearance. */
  function Grouped(raw: seq<Person>): seq<Group> {
    if raw == [] then []
    else AddToGroups(Grouped(raw[..|raw| - 1]), raw[|raw| - 1])
  }

  /** The rows of `raw` with team `t`, in order. */
  function OfTeam(raw: seq<Person>, t: string): seq<Person> {
    if raw == [] then []
    else OfTeam(raw[..|raw| - 1], t) + (if raw[|raw| - 1].team == t then [raw[|raw| - 1]] else [])
  }

  /** Total number of rows over all groups. */
  function Size(gs: seq<Group>): nat {
    if gs == [] then 0 else |gs[0].members| + Size(gs[1..])
  }

  predicate DistinctNames(gs: seq<Group>) {
    forall i, j :: 0 <= i < j < |gs| ==> gs[i].teamName != gs[j].teamName
  }

  /** The grouping of `raw`: names are distinct, each group holds exactly the
      rows of its team in list order, every row's team has a group, and id and
      team name agree. */
  predicate Partitions(gs: seq<Group>, raw: seq<Person>) {
    && DistinctNames(gs)
    && (forall i :: 0 <= i < |gs| ==> gs[i].members == OfTeam(raw, gs[i].teamName) && gs[i].id == gs[i].teamName)
    && (forall p :: p in raw ==> p.team in Names(gs))
  }

  lemma {:induction false} NamesIndex(gs: seq<Group>, t: string)
    ensures |Names(gs)| == |gs|
    ensures forall i :: 0 <= i < |gs| ==> Names(gs)[i] == gs[i].teamName
    ensures t in Names(gs) <==> exists i :: 0 <= i < |gs| && gs[i].teamName == t
  {
    if gs != [] {
      NamesIndex(gs[1..], t);
      if t in Names(gs) && gs[0].teamName != t {
        var i :| 0 <= i < |gs[1..]| && gs[1..][i].teamName == t;
        assert gs[i + 1].teamName == t;
      }
    }
  }

  /** Adding a row extends the group of its team, or opens a new group at the
      end; the other groups are untouched and the total grows by one. */
  lemma AddToGroupsSpec(gs: seq<Group>, p: Person)
    requires DistinctNames(gs)
    ensures var r := AddToGroups(gs, p);
      && DistinctNames(r)
      && Size(r) == Size(gs) + 1
      && (forall i :: 0 <= i < |gs| && gs[i].teamName != p.team ==> r[i] == gs[i])
      && (forall i :: 0 <= i < |gs| && gs[i].teamName == p.team ==> r[i] == gs[i].(members := gs[i].members + [p]))
      && ((forall i :: 0 <= i < |gs| ==> gs[i].teamName != p.team) ==>
            |r| == |gs| + 1 && r[|gs|] == Group(p.team, p.team, [p]))
      && ((exists i :: 0 <= i < |gs| && gs[i].teamName == p.team) ==> |r| == |gs|)
  {
    AddToGroupsFrame(gs, p);
    AddToGroupsSize(gs, p);
    AddToGroupsDistinct(gs, p);
  }

  /** Adding a row adds one to the total. */
  lemma {:induction false} AddToGroupsSize(gs: seq<Group>, p: Person)
    ensures Size(AddToGroups(gs, p)) == Size(gs) + 1
  {
    if gs != [] {
      var r := AddToGroups(gs, p);
      if gs[0].teamName != p.team {
        AddToGroupsSize(gs[1..], p);
        assert r[1..] == AddToGroups(gs[1..], p);
      } else {
        assert r[1..] == gs[1..];
      }
    }
  }

  /** Which group a row goes to, and what happens to the others. */
  lemma {:induction false} AddToGroupsFrame(gs: seq<Group>, p: Person)
    requires DistinctNames(gs)
    ensures var r := AddToGroups(gs, p);
      && (forall i :: 0 <= i < |gs| && gs[i].teamName != p.team ==> r[i] == gs[i])
      && (forall i :: 0 <= i < |gs| && gs[i].teamName == p.team ==> r[i] == gs[i].(members := gs[i].members + [p]))
      && ((forall i :: 0 <= i < |gs| ==> gs[i].teamName != p.team) ==>
            |r| == |gs| + 1 && r[|gs|] == Group(p.team, p.team, [p]))
      && ((exists i :: 0 <= i < |gs| && gs[i].teamName == p.team) ==> |r| == |gs|)
  {
    if gs != [] {
      var r := AddToGroups(gs, p);
      if gs[0].teamName != p.team {
        AddToGroupsFrame(gs[1..], p);
        assert r == [gs[0]] + AddToGroups(gs[1..], p);
        if exists i :: 0 <= i < |gs| && gs[i].teamName == p.team {
          var i :| 0 <= i < |gs| && gs[i].teamName == p.team;
          assert gs[1..][i - 1].teamName == p.team;
        }
      } else {
        forall i | 0 < i < |gs| ensures gs[i].teamName != p.team {
          assert gs[0].teamName != gs[i].teamName;
        }
      }
    }
  }

  /** Team names stay distinct. */
  lemma AddToGroupsDistinct(gs: seq<Group>, p: Person)
    requires DistinctNames(gs)
    ensures DistinctNames(AddToGroups(gs, p))
  {
    var r := AddToGroups(gs, p);
    AddToGroupsFrame(gs, p);
    assert forall k :: 0 <= k < |gs| ==> r[k].teamName == gs[k].teamName;
    if |r| == |gs| + 1 {
      assert forall k :: 0 <= k < |gs| ==> gs[k].teamName != p.team;
    }
  }

  lemma OfTeamStep(raw: seq<Person>, p: Person, t: string)
    ensures OfTeam(raw + [p], t) == OfTeam(raw, t) + (if p.team == t then [p] else [])
  {
    assert (raw + [p])[..|raw|] == raw;
  }

  /** Grouping is a partition of the flat list: every row lands in exactly the
      one group named by its team, group sizes add up to the list length, and
      no group is empty. */
  lemma {:induction false} GroupedPartitions(raw: seq<Person>)
    ensures Partitions(Grouped(raw), raw)
    ensures Size(Grouped(raw)) == |raw|
    ensures forall i :: 0 <= i < |Grouped(raw)| ==> |Grouped(raw)[i].members| > 0
  {
    if raw != [] {
      var init := raw[..|raw| - 1];
      var p := raw[|raw| - 1];
      assert raw == init + [p];
      var gs := Grouped(init);
      var r := Grouped(raw);
      assert r == AddToGroups(gs, p);
      GroupedPartitions(init);
      AddToGroupsFrame(gs, p);
      AddToGroupsSize(gs, p);
      PartitionStep(gs, init, p);
      forall i | 0 <= i < |r| ensures |r[i].members| > 0 {
        if i < |gs| && gs[i].teamName != p.team {
          assert r[i] == gs[i];
        }
      }
    }
  }

  /** One push keeps the dictionary a partition of the rows pushed so far. */
  lemma PartitionStep(gs: seq<Group>, init: seq<Person>, p: Person)
    requires Partitions(gs, init)
    ensures Partitions(AddToGroups(gs, p), init + [p])
  {
    AddToGroupsDistinct(gs, p);
    PartitionMembers(gs, init, p);
    PartitionCovers(gs, init, p);
  }

  /** After one push every group still holds exactly the rows of its team. */
  lemma PartitionMembers(gs: seq<Group>, init: seq<Person>, p: Person)
    requires Partitions(gs, init)
    ensures var r := AddToGroups(gs, p);
      forall i :: 0 <= i < |r| ==> r[i].members == OfTeam(init + [p], r[i].teamName) && r[i].id == r[i].teamName
  {
    var r := AddToGroups(gs, p);
    AddToGroupsFrame(gs, p);
    forall i | 0 <= i < |r| ensures r[i].members == OfTeam(init + [p], r[i].teamName) && r[i].id == r[i].teamName {
      OfTeamStep(init, p, r[i].teamName);
      if i == |gs| {
        NamesIndex(gs, p.team);
        OfTeamAbsent(init, p.team, gs);
      }
    }
  }

  /** After one push every row pushed so far still has a group. */
  lemma PartitionCovers(gs: seq<Group>, init: seq<Person>, p: Person)
    requires Partitions(gs, init)
    ensures forall q :: q in init + [p] ==> q.team in Names(AddToGroups(gs, p))
  {
    var r := AddToGroups(gs, p);
    AddToGroupsFrame(gs, p);
    forall q | q in init + [p] ensures q.team in Names(r) {
      NamesIndex(r, q.team);
      NamesIndex(gs, q.team);
      if q in init {
        var i :| 0 <= i < |gs| && gs[i].teamName == q.team;
        assert r[i].teamName == q.team;
      } else if exists i :: 0 <= i < |gs| && gs[i].teamName == p.team {
        var i :| 0 <= i < |gs| && gs[i].teamName == p.team;
        assert r[i].teamName == q.team;
      } else {
        assert r[|gs|].teamName == q.team;
      }
    }
  }

  /** A team without a group has no rows. */
  lemma OfTeamAbsent(raw: seq<Person>, t: string, gs: seq<Group>)
    requires forall p :: p in raw ==> p.team in Names(gs)
    requires t !in Names(gs)
    ensures OfTeam(raw, t) == []
  {
    OfTeamEmpty(raw, t);
  }

  lemma {:induction false} OfTeamEmpty(raw: seq<Person>, t: string)
    requires forall p :: p in raw ==> p.team != t
    ensures OfTeam(raw, t) == []
  {
    if raw != [] {
      OfTeamEmpty(raw[..|raw| - 1], t);
    }
  }

  /** The dictionary `groups`, with its keys in creation order, holds the
      groups `gs`. */
  predicate Represents(groups: map<string, Group>, keys: seq<string>, gs: seq<Group>) {
    && |keys| == |gs|
    && (forall k :: 0 <= k < |keys| ==> keys[k] in groups && groups[keys[k]] == gs[k] && keys[k] == gs[k].teamName)
    && (forall t :: t in groups ==> t in keys)
  }

  /** A row of a team without a group opens a new group at the end. */
  lemma {:induction false} AddToGroupsNew(gs: seq<Group>, p: Person)
    requires forall i :: 0 <= i < |gs| ==> gs[i].teamName != p.team
    ensures AddToGroups(gs, p) == gs + [Group(p.team, p.team, [p])]
  {
    if gs != [] {
      AddToGroupsNew(gs[1..], p);
      assert gs == [gs[0]] + gs[1..];
    }
  }

  /** A row of a team with a group is appended to that group only. */
  lemma {:induction false} AddToGroupsExisting(gs: seq<Group>, p: Person, i: nat)
    requires DistinctNames(gs) && i < |gs| && gs[i].teamName == p.team
    ensures AddToGroups(gs, p) == gs[i := gs[i].(members := gs[i].members + [p])]
  {
    if i > 0 {
      AddToGroupsExisting(gs[1..], p, i - 1);
      assert gs == [gs[0]] + gs[1..];
      assert gs[0].teamName != gs[i].teamName;
    } else {
      assert gs == [gs[0]] + gs[1..];
    }
  }

  /** The body of the grouping loop for one row. */
  method PushToGroup(groups: map<string, Group>, keys: seq<string>, p: Person, ghost gs: seq<Group>)
    returns (groups': map<string, Group>, keys': seq<string>)
    requires Represents(groups, keys, gs) && DistinctNames(gs)
    ensures Represents(groups', keys', AddToGroups(gs, p))
  {
    var teamKey := p.team;
    if teamKey !in groups {
      assert forall i :: 0 <= i < |gs| ==> gs[i].teamName != p.team;
      AddToGroupsNew(gs, p);
      groups' := groups[teamKey := Group(teamKey, teamKey, [])];
      keys' := keys + [teamKey];
      groups' := groups'[teamKey := groups'[teamKey].(members := groups'[teamKey].members + [p])];
    } else {
      var i :| 0 <= i < |keys| && keys[i] == teamKey;
      AddToGroupsExisting(gs, p, i);
      keys' := keys;
      groups' := groups[teamKey := groups[teamKey].(members := groups[teamKey].members + [p])];
      forall k | 0 <= k < |keys| && k != i ensures keys[k] != teamKey {
        if k < i {
          assert gs[k].teamName != gs[i].teamName;
        } else {
          assert gs[i].teamName != gs[k].teamName;
        }
      }
    }
  }

  /** The grouping loop, over a dictionary from team to group plus the order
      in which its keys were created (the order `Object.values` reports). */
  method GroupRows(raw: seq<Person>) returns (groupList: seq<Group>)
    ensures groupList == Grouped(raw)
  {
    var groups: map<string, Group> := map[];
    var keys: seq<string> := [];
    var i := 0;
    while i < |raw|
      invariant 0 <= i <= |raw|
      invariant Represents(groups, keys, Grouped(raw[..i]))
    {
      assert raw[..i + 1][..i] == raw[..i];
      GroupedPartitions(raw[..i]);
      groups, keys := PushToGroup(groups, keys, raw[i], Grouped(raw[..i]));
      i := i + 1;
    }
    assert raw[..|raw|] == raw;
    groupList := seq(|keys|, k requires 0 <= k < |keys| && keys[k] in groups => groups[keys[k]]);
  }

  // --------------------------------------------------------------- sorting

  /** Groups by team name. */
  predicate GroupLe(a: Group, b: Group) {
    TextLe(a.teamName, b.teamName)
  }

  /** The member comparator: a leader before a non-leader, otherwise by name. */
  predicate MemberLe(a: Person, b: Person) {
    if a.isLeader && !b.isLeader then true
    else if !a.isLeader && b.isLeader then false
    else TextLe(a.name, b.name)
  }

  lemma GroupLeIsTotalPreorder()
    ensures TotalPreorder(GroupLe)
  {
    forall a: Group, b: Group ensures GroupLe(a, b) || GroupLe(b, a) {
      TextLeTotal(a.teamName, b.teamName);
    }
    forall a: Group, b: Group, c: Group | GroupLe(a, b) && GroupLe(b, c) ensures GroupLe(a, c) {
      TextLeTransitive(a.teamName, b.teamName, c.teamName);
    }
  }

  lemma MemberLeIsTotalPreorder()
    ensures TotalPreorder(MemberLe)
  {
    forall a: Person, b: Person ensures MemberLe(a, b) || MemberLe(b, a) {
      TextLeTotal(a.name, b.name);
    }
    forall a: Person, b: Person, c: Person | MemberLe(a, b) && MemberLe(b, c) ensures MemberLe(a, c) {
      if a.isLeader == b.isLeader && b.isLeader == c.isLeader {
        TextLeTransitive(a.name, b.name, c.name);
      }
    }
  }

  function SortMembers(g: Group): Group {
    g.(members := SortBy(g.members, MemberLe))
  }

  /** Groups ordered by team name, each group's rows leader first then by name. */
  function Arrange(raw: seq<Person>): seq<Group> {
    var sorted := SortBy(Grouped(raw), GroupLe);
    seq(|sorted|, i requires 0 <= i < |sorted| => SortMembers(sorted[i]))
  }

  /** The snapshot listener: flatten, group, sort the groups, then sort each
      group's rows in place. */
  method OnSnapshot(snap: seq<Entry>) returns (attendeeGroups: seq<Group>)
    ensures attendeeGroups == Arrange(Flatten(snap))
  {
    var rawList := FlattenSnapshot(snap);
    var groupList := GroupRows(rawList);
    groupList := SortBy(groupList, GroupLe);
    var i := 0;
    while i < |groupList|
      invariant 0 <= i <= |groupList|
      invariant |groupList| == |Grouped(rawList)|
      invariant forall k :: 0 <= k < i ==> groupList[k] == SortMembers(SortBy(Grouped(rawList), GroupLe)[k])
      invariant forall k :: i <= k < |groupList| ==> groupList[k] == SortBy(Grouped(rawList), GroupLe)[k]
    {
      groupList := groupList[i := groupList[i].(members := SortBy(groupList[i].members, MemberLe))];
      i := i + 1;
    }
    attendeeGroups := groupList;
  }

  /** The arranged list: groups in team-name order with distinct names, each
      holding exactly its team's rows (as a permutation), leaders before
      non-leaders, rows of equal rank by name; no row is lost or added. */
  lemma ArrangeSpec(raw: seq<Person>)
    ensures var gs := Arrange(raw);
      && Sorted(gs, GroupLe)
      && DistinctNames(gs)
      && (forall i :: 0 <= i < |gs| ==> multiset(gs[i].members) == multiset(OfTeam(raw, gs[i].teamName)))
      && (forall i :: 0 <= i < |gs| ==> Sorted(gs[i].members, MemberLe))
      && (forall i :: 0 <= i < |gs| ==> |gs[i].members| > 0)
      && (forall p :: p in raw ==> exists i :: 0 <= i < |gs| && gs[i].teamName == p.team)
  {
    var gs := Arrange(raw);
    ArrangeOrder(raw);
    forall i | 0 <= i < |gs|
      ensures multiset(gs[i].members) == multiset(OfTeam(raw, gs[i].teamName))
      ensures Sorted(gs[i].members, MemberLe)
      ensures |gs[i].members| > 0
    {
      ArrangeGroup(raw, i);
    }
    forall p | p in raw ensures exists i :: 0 <= i < |gs| && gs[i].teamName == p.team {
      ArrangeCovers(raw, p);
    }
  }

  /** The arranged groups are in team-name order, with distinct names. */
  lemma ArrangeOrder(raw: seq<Person>)
    ensures Sorted(Arrange(raw), GroupLe) && DistinctNames(Arrange(raw))
  {
    var grouped := Grouped(raw);
    var sorted := SortBy(grouped, GroupLe);
    var gs := Arrange(raw);
    GroupedPartitions(raw);
    GroupLeIsTotalPreorder();
    SortBySorted(grouped, GroupLe);
    assert forall i :: 0 <= i < |gs| ==> gs[i].teamName == sorted[i].teamName;
    forall i, j | 0 <= i < j < |gs| ensures gs[i].teamName != gs[j].teamName {
      SortedDistinct(grouped, i, j);
    }
  }

  /** Each arranged group is a grouped team with its rows sorted. */
  lemma ArrangeGroup(raw: seq<Person>, i: nat)
    requires i < |Arrange(raw)|
    ensures var g := Arrange(raw)[i];
      && multiset(g.members) == multiset(OfTeam(raw, g.teamName))
      && Sorted(g.members, MemberLe)
      && |g.members| > 0
  {
    var grouped := Grouped(raw);
    var sorted := SortBy(grouped, GroupLe);
    GroupedPartitions(raw);
    MemberLeIsTotalPreorder();
    assert sorted[i] in multiset(grouped);
    var j :| 0 <= j < |grouped| && grouped[j] == sorted[i];
    SortBySorted(sorted[i].members, MemberLe);
  }

  /** Every row's team has an arranged group. */
  lemma ArrangeCovers(raw: seq<Person>, p: Person)
    requires p in raw
    ensures exists i :: 0 <= i < |Arrange(raw)| && Arrange(raw)[i].teamName == p.team
  {
    var grouped := Grouped(raw);
    var sorted := SortBy(grouped, GroupLe);
    GroupedPartitions(raw);
    NamesIndex(grouped, p.team);
    var j :| 0 <= j < |grouped| && grouped[j].teamName == p.team;
    assert grouped[j] in multiset(sorted);
    var i :| 0 <= i < |sorted| && sorted[i] == grouped[j];
    assert Arrange(raw)[i].teamName == p.team;
  }

  /** Sorting a list of groups with distinct names keeps them distinct. */
  lemma SortedDistinct(grouped: seq<Group>, i: nat, j: nat)
    requires DistinctNames(grouped)
    requires i < j < |SortBy(grouped, GroupLe)|
    ensures SortBy(grouped, GroupLe)[i].teamName != SortBy(grouped, GroupLe)[j].teamName
  {
    var s := SortBy(grouped, GroupLe);
    assert s[i] in multiset(grouped) && s[j] in multiset(grouped);
    var a :| 0 <= a < |grouped| && grouped[a] == s[i];
    var b :| 0 <= b < |grouped| && grouped[b] == s[j];
    MultisetTwo(s, i, j);
    DistinctOnce(grouped, a);
    assert a != b;
  }

  lemma MultisetTwo(s: seq<Group>, i: nat, j: nat)
    requires i < j < |s|
    ensures s[i] == s[j] ==> multiset(s)[s[i]] >= 2
  {
    assert s == s[..i] + [s[i]] + s[i + 1..j] + [s[j]] + s[j + 1..];
  }

  lemma {:induction false} DistinctOnce(gs: seq<Group>, a: nat)
    requires DistinctNames(gs) && a < |gs|
    ensures multiset(gs)[gs[a]] == 1
  {
    assert gs == [gs[0]] + gs[1..];
    if a == 0 {
      assert gs[0] !in gs[1..];
    } else {
      DistinctOnce(gs[1..], a - 1);
      assert gs[0] != gs[a];
    }
  }

  /** A sorted row list has every leader before every non-leader. */
  lemma LeadersFirst(ms: seq<Person>)
    requires Sorted(ms, MemberLe)
    ensures forall i, j :: 0 <= i < j < |ms| && ms[j].isLeader ==> ms[i].isLeader
  {
  }

  // ---------------------------------------------------------------- search

  /** A row matches when its name or its group's team name contains the term,
      all three lowercased. */
  predicate Matches(m: Person, teamName: string, term: string) {
    Contains(Lower(m.name), Lower(term)) || Contains(Lower(teamName), Lower(term))
  }

  function FilterMembers(ms: seq<Person>, teamName: string, term: string): (r: seq<Person>)
    ensures |r| <= |ms|
  {
    if ms == [] then []
    else (if Matches(ms[0], teamName, term) then [ms[0]] else []) + FilterMembers(ms[1..], teamName, term)
  }

  /** `filteredGroups`: each group with its matching rows; emptied groups go. */
  function FilteredGroups(gs: seq<Group>, term: string): seq<Group> {
    if gs == [] then []
    else
      var g := gs[0].(members := FilterMembers(gs[0].members, gs[0].teamName, term));
      (if |g.members| > 0 then [g] else []) + FilteredGroups(gs[1..], term)
  }

  /** A row survives the filter exactly when it matches. */
  lemma {:induction false} FilterMembersKeeps(ms: seq<Person>, teamName: string, term: string)
    ensures forall p :: p in FilterMembers(ms, teamName, term) <==> p in ms && Matches(p, teamName, term)
  {
    if ms != [] {
      FilterMembersKeeps(ms[1..], teamName, term);
      assert ms == [ms[0]] + ms[1..];
    }
  }

  /** Every shown group is a non-empty, filtered input group. */
  lemma {:induction false} FilteredGroupsShape(gs: seq<Group>, term: string)
    ensures forall g :: g in FilteredGroups(gs, term) ==> |g.members| > 0
    ensures forall g :: g in FilteredGroups(gs, term) ==>
      exists h :: h in gs && g == h.(members := FilterMembers(h.members, h.teamName, term))
    ensures |FilteredGroups(gs, term)| <= |gs|
  {
    if gs != [] {
      FilteredGroupsShape(gs[1..], term);
      forall g | g in FilteredGroups(gs, term)
        ensures exists h :: h in gs && g == h.(members := FilterMembers(h.members, h.teamName, term))
      {
        if g !in FilteredGroups(gs[1..], term) {
          assert gs[0] in gs;
        } else {
          var h :| h in gs[1..] && g == h.(members := FilterMembers(h.members, h.teamName, term));
          assert h in gs;
        }
      }
    }
  }

  /** Filtering a concatenation filters each part and concatenates: the kept
      rows keep their order and multiplicity. */
  lemma {:induction false} FilterMembersAppend(a: seq<Person>, b: seq<Person>, teamName: string, term: string)
    ensures FilterMembers(a + b, teamName, term) == FilterMembers(a, teamName, term) + FilterMembers(b, teamName, term)
  {
    if a != [] {
      assert (a + b)[1..] == a[1..] + b;
      FilterMembersAppend(a[1..], b, teamName, term);
    } else {
      assert a + b == b;
    }
  }

  /** The shown groups of a concatenation are those of each part in turn, so
      groups keep their input order. */
  lemma {:induction false} FilteredGroupsAppend(a: seq<Group>, b: seq<Group>, term: string)
    ensures FilteredGroups(a + b, term) == FilteredGroups(a, term) + FilteredGroups(b, term)
  {
    if a != [] {
      assert (a + b)[1..] == a[1..] + b;
      FilteredGroupsAppend(a[1..], b, term);
    } else {
      assert a + b == b;
    }
  }

  /** Every input group with a matching row is shown, with its matching rows. */
  lemma {:induction false} FilteredGroupsKeeps(gs: seq<Group>, term: string, g: Group)
    requires g in gs && FilterMembers(g.members, g.teamName, term) != []
    ensures g.(members := FilterMembers(g.members, g.teamName, term)) in FilteredGroups(gs, term)
  {
    if gs[0] != g {
      FilteredGroupsKeeps(gs[1..], term, g);
    }
  }

  /** The empty term matches every row. */
  lemma {:induction false} EmptyTermKeepsMembers(ms: seq<Person>, teamName: string)
    ensures FilterMembers(ms, teamName, "") == ms
  {
    if ms != [] {
      ContainsEmpty(Lower(ms[0].name));
      EmptyTermKeepsMembers(ms[1..], teamName);
      assert ms == [ms[0]] + ms[1..];
    }
  }

  /** With an empty search term a list of non-empty groups is shown as is. */
  lemma {:induction false} EmptyTermKeepsGroups(gs: seq<Group>)
    requires forall i :: 0 <= i < |gs| ==> |gs[i].members| > 0
    ensures FilteredGroups(gs, "") == gs
  {
    if gs != [] {
      EmptyTermKeepsMembers(gs[0].members, gs[0].teamName);
      EmptyTermKeepsGroups(gs[1..]);
      assert gs == [gs[0]] + gs[1..];
    }
  }

  /** A row of a group whose team name contains the term is always shown. */
  lemma TeamMatchKeepsAll(ms: seq<Person>, teamName: string, term: string)
    requires Contains(Lower(teamName), Lower(term))
    ensures FilterMembers(ms, teamName, term) == ms
  {
    FilterAll(ms, teamName, term);
  }

  lemma {:induction false} FilterAll(ms: seq<Person>, teamName: string, term: string)
    requires forall p :: p in ms ==> Matches(p, teamName, term)
    ensures FilterMembers(ms, teamName, term) == ms
  {
    if ms != [] {
      FilterAll(ms[1..], teamName, term);
      assert ms == [ms[0]] + ms[1..];
    }
  }
}
