/** The certificate claim page. A participant enters an email; it is looked up
    first in the RSVP collection, then in the imported registration list
    ("unstop"); the record found is mapped onto one user record, which the
    participant may correct (the correction is written back to the collection
    it came from) before generating and downloading the certificate. The
    page is a three-step machine: 1 login, 2 review, 3 download. */
module CertificateClaim {
  import opened Json
  import opened Store

  const RsvpCollection: string := "rsvp_innovate_2026"
  const UnstopTag: string := "unstop"
  const NotFoundMessage: string := "No registration found with this email. Please check your spelling."

  /** The entries of a query result listing whose `key` equals `email`, in
      listing order. */
  function Matching(entries: seq<Entry>, key: string, email: Value): (r: seq<Entry>)
    ensures |r| <= |entries|
    ensures forall e :: e in r <==> e in entries && Get(e.data, key) == email
  {
    if entries == [] then []
    else (if Get(entries[0].data, key) == email then [entries[0]] else []) + Matching(entries[1..], key, email)
  }

  /** A listing's matches keep their order and multiplicity: matching a
      concatenation matches each part in turn. */
  lemma {:induction false} MatchingAppend(a: seq<Entry>, b: seq<Entry>, key: string, email: Value)
    ensures Matching(a + b, key, email) == Matching(a, key, email) + Matching(b, key, email)
  {
    if a != [] {
      assert (a + b)[1..] == a[1..] + b;
      MatchingAppend(a[1..], b, key, email);
    } else {
      assert a + b == b;
    }
  }

  /** `docs[0]` of a non-empty result is the first entry of the listing whose
      `key` equals the email. */
  lemma {:induction false} MatchingFirst(entries: seq<Entry>, key: string, email: Value)
    requires Matching(entries, key, email) != []
    ensures exists i ::
      && 0 <= i < |entries|
      && entries[i] == Matching(entries, key, email)[0]
      && Get(entries[i].data, key) == email
      && forall j :: 0 <= j < i ==> Get(entries[j].data, key) != email
  {
    if Get(entries[0].data, key) != email {
      MatchingFirst(entries[1..], key, email);
      var i :| 0 <= i < |entries[1..]| && entries[1..][i] == Matching(entries[1..], key, email)[0]
        && Get(entries[1..][i].data, key) == email
        && forall j :: 0 <= j < i ==> Get(entries[1..][j].data, key) != email;
      assert entries[i + 1] == entries[1..][i];
      forall j | 0 <= j < i + 1 ensures Get(entries[j].data, key) != email {
        if j > 0 {
          assert entries[j] == entries[1..][j - 1];
        }
      }
    } else {
      assert Matching(entries, key, email)[0] == entries[0];
    }
  }

  /** The user record of an RSVP document: defaults first, then every field
      of the document spread over them. */
  function RsvpUser(e: Entry): Doc {
    var d := e.data;
    Merge(map["id" := Str(e.id), "collection" := Str(RsvpCollection), "name" := Get(d, "name"),
              "email" := Get(d, "email"), "team" := Or(Get(d, "team"), Str("Individual")),
              "role" := Str("Participant")], d)
  }

  /** The user record of a registration-list document, mapped from its own
      column names, again with the document spread last. */
  function UnstopUser(e: Entry): Doc {
    var d := e.data;
    Merge(map["id" := Str(e.id), "collection" := Str(UnstopTag), "name" := Get(d, "Candidate's Name"),
              "email" := Get(d, "Candidate's Email"), "team" := Or(Get(d, "Team Name"), Str("Individual")),
              "role" := Or(Get(d, "Candidate role"), Str("Participant"))], d)
  }

  /** A lookup's result: the user record and the initial correction fields. */
  datatype Lookup =
    | Found(user: Doc, name: Value, email: Value, team: Value)
    | NotFound

  /** `handleLogin`'s search: the first RSVP match, else the first
      registration-list match, else nothing. */
  function LoginLookup(rsvp: seq<Entry>, unstop: seq<Entry>, email: Value): Lookup {
    var r := Matching(rsvp, "email", email);
    if r != [] then
      Found(RsvpUser(r[0]), Get(r[0].data, "name"), Get(r[0].data, "email"), Or(Get(r[0].data, "team"), Str("Individual")))
    else
      var u := Matching(unstop, "Candidate's Email", email);
      if u != [] then
        var d := u[0].data;
        Found(UnstopUser(u[0]), Get(d, "Candidate's Name"), Get(d, "Candidate's Email"), Or(Get(d, "Team Name"), Str("Individual")))
      else NotFound
  }

  /** Whether a user record is treated as coming from the registration list. */
  predicate FromUnstop(user: Doc) {
    Get(user, "collection") == Str(UnstopTag)
  }

  /** The fields `handleUpdateDetails` writes, named as the record's
      collection names them. */
  function CorrectionUpdate(user: Doc, name: Value, email: Value, team: Value): (u: Doc)
    ensures FromUnstop(user) ==> u == map["Candidate's Name" := name, "Candidate's Email" := email, "Team Name" := team]
    ensures !FromUnstop(user) ==> u == map["name" := name, "email" := email, "team" := team]
  {
    if FromUnstop(user) then map["Candidate's Name" := name, "Candidate's Email" := email, "Team Name" := team]
    else map["name" := name, "email" := email, "team" := team]
  }

  /** Writing the correction into an RSVP record's document and looking the
      document up again gives exactly the record the page keeps locally:
      the old record with the corrected name, email and team. */
  lemma RsvpCorrectionReadsBack(e: Entry, name: Value, email: Value, team: Value)
    requires !FromUnstop(RsvpUser(e))
    ensures var user := RsvpUser(e);
      RsvpUser(Entry(e.id, Merge(e.data, CorrectionUpdate(user, name, email, team))))
        == user["name" := name]["email" := email]["team" := team]
  {
    var user := RsvpUser(e);
    assert CorrectionUpdate(user, name, email, team) == map["name" := name, "email" := email, "team" := team];
    RsvpReadBack(e, name, email, team);
  }

  lemma RsvpReadBack(e: Entry, name: Value, email: Value, team: Value)
    ensures var user := RsvpUser(e);
      RsvpUser(Entry(e.id, Merge(e.data, map["name" := name, "email" := email, "team" := team])))
        == user["name" := name]["email" := email]["team" := team]
  {
    var u := map["name" := name, "email" := email, "team" := team];
    var user := RsvpUser(e);
    var e' := Entry(e.id, Merge(e.data, u));
    var again := RsvpUser(e');
    var want := user["name" := name]["email" := email]["team" := team];
    RsvpKeys(e);
    RsvpKeys(e');
    assert again.Keys == want.Keys;
    forall k | k in again ensures again[k] == want[k] {
      RsvpValue(e, e', u, k);
    }
  }

  lemma RsvpValue(e: Entry, e': Entry, u: Doc, k: string)
    requires e'.id == e.id && e'.data == Merge(e.data, u)
    requires u.Keys == {"name", "email", "team"}
    requires k in RsvpUser(e')
    ensures RsvpUser(e')[k] == (if k in u then u[k] else RsvpUser(e)[k])
  {
    RsvpKeys(e);
    RsvpKeys(e');
    RsvpMapping(e);
    RsvpMapping(e');
    if k !in u && k !in e.data {
      assert k == "id" || k == "collection" || k == "role";
    }
  }

  lemma RsvpKeys(e: Entry)
    ensures RsvpUser(e).Keys == {"id", "collection", "name", "email", "team", "role"} + e.data.Keys
  {
  }

  /** Writing the correction into a registration-list document and looking it
      up again gives the corrected name and email, the corrected team or
      "Individual" when it is empty, and the same id and origin, as long as
      the document has no own `name`, `email` or `team` fields that would
      override the mapped ones. */
  lemma UnstopCorrectionReadsBack(e: Entry, name: Value, email: Value, team: Value)
    requires FromUnstop(UnstopUser(e))
    requires "name" !in e.data && "email" !in e.data && "team" !in e.data
    ensures var user := UnstopUser(e);
      var again := UnstopUser(Entry(e.id, Merge(e.data, CorrectionUpdate(user, name, email, team))));
      && Get(again, "name") == name && Get(again, "email") == email
      && Get(again, "team") == Or(team, Str("Individual"))
      && Get(again, "id") == Get(user, "id") && FromUnstop(again)
  {
    var user := UnstopUser(e);
    var u := CorrectionUpdate(user, name, email, team);
    assert u == map["Candidate's Name" := name, "Candidate's Email" := email, "Team Name" := team];
    var e' := Entry(e.id, Merge(e.data, u));
    assert Get(e'.data, "Candidate's Name") == name && Get(e'.data, "Candidate's Email") == email;
    assert Get(e'.data, "Team Name") == team;
    assert "name" !in e'.data && "email" !in e'.data && "team" !in e'.data;
    UnstopMapping(e');
    UnstopIdOrigin(e);
    UnstopIdOrigin(e');
    assert "id" !in u && "collection" !in u;
  }

  lemma UnstopIdOrigin(e: Entry)
    ensures Get(UnstopUser(e), "id") == if "id" in e.data then e.data["id"] else Str(e.id)
    ensures Get(UnstopUser(e), "collection") ==
      if "collection" in e.data then e.data["collection"] else Str(UnstopTag)
  {
  }

  /** `correctedName.trim()` is non-empty; a value that is not a string makes
      `trim` throw and the handler stop. */
  predicate NameGiven(name: Value) {
    name.Str? && Trim(name.s) != []
  }

  // ------------------------------------------------------------ file name

  /** The characters after a leading run of white space. */
  function SkipSpace(s: string): (r: string)
    ensures |r| <= |s|
    ensures r == s[|s| - |r|..]
    ensures r != [] ==> !IsSpace(r[0])
    ensures forall i :: 0 <= i < |s| - |r| ==> IsSpace(s[i])
  {
    if s != [] && IsSpace(s[0]) then SkipSpace(s[1..]) else s
  }

  /** `s.replace(/\s+/g, '_')`: each run of white space becomes one `_`. */
  function Underscored(s: string): string
    decreases |s|
  {
    if s == [] then []
    else if IsSpace(s[0]) then "_" + Underscored(SkipSpace(s[1..]))
    else [s[0]] + Underscored(s[1..])
  }

  function FileName(name: string, ext: string): string {
    "Certificate_" + Underscored(name) + "." + ext
  }

  /** No white space survives, and each run costs exactly one `_`. */
  lemma {:induction false} UnderscoredNoSpace(s: string)
    ensures forall i :: 0 <= i < |Underscored(s)| ==> !IsSpace(Underscored(s)[i])
    ensures |Underscored(s)| <= |s|
    decreases |s|
  {
    if s != [] {
      if IsSpace(s[0]) {
        UnderscoredNoSpace(SkipSpace(s[1..]));
      } else {
        UnderscoredNoSpace(s[1..]);
      }
    }
  }

  /** A name without white space is used as it is. */
  lemma {:induction false} UnderscoredIdentity(s: string)
    requires forall i :: 0 <= i < |s| ==> !IsSpace(s[i])
    ensures Underscored(s) == s
    decreases |s|
  {
    if s != [] {
      UnderscoredIdentity(s[1..]);
    }
  }

  /** Two words separated by any run of white space are joined by one `_`. */
  lemma {:induction false} JoinedByOne(a: string, gap: string, b: string)
    requires forall i :: 0 <= i < |a| ==> !IsSpace(a[i])
    requires forall i :: 0 <= i < |b| ==> !IsSpace(b[i])
    requires gap != [] && forall i :: 0 <= i < |gap| ==> IsSpace(gap[i])
    ensures Underscored(a + gap + b) == a + "_" + b
  {
    assert a + gap + b == a + (gap + b);
    UnderscoredPrefix(a, gap + b);
    SpaceRun(gap, b);
    UnderscoredIdentity(b);
  }

  /** A run of white space followed by a word becomes one `_`. */
  lemma SpaceRun(gap: string, b: string)
    requires gap != [] && forall i :: 0 <= i < |gap| ==> IsSpace(gap[i])
    requires b == [] || !IsSpace(b[0])
    ensures Underscored(gap + b) == "_" + Underscored(b)
  {
    var t := gap + b;
    assert t[0] == gap[0];
    assert t[1..] == gap[1..] + b;
    SkipSpaceGap(gap[1..], b);
  }

  lemma {:induction false} UnderscoredPrefix(a: string, rest: string)
    requires forall i :: 0 <= i < |a| ==> !IsSpace(a[i])
    ensures Underscored(a + rest) == a + Underscored(rest)
    decreases |a|
  {
    if a != [] {
      assert (a + rest)[0] == a[0] && !IsSpace(a[0]);
      assert (a + rest)[1..] == a[1..] + rest;
      assert forall i :: 0 <= i < |a[1..]| ==> a[1..][i] == a[i + 1];
      UnderscoredPrefix(a[1..], rest);
      assert Underscored(a + rest) == [a[0]] + Underscored(a[1..] + rest);
      assert a == [a[0]] + a[1..];
    } else {
      assert a + rest == rest;
    }
  }

  lemma {:induction false} SkipSpaceGap(gap: string, b: string)
    requires forall i :: 0 <= i < |gap| ==> IsSpace(gap[i])
    requires b == [] || !IsSpace(b[0])
    ensures SkipSpace(gap + b) == b
    decreases |gap|
  {
    if gap != [] {
      assert (gap + b)[1..] == gap[1..] + b;
      SkipSpaceGap(gap[1..], b);
    }
  }

  // ------------------------------------------------------------ properties

  /** Lookup precedence: an RSVP match always wins; the registration list is
      consulted only without one; no match in either is "not found". */
  lemma LookupPrecedence(rsvp: seq<Entry>, unstop: seq<Entry>, email: Value)
    ensures var r := Matching(rsvp, "email", email);
      r != [] ==> LoginLookup(rsvp, unstop, email).Found? && LoginLookup(rsvp, unstop, email).user == RsvpUser(r[0])
    ensures var r := Matching(rsvp, "email", email);
      var u := Matching(unstop, "Candidate's Email", email);
      r == [] && u != [] ==> LoginLookup(rsvp, unstop, email).Found? && LoginLookup(rsvp, unstop, email).user == UnstopUser(u[0])
    ensures LoginLookup(rsvp, unstop, email).NotFound? <==>
      (forall e :: e in rsvp ==> Get(e.data, "email") != email)
      && (forall e :: e in unstop ==> Get(e.data, "Candidate's Email") != email)
  {
    var r := Matching(rsvp, "email", email);
    var u := Matching(unstop, "Candidate's Email", email);
    if r == [] && u == [] {
      assert forall e :: e in rsvp ==> e !in r;
      assert forall e :: e in unstop ==> e !in u;
    } else if r != [] {
      assert r[0] in r;
    } else {
      assert u[0] in u;
    }
  }

  /** The RSVP mapping: the document's own fields win over the defaults, so a
      stored `team` or `role` is kept even when it is falsy; a missing `team`
      becomes "Individual" and a missing `role` "Participant". */
  lemma RsvpMapping(e: Entry)
    ensures forall k :: k in e.data ==> RsvpUser(e)[k] == e.data[k]
    ensures "team" !in e.data ==> Get(RsvpUser(e), "team") == Str("Individual")
    ensures "role" !in e.data ==> Get(RsvpUser(e), "role") == Str("Participant")
    ensures "collection" !in e.data ==> Get(RsvpUser(e), "collection") == Str(RsvpCollection)
    ensures "id" !in e.data ==> Get(RsvpUser(e), "id") == Str(e.id)
  {
  }

  /** The registration-list mapping reads its own column names. */
  lemma UnstopMapping(e: Entry)
    ensures var user := UnstopUser(e);
      && ("name" !in e.data ==> Get(user, "name") == Get(e.data, "Candidate's Name"))
      && ("email" !in e.data ==> Get(user, "email") == Get(e.data, "Candidate's Email"))
      && ("team" !in e.data ==> Get(user, "team") == Or(Get(e.data, "Team Name"), Str("Individual")))
      && ("role" !in e.data ==> Get(user, "role") == Or(Get(e.data, "Candidate role"), Str("Participant")))
      && ("collection" !in e.data ==> FromUnstop(user))
  {
  }

  // ------------------------------------------------------------ the page

  class ClaimPage {
    /** The RSVP collection and the registration list, for the writes. */
    const rsvpStore: Collection
    const unstopStore: Collection
    var step: nat
    var email: Value
    var error: string
    var userData: Option<Doc>
    var correctedName: Value
    var correctedEmail: Value
    var correctedTeam: Value

    /** A review or download screen always has a user record. */
    ghost predicate Valid()
      reads this
    {
      1 <= step <= 3 && (step >= 2 ==> userData.Some?)
    }

    constructor (rsvp: Collection, unstop: Collection)
      requires rsvp != unstop
      ensures rsvpStore == rsvp && unstopStore == unstop
      ensures step == 1 && email == Str("") && error == "" && userData == None
      ensures Valid()
    {
      rsvpStore := rsvp;
      unstopStore := unstop;
      step := 1;
      email := Str("");
      error := "";
      userData := None;
      correctedName := Str("");
      correctedEmail := Str("");
      correctedTeam := Str("");
    }

    /** `handleLogin`, with the two query result listings given. A match
        moves to step 2; no match sets the error and keeps the step. */
    method HandleLogin(rsvp: seq<Entry>, unstop: seq<Entry>)
      requires Valid()
      modifies this
      ensures Valid()
      ensures email == old(email)
      ensures match LoginLookup(rsvp, unstop, old(email))
        case Found(user, n, m, t) =>
          && step == 2 && error == "" && userData == Some(user)
          && correctedName == n && correctedEmail == m && correctedTeam == t
        case NotFound =>
          && step == old(step) && error == NotFoundMessage && userData == old(userData)
          && correctedName == old(correctedName) && correctedEmail == old(correctedEmail)
          && correctedTeam == old(correctedTeam)
    {
      error := "";
      var rsvpSnap := Matching(rsvp, "email", email);
      if rsvpSnap != [] {
        var docData := rsvpSnap[0].data;
        userData := Some(RsvpUser(rsvpSnap[0]));
        correctedName := Get(docData, "name");
        correctedEmail := Get(docData, "email");
        correctedTeam := Or(Get(docData, "team"), Str("Individual"));
        step := 2;
        return;
      }
      var unstopSnap := Matching(unstop, "Candidate's Email", email);
      if unstopSnap != [] {
        var docData := unstopSnap[0].data;
        var name := Get(docData, "Candidate's Name");
        var team := Or(Get(docData, "Team Name"), Str("Individual"));
        var emailVal := Get(docData, "Candidate's Email");
        userData := Some(UnstopUser(unstopSnap[0]));
        correctedName := name;
        correctedEmail := emailVal;
        correctedTeam := team;
        step := 2;
      } else {
        error := NotFoundMessage;
      }
    }

    /** `handleUpdateDetails`: with a name given, write the correction to the
        document the record's id names (DocKey: a separator around the one
        segment is dropped); when the write succeeds, replace name, email
        and team in the user record and the login email. */
    method HandleUpdateDetails() returns (written: bool)
      requires Valid() && step == 2
      requires rsvpStore != unstopStore
      modifies this, rsvpStore, unstopStore
      ensures Valid() && step == 2
      ensures !NameGiven(old(correctedName)) ==>
        !written && unchanged(rsvpStore, unstopStore) && userData == old(userData) && email == old(email)
      ensures written ==>
        && NameGiven(old(correctedName))
        && var user := old(userData.value);
        && var upd := CorrectionUpdate(user, old(correctedName), old(correctedEmail), old(correctedTeam));
        && Get(user, "id").Str?
        && DocKey(Get(user, "id").s).Some?
        && var id := DocKey(Get(user, "id").s).value;
        && (FromUnstop(user) ==> id in old(unstopStore.docs))
        && (!FromUnstop(user) ==> id in old(rsvpStore.docs))
        && (FromUnstop(user) ==>
              unstopStore.docs == old(unstopStore.docs)[id := Merge(old(unstopStore.docs)[id], upd)]
              && rsvpStore.docs == old(rsvpStore.docs))
        && (!FromUnstop(user) ==>
              rsvpStore.docs == old(rsvpStore.docs)[id := Merge(old(rsvpStore.docs)[id], upd)]
              && unstopStore.docs == old(unstopStore.docs))
        && userData == Some(user["name" := old(correctedName)]["email" := old(correctedEmail)]["team" := old(correctedTeam)])
        && email == old(correctedEmail)
      ensures !written ==>
        (&& rsvpStore.docs == old(rsvpStore.docs) && unstopStore.docs == old(unstopStore.docs)
         && userData == old(userData) && email == old(email))
      ensures correctedName == old(correctedName) && correctedEmail == old(correctedEmail)
      ensures correctedTeam == old(correctedTeam) && error == old(error)
    {
      written := false;
      if !NameGiven(correctedName) {
        return;
      }
      var user := userData.value;
      var updates := CorrectionUpdate(user, correctedName, correctedEmail, correctedTeam);
      var id := Get(user, "id");
      if !id.Str? || DocKey(id.s).None? {
        return;
      }
      var key := DocKey(id.s).value;
      var ok: bool;
      if FromUnstop(user) {
        ok := unstopStore.UpdateDoc(key, updates);
      } else if Get(user, "collection") == Str(RsvpCollection) {
        ok := rsvpStore.UpdateDoc(key, updates);
      } else {
        ok := false;
      }
      if ok {
        userData := Some(user["name" := correctedName]["email" := correctedEmail]["team" := correctedTeam]);
        email := correctedEmail;
        written := true;
      }
    }

    /** "Generate Certificate" on the review screen. */
    method Generate()
      requires Valid() && step == 2
      modifies this
      ensures Valid() && step == 3 && userData == old(userData)
    {
      step := 3;
    }

    /** "Start Over" on the download screen. */
    method StartOver()
      requires Valid()
      modifies this
      ensures Valid() && step == 1 && userData == None
    {
      step := 1;
      userData := None;
    }

    /** The download file name for the current user, when the name is text. */
    function DownloadName(ext: string): string
      requires userData.Some? && Get(userData.value, "name").Str?
      reads this
    {
      FileName(Get(userData.value, "name").s, ext)
    }
  }
}
