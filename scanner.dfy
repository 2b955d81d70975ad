/** The door scanner. A scanned code is looked up as a document path under
    the attendee collection (Store.DocKey resolves it to a document id). The document yields up to six checkable
    entities; none is an error, one is checked in directly (or reported as a
    duplicate), and several open a selection list from which the operator
    checks entities in one by one. */
module Scanner {
  import opened Json
  import opened Store

  /** One checkable entity: its display name, the document field holding its
      flag, and the flag as read. */
  datatype Candidate = Candidate(name: string, field: string, status: bool)

  /** The attendee shown with a scan result. */
  datatype Shown = Shown(name: string, eventName: Value)

  /** What the result screen shows: an error (with the scanned code when the
      lookup itself ran), a duplicate scan, or a successful check-in. */
  datatype ScanResult =
    | Failed(message: string, barcode: Option<string>)
    | Duplicate(message: string, attendee: Shown)
    | Success(message: string, attendee: Shown)

  /** The selection list opened for a document with several entities; `id`
      is the code as scanned, resolved again on every check-in. */
  datatype Modal = Modal(id: string, eventName: Value, members: seq<Candidate>)

  datatype Outcome = Show(result: ScanResult) | Select(modal: Modal)

  function SlotName(i: nat): string {
    "Team Member " + NatText(i)
  }

  function SlotFlag(i: nat): string {
    "member_" + NatText(i) + "_checkedIn"
  }

  /** The legacy leader entity, when `Team Leader Name` is truthy. */
  function LeaderCandidates(d: Doc): seq<Candidate> {
    if Truthy(Get(d, "Team Leader Name")) then
      [Candidate(ToText(Get(d, "Team Leader Name")) + " (Leader)", "leader_checkedIn",
                 Truthy(Get(d, "leader_checkedIn")))]
    else []
  }

  function SlotCandidate(d: Doc, i: nat): seq<Candidate> {
    if Truthy(Get(d, SlotName(i))) then
      [Candidate(ToText(Get(d, SlotName(i))), SlotFlag(i), Truthy(Get(d, SlotFlag(i))))]
    else []
  }

  /** The legacy member entities of slots 1 to `n`, in slot order. */
  function SlotCandidates(d: Doc, n: nat): seq<Candidate> {
    if n == 0 then [] else SlotCandidates(d, n - 1) + SlotCandidate(d, n)
  }

  /** The entities of a document: the root entity when `name` is truthy,
      otherwise the legacy leader followed by member slots 1 to 5. */
  function Candidates(d: Doc): seq<Candidate> {
    if Truthy(Get(d, "name")) then
      [Candidate(ToText(Get(d, "name")), "checkedIn", Truthy(Get(d, "checkedIn")))]
    else LeaderCandidates(d) + SlotCandidates(d, 5)
  }

  /** Builds the entity list by pushes, the legacy slots by a loop over 1..5. */
  method ExtractCandidates(d: Doc) returns (members: seq<Candidate>)
    ensures members == Candidates(d)
  {
    members := [];
    if Truthy(Get(d, "name")) {
      members := members + [Candidate(ToText(Get(d, "name")), "checkedIn", Truthy(Get(d, "checkedIn")))];
    } else {
      if Truthy(Get(d, "Team Leader Name")) {
        members := members + [Candidate(ToText(Get(d, "Team Leader Name")) + " (Leader)", "leader_checkedIn",
                                        Truthy(Get(d, "leader_checkedIn")))];
      }
      var i := 1;
      while i <= 5
        invariant 1 <= i <= 6
        invariant members == LeaderCandidates(d) + SlotCandidates(d, i - 1)
      {
        if Truthy(Get(d, SlotName(i))) {
          members := members + [Candidate(ToText(Get(d, SlotName(i))), SlotFlag(i), Truthy(Get(d, SlotFlag(i))))];
        }
        i := i + 1;
      }
    }
  }

  /** The write that checks one entity in: its flag and a `_at` timestamp. */
  function CheckInUpdate(field: string, now: nat): (u: Doc)
    ensures u.Keys == {field, field + "_at"}
    ensures u[field] == Bool(true) && u[field + "_at"] == Stamp(now)
  {
    map[field := Bool(true), field + "_at" := Stamp(now)]
  }

  /** What `handleScan` shows for a code, given the store as it is. */
  function ScanOutcome(docs: map<string, Doc>, barcode: string): Outcome {
    match DocKey(barcode)
    case None =>
      if RefusedDocPath(barcode) then Show(Failed("Error processing check-in.", None))
      else Show(Failed("Attendee not found.", Some(barcode)))
    case Some(key) =>
      if key !in docs then Show(Failed("Attendee not found.", Some(barcode)))
      else
        var d := docs[key];
        var members := Candidates(d);
        if |members| == 0 then Show(Failed("Empty Record Found", Some(barcode)))
        else if |members| == 1 then
          var mem := members[0];
          if mem.status then Show(Duplicate(mem.name + " already checked in!", Shown(mem.name, Get(d, "event_name"))))
          else Show(Success(mem.name + " Checked In!", Shown(mem.name, Get(d, "event_name"))))
        else Select(Modal(barcode, Get(d, "event_name"), members))
  }

  /** The store after `handleScan`: only a direct check-in writes. */
  function ScanStore(docs: map<string, Doc>, barcode: string, now: nat): map<string, Doc> {
    match DocKey(barcode)
    case None => docs
    case Some(key) =>
      if key in docs && |Candidates(docs[key])| == 1 && !Candidates(docs[key])[0].status
      then docs[key := Merge(docs[key], CheckInUpdate(Candidates(docs[key])[0].field, now))]
      else docs
  }

  // ------------------------------------------------------------ properties

  /** At most six entities; a truthy root name gives exactly the root entity
      and the legacy fields are ignored. */
  lemma CandidatesShape(d: Doc)
    ensures |Candidates(d)| <= 6
    ensures Truthy(Get(d, "name")) ==>
      |Candidates(d)| == 1 && Candidates(d)[0].field == "checkedIn"
  {
    SlotCandidatesLength(d, 5);
  }

  lemma {:induction false} SlotCandidatesLength(d: Doc, n: nat)
    ensures |SlotCandidates(d, n)| <= n
  {
    if n > 0 {
      SlotCandidatesLength(d, n - 1);
    }
  }

  /** Each entity's status is the truthiness of its own flag field. */
  lemma CandidatesReflectStore(d: Doc)
    ensures forall c :: c in Candidates(d) ==> c.status == Truthy(Get(d, c.field))
  {
    SlotsReflectStore(d, 5);
  }

  lemma {:induction false} SlotsReflectStore(d: Doc, n: nat)
    ensures forall c :: c in SlotCandidates(d, n) ==> c.status == Truthy(Get(d, c.field))
  {
    if n > 0 {
      SlotsReflectStore(d, n - 1);
    }
  }

  /** A code `doc` refuses is a processing error; any other code that names
      no document of the collection itself names one of a subcollection,
      which is not found. Neither writes. */
  lemma ScanPathErrors(docs: map<string, Doc>, barcode: string, now: nat)
    requires DocKey(barcode).None?
    ensures ScanStore(docs, barcode, now) == docs
    ensures RefusedDocPath(barcode) ==> ScanOutcome(docs, barcode) == Show(Failed("Error processing check-in.", None))
    ensures !RefusedDocPath(barcode) ==> ScanOutcome(docs, barcode) == Show(Failed("Attendee not found.", Some(barcode)))
  {
  }

  /** For example an empty code is refused, and "a/b/c" is accepted as a
      document path of a subcollection and reported as not found. */
  lemma ScanPathExamples(docs: map<string, Doc>)
    ensures ScanOutcome(docs, "") == Show(Failed("Error processing check-in.", None))
    ensures ScanOutcome(docs, "a/b") == Show(Failed("Error processing check-in.", None))
    ensures ScanOutcome(docs, "a/b/c") == Show(Failed("Attendee not found.", Some("a/b/c")))
  {
    assert SegmentCount("a/b") == 2 by {
      assert "a/b"[..2] == "a/" && "a/"[..1] == "a";
    }
    assert SegmentCount("a/b/c") == 3 by {
      assert "a/b/c"[..4] == "a/b/" && "a/b/"[..3] == "a/b";
      assert "a/b"[..2] == "a/" && "a/"[..1] == "a";
    }
    assert "a/b/c"[1] == '/';
  }

  /** Two codes that name the same document of the collection write the same
      check-in, and show the same duplicate or success screen. */
  lemma SameDocumentScan(docs: map<string, Doc>, a: string, b: string, now: nat)
    requires DocKey(a).Some? && DocKey(a) == DocKey(b)
    ensures ScanStore(docs, a, now) == ScanStore(docs, b, now)
    ensures ScanOutcome(docs, a).Show? == ScanOutcome(docs, b).Show?
    ensures ScanOutcome(docs, a).Show? && !ScanOutcome(docs, a).result.Failed? ==>
      ScanOutcome(docs, a) == ScanOutcome(docs, b)
  {
  }

  /** A separator before or after a plain code, or both, checks in the same
      document as the code itself. */
  lemma ScanAroundSeparators(docs: map<string, Doc>, x: string, now: nat)
    requires ValidDocId(x)
    ensures ScanStore(docs, "/" + x, now) == ScanStore(docs, x, now)
    ensures ScanStore(docs, x + "/", now) == ScanStore(docs, x, now)
    ensures ScanStore(docs, "/" + x + "/", now) == ScanStore(docs, x, now)
  {
    LeadingSeparatorKey(x);
    SameDocumentScan(docs, "/" + x, x, now);
    TrailingSeparatorKey(x);
    SameDocumentScan(docs, x + "/", x, now);
    BothSeparatorsKey(x);
    SameDocumentScan(docs, "/" + x + "/", x, now);
  }

  /** A missing or empty record is an error and writes nothing. */
  lemma ScanErrors(docs: map<string, Doc>, barcode: string, key: string, now: nat)
    requires DocKey(barcode) == Some(key)
    requires key !in docs || Candidates(docs[key]) == []
    ensures ScanStore(docs, barcode, now) == docs
    ensures key !in docs ==> ScanOutcome(docs, barcode) == Show(Failed("Attendee not found.", Some(barcode)))
    ensures key in docs ==> ScanOutcome(docs, barcode) == Show(Failed("Empty Record Found", Some(barcode)))
  {
  }

  /** Several entities open the selection list with all of them; no write. */
  lemma ScanSeveral(docs: map<string, Doc>, barcode: string, key: string, now: nat)
    requires DocKey(barcode) == Some(key) && key in docs && |Candidates(docs[key])| >= 2
    ensures ScanStore(docs, barcode, now) == docs
    ensures ScanOutcome(docs, barcode).Select?
    ensures ScanOutcome(docs, barcode).modal.members == Candidates(docs[key])
    ensures ScanOutcome(docs, barcode).modal.id == barcode
  {
  }

  /** One entity: a set flag is a duplicate and writes nothing; a clear flag
      is a success that sets the flag and its timestamp in that document only. */
  lemma ScanSingle(docs: map<string, Doc>, barcode: string, key: string, now: nat)
    requires DocKey(barcode) == Some(key) && key in docs && |Candidates(docs[key])| == 1
    ensures var c := Candidates(docs[key])[0];
      && (c.status ==> ScanOutcome(docs, barcode).result.Duplicate? && ScanStore(docs, barcode, now) == docs)
      && (!c.status ==>
            (&& ScanOutcome(docs, barcode).result.Success?
             && ScanStore(docs, barcode, now).Keys == docs.Keys
             && (forall id :: id in docs && id != key ==> ScanStore(docs, barcode, now)[id] == docs[id])
             && Get(ScanStore(docs, barcode, now)[key], c.field) == Bool(true)))
  {
  }

  // ------------------------------------------------- writes and entity lists

  /** The entity list with the flag of `field` set. */
  function MarkField(cs: seq<Candidate>, field: string): (r: seq<Candidate>)
    ensures |r| == |cs|
  {
    seq(|cs|, k requires 0 <= k < |cs| => if cs[k].field == field then cs[k].(status := true) else cs[k])
  }

  /** The keys holding entity flags. */
  predicate FlagKey(f: string) {
    f == "checkedIn" || f == "leader_checkedIn" || exists i :: 1 <= i <= 5 && f == SlotFlag(i)
  }

  function LastChar(s: string): char
    requires s != []
  {
    s[|s| - 1]
  }

  lemma SlotKeysEnd(i: nat)
    ensures LastChar(SlotFlag(i)) == 'n'
    ensures '0' <= LastChar(SlotName(i)) <= '9'
  {
    var t := NatText(i);
    assert SlotName(i)[|SlotName(i)| - 1] == t[|t| - 1];
  }

  /** Every flag key ends in `n`. */
  lemma FlagKeyEnd(f: string)
    requires FlagKey(f)
    ensures f != [] && LastChar(f) == 'n'
  {
    if f != "checkedIn" && f != "leader_checkedIn" {
      var i :| 1 <= i <= 5 && f == SlotFlag(i);
      SlotKeysEnd(i);
    }
  }

  /** The check-in write of `f` leaves every other key that does not end in
      `t` as it was; the `_at` twin it also writes ends in `t`. */
  lemma GetAfterCheckIn(d: Doc, f: string, now: nat, k: string)
    requires k != f && k != [] && LastChar(k) != 't'
    ensures Get(Merge(d, CheckInUpdate(f, now)), k) == Get(d, k)
  {
    assert LastChar(f + "_at") == 't';
  }

  lemma {:induction false} SlotsAfterCheckIn(d: Doc, f: string, now: nat, n: nat)
    requires FlagKey(f) && n <= 5
    ensures SlotCandidates(Merge(d, CheckInUpdate(f, now)), n) == MarkField(SlotCandidates(d, n), f)
  {
    if n > 0 {
      var d' := Merge(d, CheckInUpdate(f, now));
      SlotsAfterCheckIn(d, f, now, n - 1);
      SlotKeysEnd(n);
      FlagKeyEnd(f);
      GetAfterCheckIn(d, f, now, SlotName(n));
      if SlotFlag(n) != f {
        GetAfterCheckIn(d, f, now, SlotFlag(n));
      }
      assert SlotCandidate(d', n) == MarkField(SlotCandidate(d, n), f);
      MarkFieldConcat(SlotCandidates(d, n - 1), SlotCandidate(d, n), f);
    }
  }

  lemma MarkFieldConcat(a: seq<Candidate>, b: seq<Candidate>, f: string)
    ensures MarkField(a + b, f) == MarkField(a, f) + MarkField(b, f)
  {
  }

  /** Checking in the entity of `field` changes only the statuses of the
      entities carrying that field: they become set. */
  lemma CandidatesAfterCheckIn(d: Doc, f: string, now: nat)
    requires FlagKey(f)
    ensures Candidates(Merge(d, CheckInUpdate(f, now))) == MarkField(Candidates(d), f)
  {
    var d' := Merge(d, CheckInUpdate(f, now));
    FlagKeyEnd(f);
    assert LastChar("name") == 'e';
    GetAfterCheckIn(d, f, now, "name");
    if Truthy(Get(d, "name")) {
      if f != "checkedIn" {
        GetAfterCheckIn(d, f, now, "checkedIn");
      }
    } else {
      assert LastChar("Team Leader Name") == 'e';
      GetAfterCheckIn(d, f, now, "Team Leader Name");
      if f != "leader_checkedIn" {
        GetAfterCheckIn(d, f, now, "leader_checkedIn");
      }
      assert LeaderCandidates(d') == MarkField(LeaderCandidates(d), f);
      SlotsAfterCheckIn(d, f, now, 5);
      MarkFieldConcat(LeaderCandidates(d), SlotCandidates(d, 5), f);
    }
  }

  /** Every entity's field is a flag key. */
  lemma CandidateFieldsAreFlags(d: Doc)
    ensures forall c :: c in Candidates(d) ==> FlagKey(c.field)
  {
    SlotFieldsAreFlags(d, 5);
  }

  lemma {:induction false} SlotFieldsAreFlags(d: Doc, n: nat)
    requires n <= 5
    ensures forall c :: c in SlotCandidates(d, n) ==> FlagKey(c.field)
  {
    if n > 0 {
      SlotFieldsAreFlags(d, n - 1);
    }
  }

  /** The scan property the door relies on: scanning the same single-entity
      document twice checks it in once, then reports a duplicate. */
  lemma ScanTwice(docs: map<string, Doc>, barcode: string, key: string, now: nat)
    requires DocKey(barcode) == Some(key) && key in docs
    requires |Candidates(docs[key])| == 1 && !Candidates(docs[key])[0].status
    ensures ScanOutcome(docs, barcode).Show? && ScanOutcome(docs, barcode).result.Success?
    ensures var again := ScanOutcome(ScanStore(docs, barcode, now), barcode);
      again.Show? && again.result.Duplicate?
  {
    var c := Candidates(docs[key])[0];
    CandidateFieldsAreFlags(docs[key]);
    assert c in Candidates(docs[key]);
    CandidatesAfterCheckIn(docs[key], c.field, now);
  }

  /** `MarkField` of an entity's own field, when fields are distinct, sets
      exactly that entity's status. */
  lemma MarkOne(cs: seq<Candidate>, i: nat)
    requires i < |cs|
    requires forall j, k :: 0 <= j < k < |cs| ==> cs[j].field != cs[k].field
    ensures MarkField(cs, cs[i].field) == cs[i := cs[i].(status := true)]
  {
  }

  /** No two entities of a document share a flag field. */
  lemma CandidateFieldsDistinct(d: Doc)
    ensures forall j, k :: 0 <= j < k < |Candidates(d)| ==> Candidates(d)[j].field != Candidates(d)[k].field
  {
    if !Truthy(Get(d, "name")) {
      var l := LeaderCandidates(d);
      var ss := SlotCandidates(d, 5);
      SlotFieldsDistinct(d, 5);
      var cs: seq<Candidate> := l + ss;
      assert Candidates(d) == cs;
      forall j, k | 0 <= j < k < |cs| ensures cs[j].field != cs[k].field {
        if j < |l| {
          var c := ss[k - |l|];
          assert c in ss && cs[k] == c;
          var i :| 1 <= i <= 5 && c.field == SlotFlag(i);
          assert SlotFlag(i)[0] == 'm';
        } else {
          assert cs[j] == ss[j - |l|] && cs[k] == ss[k - |l|];
        }
      }
    }
  }

  /** The slot entities carry flags of their own slots, ascending. */
  lemma {:induction false} SlotFieldsDistinct(d: Doc, n: nat)
    requires n <= 5
    ensures forall c :: c in SlotCandidates(d, n) ==> exists i :: 1 <= i <= n && c.field == SlotFlag(i)
    ensures forall j, k :: 0 <= j < k < |SlotCandidates(d, n)| ==>
      SlotCandidates(d, n)[j].field != SlotCandidates(d, n)[k].field
  {
    if n > 0 {
      SlotFieldsDistinct(d, n - 1);
      var prev := SlotCandidates(d, n - 1);
      var cs := SlotCandidates(d, n);
      forall c | c in cs ensures exists i :: 1 <= i <= n && c.field == SlotFlag(i) {
        if c in prev {
          var i :| 1 <= i <= n - 1 && c.field == SlotFlag(i);
          assert 1 <= i <= n && c.field == SlotFlag(i);
        } else {
          assert c.field == SlotFlag(n);
        }
      }
      forall j, k | 0 <= j < k < |cs| ensures cs[j].field != cs[k].field {
        if k >= |prev| {
          assert cs[j] in prev;
          var i :| 1 <= i <= n - 1 && cs[j].field == SlotFlag(i);
          assert SlotFlag(i)[7] == DigitChar(i);
          assert SlotFlag(n)[7] == DigitChar(n);
        } else {
          assert cs[j] == prev[j] && cs[k] == prev[k];
        }
      }
    }
  }

  /** Checking in entity `i` of a document sets that entity's status and no
      other: the entity list read afterwards is the selection list updated. */
  lemma CheckInOne(d: Doc, i: nat, now: nat)
    requires i < |Candidates(d)|
    ensures var cs := Candidates(d);
      Candidates(Merge(d, CheckInUpdate(cs[i].field, now))) == cs[i := cs[i].(status := true)]
  {
    var cs := Candidates(d);
    CandidateFieldsAreFlags(d);
    assert cs[i] in cs;
    CandidatesAfterCheckIn(d, cs[i].field, now);
    CandidateFieldsDistinct(d);
    MarkOne(cs, i);
  }

  /** The scanner page: the result screen, the selection list, and the
      attendee collection it reads and writes. */
  class ScannerPage {
    const attendees: Collection
    var scanResult: Option<ScanResult>
    var modal: Option<Modal>

    /** An open selection list shows the current entities of an existing
        document with several of them. */
    ghost predicate Valid()
      reads this, attendees
    {
      modal.Some? ==>
        && DocKey(modal.value.id).Some?
        && DocKey(modal.value.id).value in attendees.docs
        && |modal.value.members| >= 2
        && modal.value.members == Candidates(attendees.docs[DocKey(modal.value.id).value])
    }

    constructor (store: Collection)
      ensures attendees == store && scanResult == None && modal == None
      ensures Valid()
    {
      attendees := store;
      scanResult := None;
      modal := None;
    }

    /** `handleScan`: look the code up and show, check in or select. */
    method HandleScan(barcode: string, now: nat)
      requires Valid()
      modifies this, attendees
      ensures Valid()
      ensures attendees.docs == ScanStore(old(attendees.docs), barcode, now)
      ensures match ScanOutcome(old(attendees.docs), barcode)
        case Show(r) => scanResult == Some(r) && modal == old(modal)
        case Select(m) => modal == Some(m) && scanResult == old(scanResult)
    {
      var key := DocKey(barcode);
      if key.None? {
        if RefusedDocPath(barcode) {
          scanResult := Some(Failed("Error processing check-in.", None));
        } else {
          scanResult := Some(Failed("Attendee not found.", Some(barcode)));
        }
        return;
      }
      var snap := attendees.GetDoc(key.value);
      if snap.None? {
        scanResult := Some(Failed("Attendee not found.", Some(barcode)));
        return;
      }
      var data := snap.value;
      var members := ExtractCandidates(data);
      if |members| == 0 {
        scanResult := Some(Failed("Empty Record Found", Some(barcode)));
      } else if |members| == 1 {
        var mem := members[0];
        if mem.status {
          scanResult := Some(Duplicate(mem.name + " already checked in!", Shown(mem.name, Get(data, "event_name"))));
        } else {
          var ok := attendees.UpdateDoc(key.value, CheckInUpdate(mem.field, now));
          scanResult := Some(Success(mem.name + " Checked In!", Shown(mem.name, Get(data, "event_name"))));
        }
      } else {
        modal := Some(Modal(barcode, Get(data, "event_name"), members));
      }
    }

    /** `checkInMember(i)`: check in entity `i` of the open selection list and
        mark it checked in there. */
    method CheckInMember(i: nat, now: nat)
      requires Valid()
      requires modal.Some? && i < |modal.value.members|
      modifies this, attendees
      ensures Valid()
      ensures var m := old(modal.value);
        && var key := DocKey(m.id).value;
        && attendees.docs == old(attendees.docs)[key := Merge(old(attendees.docs)[key], CheckInUpdate(m.members[i].field, now))]
        && modal == Some(m.(members := m.members[i := m.members[i].(status := true)]))
        && scanResult == old(scanResult)
    {
      var m := modal.value;
      var mem := m.members[i];
      var key := DocKey(m.id).value;
      var ok := attendees.UpdateDoc(key, CheckInUpdate(mem.field, now));
      if ok {
        modal := Some(m.(members := m.members[i := mem.(status := true)]));
      }
      CheckInOne(old(attendees.docs)[key], i, now);
    }

    /** `resetScan`: back to the camera. */
    method Reset()
      modifies this
      ensures scanResult == None && modal == None
      ensures Valid()
    {
      scanResult := None;
      modal := None;
    }
  }
}
