/** The certificate designer: a template image and a list of text fields
    placed on an 800 by 600 canvas. Fields are added from a type, edited by
    merging updates, deleted by id, and one of them may be selected; the whole
    configuration is saved into one document of the template collection. */
module CertificateAdmin {
  import opened Json
  import opened Store

  const CanvasWidth: int := 800
  const CanvasHeight: int := 600
  /** The template document the designer edits. */
  const ConfigName: string := "innovate_2026_cert"
  /** The longest encoded image accepted as a template. */
  const MaxEncodedLength: nat := 1048000

  /** `f.id` */
  function IdOf(f: Doc): Value {
    Get(f, "id")
  }

  /** The field `addField(type)` creates at clock reading `now`: centred on
      the canvas, key the lowercased type, label the type, bold black 24px
      Arial. */
  function NewField(typ: string, now: nat): (f: Doc)
    ensures IdOf(f) == Num(now)
    ensures Get(f, "key") == Str(Lower(typ)) && Get(f, "label") == Str(typ)
    ensures Get(f, "x") == Num(CanvasWidth / 2) && Get(f, "y") == Num(CanvasHeight / 2)
    ensures Get(f, "fontSize") == Num(24) && Get(f, "fontWeight") == Str("bold")
    ensures Get(f, "color") == Str("#000000") && Get(f, "fontFamily") == Str("Arial")
  {
    map["id" := Num(now), "key" := Str(Lower(typ)), "label" := Str(typ), "x" := Num(400), "y" := Num(300),
        "fontSize" := Num(24), "fontWeight" := Str("bold"), "color" := Str("#000000"), "fontFamily" := Str("Arial")]
  }

  /** `fields.map(f => f.id === id ? { ...f, ...updates } : f)` */
  function UpdateFields(fields: seq<Doc>, id: Value, updates: Doc): (r: seq<Doc>)
    ensures |r| == |fields|
  {
    if fields == [] then []
    else [if IdOf(fields[0]) == id then Merge(fields[0], updates) else fields[0]]
         + UpdateFields(fields[1..], id, updates)
  }

  /** `fields.filter(f => f.id !== id)` */
  function DeleteFields(fields: seq<Doc>, id: Value): (r: seq<Doc>)
    ensures |r| <= |fields|
  {
    if fields == [] then []
    else (if IdOf(fields[0]) != id then [fields[0]] else []) + DeleteFields(fields[1..], id)
  }

  /** `fields.find(f => f.id === id)` */
  function FindField(fields: seq<Doc>, id: Value): Option<Doc> {
    if fields == [] then None
    else if IdOf(fields[0]) == id then Some(fields[0])
    else FindField(fields[1..], id)
  }

  /** `[...new Set(fields.map(f => f.key))]`, built from the end: a key is
      kept where it first occurs. */
  function PreviewKeys(fields: seq<Doc>): seq<Value> {
    if fields == [] then []
    else [Get(fields[0], "key")] + Without(PreviewKeys(fields[1..]), Get(fields[0], "key"))
  }

  function Without(s: seq<Value>, x: Value): (r: seq<Value>)
    ensures forall y :: y in r <==> y in s && y != x
    ensures |r| <= |s|
  {
    if s == [] then [] else (if s[0] == x then [] else [s[0]]) + Without(s[1..], x)
  }

  /** What the template upload does with a file: a PDF is refused, and so is
      an encoding longer than the limit; otherwise it becomes the template. */
  function UploadedTemplate(current: Value, isPdf: bool, encoded: string): (r: Value)
    ensures isPdf || |encoded| > MaxEncodedLength ==> r == current
    ensures !isPdf && |encoded| <= MaxEncodedLength ==> r == Str(encoded)
  {
    if isPdf then current
    else if |encoded| > MaxEncodedLength then current
    else Str(encoded)
  }

  // ------------------------------------------------------------ properties

  /** `updateField` merges the updates into every field with that id and
      leaves the others, and the order, as they were. */
  lemma {:induction false} UpdateFieldsSpec(fields: seq<Doc>, id: Value, updates: Doc)
    ensures forall i :: 0 <= i < |fields| && IdOf(fields[i]) != id ==> UpdateFields(fields, id, updates)[i] == fields[i]
    ensures forall i :: 0 <= i < |fields| && IdOf(fields[i]) == id ==>
      UpdateFields(fields, id, updates)[i] == Merge(fields[i], updates)
  {
    if fields != [] {
      UpdateFieldsSpec(fields[1..], id, updates);
      var rest := UpdateFields(fields[1..], id, updates);
      var r := UpdateFields(fields, id, updates);
      assert r[1..] == rest;
      forall i | 0 < i < |fields| ensures r[i] == rest[i - 1] && fields[i] == fields[1..][i - 1] {
      }
    }
  }

  /** `deleteField` keeps exactly the fields with another id, in order. */
  lemma {:induction false} DeleteFieldsSpec(fields: seq<Doc>, id: Value)
    ensures forall f :: f in DeleteFields(fields, id) <==> f in fields && IdOf(f) != id
    ensures FindField(DeleteFields(fields, id), id) == None
    ensures (forall f :: f in fields ==> IdOf(f) != id) ==> DeleteFields(fields, id) == fields
  {
    if fields != [] {
      DeleteFieldsSpec(fields[1..], id);
      assert fields == [fields[0]] + fields[1..];
    }
    FindFieldSpec(DeleteFields(fields, id), id);
  }

  /** `find` returns the first field with the id, or nothing when none has it. */
  lemma {:induction false} FindFieldSpec(fields: seq<Doc>, id: Value)
    ensures FindField(fields, id).None? <==> forall f :: f in fields ==> IdOf(f) != id
    ensures FindField(fields, id).Some? ==>
      exists i :: 0 <= i < |fields| && fields[i] == FindField(fields, id).value && IdOf(fields[i]) == id
        && forall j :: 0 <= j < i ==> IdOf(fields[j]) != id
  {
    if fields != [] {
      FindFieldSpec(fields[1..], id);
      if IdOf(fields[0]) != id && FindField(fields, id).Some? {
        var i :| 0 <= i < |fields[1..]| && fields[1..][i] == FindField(fields, id).value && IdOf(fields[1..][i]) == id
          && forall j :: 0 <= j < i ==> IdOf(fields[1..][j]) != id;
        assert fields[i + 1] == fields[1..][i];
      }
      assert fields == [fields[0]] + fields[1..];
    }
  }

  /** A freshly added field is what the selection then shows, as long as no
      existing field already had its id. */
  lemma AddedFieldSelected(fields: seq<Doc>, typ: string, now: nat)
    requires forall f :: f in fields ==> IdOf(f) != Num(now)
    ensures FindField(fields + [NewField(typ, now)], Num(now)) == Some(NewField(typ, now))
  {
    FindAppend(fields, NewField(typ, now), Num(now));
  }

  lemma {:induction false} FindAppend(fields: seq<Doc>, f: Doc, id: Value)
    requires forall g :: g in fields ==> IdOf(g) != id
    requires IdOf(f) == id
    ensures FindField(fields + [f], id) == Some(f)
  {
    if fields != [] {
      assert (fields + [f])[1..] == fields[1..] + [f];
      FindAppend(fields[1..], f, id);
    }
  }

  /** The preview inputs: every field key once, and nothing else. */
  lemma {:induction false} PreviewKeysSpec(fields: seq<Doc>)
    ensures forall k :: k in PreviewKeys(fields) <==> exists f :: f in fields && Get(f, "key") == k
    ensures forall i, j :: 0 <= i < j < |PreviewKeys(fields)| ==> PreviewKeys(fields)[i] != PreviewKeys(fields)[j]
    ensures |PreviewKeys(fields)| <= |fields|
  {
    if fields != [] {
      PreviewKeysSpec(fields[1..]);
      var rest := Without(PreviewKeys(fields[1..]), Get(fields[0], "key"));
      WithoutDistinct(PreviewKeys(fields[1..]), Get(fields[0], "key"));
      forall k | k in PreviewKeys(fields) ensures exists f :: f in fields && Get(f, "key") == k {
        if k != Get(fields[0], "key") {
          var f :| f in fields[1..] && Get(f, "key") == k;
          assert f in fields;
        }
      }
      forall k | exists f :: f in fields && Get(f, "key") == k ensures k in PreviewKeys(fields) {
        var f :| f in fields && Get(f, "key") == k;
        if f != fields[0] && k != Get(fields[0], "key") {
          assert f in fields[1..];
        }
      }
      assert PreviewKeys(fields)[0] !in rest;
      forall i, j | 0 <= i < j < |PreviewKeys(fields)| ensures PreviewKeys(fields)[i] != PreviewKeys(fields)[j] {
        if i > 0 {
          assert PreviewKeys(fields)[i] == rest[i - 1] && PreviewKeys(fields)[j] == rest[j - 1];
        } else {
          assert PreviewKeys(fields)[j] in rest;
        }
      }
    }
  }

  /** The index of the first field carrying the key, or the number of fields
      when none does. */
  function FirstKeyAt(fields: seq<Doc>, k: Value): (n: nat)
    ensures n <= |fields|
    ensures n < |fields| ==> Get(fields[n], "key") == k
  {
    if fields == [] then 0
    else if Get(fields[0], "key") == k then 0
    else 1 + FirstKeyAt(fields[1..], k)
  }

  /** Keys listed in the order in which their first fields occur. */
  predicate InFirstOrder(fields: seq<Doc>, keys: seq<Value>) {
    forall i, j :: 0 <= i < j < |keys| ==> FirstKeyAt(fields, keys[i]) < FirstKeyAt(fields, keys[j])
  }

  /** The preview inputs come in the order in which each key first occurs
      among the fields, as a `Set` keeps insertion order. */
  lemma {:induction false} PreviewKeysOrder(fields: seq<Doc>)
    ensures InFirstOrder(fields, PreviewKeys(fields))
    ensures forall i :: 0 <= i < |PreviewKeys(fields)| ==> FirstKeyAt(fields, PreviewKeys(fields)[i]) < |fields|
  {
    if fields != [] {
      var k0 := Get(fields[0], "key");
      var p := PreviewKeys(fields[1..]);
      PreviewKeysOrder(fields[1..]);
      var w := Without(p, k0);
      WithoutInFirstOrder(fields[1..], p, k0);
      var r := PreviewKeys(fields);
      assert r == [k0] + w;
      forall i | 0 <= i < |w|
        ensures FirstKeyAt(fields, w[i]) == 1 + FirstKeyAt(fields[1..], w[i])
        ensures FirstKeyAt(fields[1..], w[i]) < |fields[1..]|
      {
        assert w[i] in w;
        var x :| 0 <= x < |p| && p[x] == w[i];
      }
      forall i, j | 0 <= i < j < |r| ensures FirstKeyAt(fields, r[i]) < FirstKeyAt(fields, r[j]) {
        if i > 0 {
          assert r[i] == w[i - 1] && r[j] == w[j - 1];
        } else {
          assert r[j] == w[j - 1];
        }
      }
    }
  }

  lemma {:induction false} WithoutInFirstOrder(fields: seq<Doc>, s: seq<Value>, x: Value)
    requires InFirstOrder(fields, s)
    ensures InFirstOrder(fields, Without(s, x))
  {
    if s != [] {
      WithoutInFirstOrder(fields, s[1..], x);
      var t := Without(s[1..], x);
      var r := Without(s, x);
      if s[0] != x {
        assert r == [s[0]] + t;
        forall j | 0 <= j < |t| ensures FirstKeyAt(fields, s[0]) < FirstKeyAt(fields, t[j]) {
          assert t[j] in t;
          var y :| 0 <= y < |s[1..]| && s[1..][y] == t[j];
          assert s[y + 1] == t[j];
        }
        forall i, j | 0 <= i < j < |r| ensures FirstKeyAt(fields, r[i]) < FirstKeyAt(fields, r[j]) {
          if i > 0 {
            assert r[i] == t[i - 1] && r[j] == t[j - 1];
          } else {
            assert r[j] == t[j - 1];
          }
        }
      } else {
        assert r == t;
      }
    }
  }

  /** `filter` over a concatenation is the concatenation of the filters: the
      remaining fields keep their order and multiplicity. */
  lemma {:induction false} DeleteFieldsAppend(a: seq<Doc>, b: seq<Doc>, id: Value)
    ensures DeleteFields(a + b, id) == DeleteFields(a, id) + DeleteFields(b, id)
  {
    if a != [] {
      assert (a + b)[1..] == a[1..] + b;
      DeleteFieldsAppend(a[1..], b, id);
    } else {
      assert a + b == b;
    }
  }

  lemma {:induction false} WithoutDistinct(s: seq<Value>, x: Value)
    requires forall i, j :: 0 <= i < j < |s| ==> s[i] != s[j]
    ensures forall i, j :: 0 <= i < j < |Without(s, x)| ==> Without(s, x)[i] != Without(s, x)[j]
  {
    if s != [] {
      WithoutDistinct(s[1..], x);
      var r := Without(s, x);
      var t := Without(s[1..], x);
      assert s[0] !in s[1..];
      if s[0] != x {
        forall i, j | 0 <= i < j < |r| ensures r[i] != r[j] {
          if i > 0 {
            assert r[i] == t[i - 1] && r[j] == t[j - 1];
          } else {
            assert r[j] in t;
          }
        }
      }
    }
  }

  // ------------------------------------------------------------ the page

  class Designer {
    /** The template collection of the store. */
    const templates: Collection
    var templateUrl: Value
    var fields: seq<Doc>
    var selectedFieldId: Value
    var saveStatus: string
    var loading: bool

    constructor (store: Collection)
      ensures templates == store
      ensures templateUrl == Str("") && fields == [] && selectedFieldId == Null
      ensures saveStatus == "" && !loading
    {
      templates := store;
      templateUrl := Str("");
      fields := [];
      selectedFieldId := Null;
      saveStatus := "";
      loading := false;
    }

    /** The field shown in the side panel. */
    function SelectedField(): Option<Doc>
      reads this
    {
      FindField(fields, selectedFieldId)
    }

    /** The listener on the template document: a stored configuration
        replaces the template and the field list. */
    method OnConfigSnapshot(stored: Option<Doc>)
      modifies this
      ensures stored.None? ==> templateUrl == old(templateUrl) && fields == old(fields)
      ensures stored.Some? ==> templateUrl == Or(Get(stored.value, "imageUrl"), Str(""))
      ensures stored.Some? ==> fields == StoredFields(Get(stored.value, "fields"))
      ensures selectedFieldId == old(selectedFieldId) && saveStatus == old(saveStatus) && loading == old(loading)
    {
      if stored.Some? {
        templateUrl := Or(Get(stored.value, "imageUrl"), Str(""));
        fields := StoredFields(Get(stored.value, "fields"));
      }
    }

    /** The image upload handler, with the compressed encoding given. */
    method UploadTemplate(isPdf: bool, encoded: string)
      modifies this
      ensures templateUrl == UploadedTemplate(old(templateUrl), isPdf, encoded)
      ensures fields == old(fields) && selectedFieldId == old(selectedFieldId)
      ensures saveStatus == old(saveStatus) && loading == old(loading)
    {
      if isPdf {
        return;
      }
      if |encoded| > MaxEncodedLength {
        return;
      }
      templateUrl := Str(encoded);
    }

    /** `addField(type)` at clock reading `now`: append, then select. */
    method AddField(typ: string, now: nat)
      modifies this
      ensures fields == old(fields) + [NewField(typ, now)]
      ensures selectedFieldId == Num(now)
      ensures templateUrl == old(templateUrl) && saveStatus == old(saveStatus) && loading == old(loading)
    {
      var newField := NewField(typ, now);
      fields := fields + [newField];
      selectedFieldId := IdOf(newField);
    }

    method UpdateField(id: Value, updates: Doc)
      modifies this
      ensures fields == UpdateFields(old(fields), id, updates)
      ensures selectedFieldId == old(selectedFieldId)
      ensures templateUrl == old(templateUrl) && saveStatus == old(saveStatus) && loading == old(loading)
    {
      fields := UpdateFields(fields, id, updates);
    }

    /** `deleteField`: the selection is cleared exactly when it was that id. */
    method DeleteField(id: Value)
      modifies this
      ensures fields == DeleteFields(old(fields), id)
      ensures selectedFieldId == if old(selectedFieldId) == id then Null else old(selectedFieldId)
      ensures templateUrl == old(templateUrl) && saveStatus == old(saveStatus) && loading == old(loading)
    {
      fields := DeleteFields(fields, id);
      if selectedFieldId == id {
        selectedFieldId := Null;
      }
    }

    /** `onSelect` from a field on the canvas. */
    method Select(id: Value)
      modifies this
      ensures selectedFieldId == id
      ensures fields == old(fields) && templateUrl == old(templateUrl)
      ensures saveStatus == old(saveStatus) && loading == old(loading)
    {
      selectedFieldId := id;
    }

    /** `saveConfig()` with the store write's outcome given: without a template
        nothing is written and nothing changes; otherwise the template, the
        fields and the time are merged into the configuration document and
        the status ends "saved", or "error" when the write fails. */
    method SaveConfig(writeOk: bool, now: nat)
      modifies this, templates
      ensures !Truthy(old(templateUrl)) ==>
        templates.docs == old(templates.docs) && saveStatus == old(saveStatus) && loading == old(loading)
      ensures Truthy(old(templateUrl)) && writeOk ==>
        && templates.docs == old(templates.docs)[ConfigName := Merge(
             if ConfigName in old(templates.docs) then old(templates.docs)[ConfigName] else map[],
             ConfigRecord(old(templateUrl), old(fields), now))]
        && saveStatus == "saved" && !loading
      ensures Truthy(old(templateUrl)) && !writeOk ==>
        templates.docs == old(templates.docs) && saveStatus == "error" && !loading
      ensures templateUrl == old(templateUrl) && fields == old(fields) && selectedFieldId == old(selectedFieldId)
    {
      if !Truthy(templateUrl) {
        return;
      }
      loading := true;
      saveStatus := "saving";
      if writeOk {
        templates.SetDocMerge(ConfigName, ConfigRecord(templateUrl, fields, now));
        saveStatus := "saved";
      } else {
        saveStatus := "error";
      }
      loading := false;
    }

    /** The three-second timer set by a successful save. */
    method StatusTimerFired()
      modifies this
      ensures saveStatus == ""
      ensures templateUrl == old(templateUrl) && fields == old(fields)
      ensures selectedFieldId == old(selectedFieldId) && loading == old(loading)
    {
      saveStatus := "";
    }
  }

  /** `data.fields || []`: an array's entries read as objects; any other
      value gives no fields. */
  function StoredFields(v: Value): (r: seq<Doc>)
    ensures v.Arr? ==> |r| == |v.items| && forall i :: 0 <= i < |r| ==> r[i] == Fields(v.items[i])
    ensures !v.Arr? ==> r == []
  {
    if v.Arr? then ObjectsOf(v.items) else []
  }

  function ObjectsOf(vs: seq<Value>): (r: seq<Doc>)
    ensures |r| == |vs| && forall i :: 0 <= i < |r| ==> r[i] == Fields(vs[i])
  {
    if vs == [] then [] else [Fields(vs[0])] + ObjectsOf(vs[1..])
  }

  /** The document a save merges: template, fields and save time. */
  function ConfigRecord(url: Value, fields: seq<Doc>, now: nat): (d: Doc)
    ensures d.Keys == {"imageUrl", "fields", "updatedAt"}
    ensures d["imageUrl"] == url && d["updatedAt"] == Stamp(now)
    ensures d["fields"].Arr? && |d["fields"].items| == |fields|
    ensures StoredFields(d["fields"]) == fields
  {
    var r := map["imageUrl" := url, "fields" := Arr(AsValues(fields)), "updatedAt" := Stamp(now)];
    assert ObjectsOf(AsValues(fields)) == fields;
    r
  }

  function AsValues(fields: seq<Doc>): (r: seq<Value>)
    ensures |r| == |fields| && forall i :: 0 <= i < |r| ==> r[i] == Obj(fields[i])
  {
    if fields == [] then [] else [Obj(fields[0])] + AsValues(fields[1..])
  }
}
