/** The event editor: one event record, loaded from the store when it exists,
    edited field by field, with helpers that add, update and remove entries of
    its list fields (timeline, sponsors, prizes). */
module EventEditor {
  import opened Json
  import opened Store

  /** The document of the events collection the editor loads and saves. */
  const EventId: string := "innovate-for-impact"

  /** The record the editor starts from. */
  function DefaultRecord(): (d: Doc)
    ensures d.Keys == {"title", "tagline", "description", "venue", "registrationLink", "dates", "timeline", "sponsors", "prizes"}
    ensures d["title"] == Str("Innovate for Impact")
    ensures forall k :: k in {"tagline", "description", "venue", "registrationLink"} ==> d[k] == Str("")
    ensures forall k :: k in {"timeline", "sponsors", "prizes"} ==> d[k] == Arr([])
    ensures d["dates"] == Obj(map["start" := Str(""), "end" := Str("")])
  {
    map["title" := Str("Innovate for Impact"), "tagline" := Str(""), "description" := Str(""),
        "venue" := Str(""), "registrationLink" := Str(""),
        "dates" := Obj(map["start" := Str(""), "end" := Str("")]),
        "timeline" := Arr([]), "sponsors" := Arr([]), "prizes" := Arr([])]
  }

  /** `{ ...prev, [field]: value }` */
  function SetField(d: Doc, field: string, value: Value): Doc {
    d[field := value]
  }

  /** `{ ...prev, [parent]: { ...prev[parent], [field]: value } }` */
  function SetNested(d: Doc, parent: string, field: string, value: Value): Doc {
    d[parent := Obj(Fields(Get(d, parent))[field := value])]
  }

  /** `addItem`: the list with `template` appended. */
  function AddedItem(d: Doc, field: string, template: Value): Option<Doc> {
    var items := Items(Get(d, field));
    if items.None? then None else Some(d[field := Arr(items.value + [template])])
  }

  /** `updateItem`: entry `index` with `subField` set. */
  function UpdatedItem(d: Doc, field: string, index: nat, subField: string, value: Value): Doc
    requires Items(Get(d, field)).Some? && index < |Items(Get(d, field)).value|
  {
    var items := Items(Get(d, field)).value;
    d[field := Arr(items[index := Obj(Fields(items[index])[subField := value])])]
  }

  /** Where `splice(index, 1)` starts: a negative index counts from the end,
      and both ends are clamped to the list. */
  function SpliceStart(len: nat, index: int): (k: nat)
    ensures k <= len
  {
    if index < 0 then (if len + index < 0 then 0 else len + index)
    else if index > len then len else index
  }

  /** The list after `splice(index, 1)`. */
  function Spliced(items: seq<Value>, index: int): seq<Value> {
    var k := SpliceStart(|items|, index);
    if k < |items| then items[..k] + items[k + 1..] else items
  }

  /** `removeItem` */
  function RemovedItem(d: Doc, field: string, index: int): Option<Doc> {
    var items := Items(Get(d, field));
    if items.None? then None else Some(d[field := Arr(Spliced(items.value, index))])
  }

  // ------------------------------------------------------------ properties

  /** `handleChange` sets one key and leaves every other key as it was. */
  lemma SetFieldFrame(d: Doc, field: string, value: Value)
    ensures var r := SetField(d, field, value);
      && r.Keys == d.Keys + {field}
      && Get(r, field) == value
      && forall k :: k != field ==> Get(r, k) == Get(d, k)
  {
  }

  /** `handleNestedChange` sets one field of one nested object; the other
      fields of that object and the other top-level keys are kept. */
  lemma SetNestedFrame(d: Doc, parent: string, field: string, value: Value)
    ensures var r := SetNested(d, parent, field, value);
      && r.Keys == d.Keys + {parent}
      && Get(r, parent).Obj?
      && Get(Get(r, parent).fields, field) == value
      && (forall k :: k != field ==> Get(Get(r, parent).fields, k) == Get(Fields(Get(d, parent)), k))
      && (forall k :: k != parent ==> Get(r, k) == Get(d, k))
  {
  }

  /** `addItem` appends the template at the end of the list, one longer; a
      missing list counts as empty; only that key changes. */
  lemma AddedItemSpec(d: Doc, field: string, template: Value)
    requires Items(Get(d, field)).Some?
    ensures var items := Items(Get(d, field)).value;
      && AddedItem(d, field, template).Some?
      && var r := AddedItem(d, field, template).value;
      && Get(r, field).Arr?
      && |Get(r, field).items| == |items| + 1
      && Get(r, field).items[..|items|] == items
      && Get(r, field).items[|items|] == template
      && (!Truthy(Get(d, field)) ==> Get(r, field) == Arr([template]))
      && (forall k :: k != field ==> Get(r, k) == Get(d, k))
  {
  }

  /** `updateItem` changes one field of one entry: the list keeps its length,
      the other entries and the entry's other fields are kept. */
  lemma UpdatedItemSpec(d: Doc, field: string, index: nat, subField: string, value: Value)
    requires Items(Get(d, field)).Some? && index < |Items(Get(d, field)).value|
    ensures var items := Items(Get(d, field)).value;
      var r := UpdatedItem(d, field, index, subField, value);
      && Get(r, field).Arr?
      && |Get(r, field).items| == |items|
      && (forall j :: 0 <= j < |items| && j != index ==> Get(r, field).items[j] == items[j])
      && Get(r, field).items[index].Obj?
      && Get(Get(r, field).items[index].fields, subField) == value
      && (forall k :: k != subField ==>
            Get(Get(r, field).items[index].fields, k) == Get(Fields(items[index]), k))
      && (forall k :: k != field ==> Get(r, k) == Get(d, k))
  {
  }

  /** `splice(index, 1)` with an index inside the list removes exactly that
      entry and keeps the others in order. */
  lemma SplicedInRange(items: seq<Value>, index: int)
    requires 0 <= index < |items|
    ensures var r := Spliced(items, index);
      && |r| == |items| - 1
      && (forall j :: 0 <= j < index ==> r[j] == items[j])
      && (forall j :: index <= j < |r| ==> r[j] == items[j + 1])
      && multiset(r) + multiset{items[index]} == multiset(items)
  {
    assert items == items[..index] + [items[index]] + items[index + 1..];
  }

  /** An index at or past the end removes nothing. */
  lemma SplicedPastEnd(items: seq<Value>, index: int)
    requires index >= |items|
    ensures Spliced(items, index) == items
  {
  }

  /** A negative index counts from the end: -1 removes the last entry, and an
      index before the start removes the first. */
  lemma SplicedNegative(items: seq<Value>, index: int)
    requires index < 0 && items != []
    ensures -index <= |items| ==> Spliced(items, index) == Spliced(items, |items| + index)
    ensures -index > |items| ==> Spliced(items, index) == items[1..]
  {
  }

  /** `removeItem` touches only its own key. */
  lemma RemovedItemFrame(d: Doc, field: string, index: int)
    requires Items(Get(d, field)).Some?
    ensures RemovedItem(d, field, index).Some?
    ensures forall k :: k != field ==> Get(RemovedItem(d, field, index).value, k) == Get(d, k)
    ensures Get(RemovedItem(d, field, index).value, field) == Arr(Spliced(Items(Get(d, field)).value, index))
  {
  }

  // ------------------------------------------------------------ the page

  /** The editor page's record state. */
  class EditorPage {
    var data: Doc
    var loading: bool
    /** A state updater threw while the page rendered, and the page unmounted. */
    var crashed: bool

    constructor ()
      ensures data == DefaultRecord() && loading && !crashed
    {
      data := DefaultRecord();
      loading := true;
      crashed := false;
    }

    /** The initial fetch: a stored record replaces the default wholesale;
        an absent one leaves the default. */
    method Load(stored: Option<Doc>)
      modifies this
      ensures data == if stored.Some? then stored.value else old(data)
      ensures !loading
      ensures crashed == old(crashed)
    {
      if stored.Some? {
        data := stored.value;
      }
      loading := false;
    }

    /** `handleSave`: the record is merged into the event document, which is
        created when missing; a failed write leaves the store as it was. */
    method Save(events: Collection, writeOk: bool)
      modifies events
      ensures writeOk ==> events.docs == old(events.docs)[EventId := Merge(
        if EventId in old(events.docs) then old(events.docs)[EventId] else map[], data)]
      ensures !writeOk ==> events.docs == old(events.docs)
    {
      if writeOk {
        events.SetDocMerge(EventId, data);
      }
    }

    method HandleChange(field: string, value: Value)
      modifies this
      ensures data == SetField(old(data), field, value) && loading == old(loading)
      ensures crashed == old(crashed)
    {
      data := data[field := value];
    }

    method HandleNestedChange(parent: string, field: string, value: Value)
      modifies this
      ensures data == SetNested(old(data), parent, field, value) && loading == old(loading)
      ensures crashed == old(crashed)
    {
      var inner := Fields(Get(data, parent));
      data := data[parent := Obj(inner[field := value])];
    }

    /** The spread runs inside the state updater, so a spread that throws
        throws during rendering: the page crashes and the record is lost. */
    method AddItem(field: string, template: Value)
      modifies this
      ensures var r := AddedItem(old(data), field, template);
        && (r.Some? ==> data == r.value && crashed == old(crashed))
        && (r.None? ==> crashed && data == old(data))
      ensures loading == old(loading)
    {
      var items := Items(Get(data, field));
      if items.Some? {
        data := data[field := Arr(items.value + [template])];
      } else {
        crashed := true;
      }
    }

    /** Copies the list, assigns the one entry, and stores the copy. */
    method UpdateItem(field: string, index: nat, subField: string, value: Value)
      requires Items(Get(data, field)).Some? && index < |Items(Get(data, field)).value|
      modifies this
      ensures data == UpdatedItem(old(data), field, index, subField, value) && loading == old(loading)
      ensures crashed == old(crashed)
    {
      var newArray := Items(Get(data, field)).value;
      newArray := newArray[index := Obj(Fields(newArray[index])[subField := value])];
      data := data[field := Arr(newArray)];
    }

    /** Copies the list, splices one entry out, and stores the copy. */
    method RemoveItem(field: string, index: int)
      modifies this
      ensures data == (var r := RemovedItem(old(data), field, index); if r.Some? then r.value else old(data))
      ensures loading == old(loading)
      ensures crashed == old(crashed)
    {
      var items := Items(Get(data, field));
      if items.Some? {
        var newArray := items.value;
        var k := SpliceStart(|newArray|, index);
        if k < |newArray| {
          newArray := newArray[..k] + newArray[k + 1..];
        }
        data := data[field := Arr(newArray)];
      }
    }
  }
}
