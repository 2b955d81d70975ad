/** The hosted document store, replaced by an in-memory collection: a map from
    document id to document. Only the calls the modelled pages make are here. */
module Store {
  import opened Json

  /** One document of a snapshot or query result: its id and its fields. */
  datatype Entry = Entry(id: string, data: Doc)

  /** The number of segments the store reads in a path: the non-empty runs
      of characters between '/' separators. */
  function SegmentCount(path: string): nat {
    if path == [] then 0
    else
      var starts := path[|path| - 1] != '/' && (|path| == 1 || path[|path| - 2] == '/');
      SegmentCount(path[..|path| - 1]) + if starts then 1 else 0
  }

  /** `doc(db, collection, id)` throws for an id holding "//", and for an id
      whose segments, after the collection's one, do not make a path of even
      length (an empty id among them). */
  predicate RefusedDocPath(id: string) {
    || (exists i :: 0 <= i < |id| - 1 && id[i] == '/' && id[i + 1] == '/')
    || SegmentCount(id) % 2 == 0
  }

  /** A plain id: non-empty and without a separator. It names a document of
      the collection itself (PlainIdAccepted); so does an accepted id of one
      segment with a leading or trailing separator (DocKey). An accepted id
      of three or more segments names a document of a subcollection, and
      this model holds no subcollections. */
  predicate ValidDocId(id: string) {
    id != "" && '/' !in id
  }

  /** The characters of a path other than its separators. */
  function Unslashed(path: string): (r: string)
    ensures '/' !in r && |r| <= |path|
    ensures '/' !in path ==> r == path
  {
    if path == [] then []
    else Unslashed(path[..|path| - 1]) + if path[|path| - 1] == '/' then [] else [path[|path| - 1]]
  }

  /** The id of the document of the collection itself that
      `doc(db, collection, id)` names: its one segment, when `doc` accepts
      the id and it has exactly one segment; none for a refused id and for
      the document of a subcollection. */
  function DocKey(id: string): (r: Option<string>)
    ensures r.Some? <==> !RefusedDocPath(id) && SegmentCount(id) == 1
    ensures r.Some? ==> ValidDocId(r.value)
    ensures ValidDocId(id) ==> r == Some(id)
  {
    if !RefusedDocPath(id) && SegmentCount(id) == 1 then
      SegmentKept(id);
      Some(Unslashed(id))
    else
      if ValidDocId(id) then PlainIdAccepted(id); None else None
  }

  /** A path with a segment keeps a character once its separators go. */
  lemma {:induction false} SegmentKept(path: string)
    requires SegmentCount(path) > 0
    ensures Unslashed(path) != []
  {
    if path[|path| - 1] == '/' {
      SegmentKept(path[..|path| - 1]);
    }
  }

  /** Unslashed distributes over concatenation. */
  lemma {:induction false} UnslashedAppend(a: string, b: string)
    ensures Unslashed(a + b) == Unslashed(a) + Unslashed(b)
  {
    if b != [] {
      assert (a + b)[..|a + b| - 1] == a + b[..|b| - 1];
      UnslashedAppend(a, b[..|b| - 1]);
    } else {
      assert a + b == a;
    }
  }

  /** A separator before a plain id leaves one segment. */
  lemma {:induction false} LeadingSeparatorCount(x: string)
    requires ValidDocId(x)
    ensures SegmentCount("/" + x) == 1
  {
    var p := "/" + x;
    if |x| == 1 {
      assert p[..1] == "/";
      assert SegmentCount("/"[..0]) == 0;
    } else {
      var q := x[..|x| - 1];
      assert q[0] == x[0] && forall c :: c in q ==> c in x;
      assert p[..|p| - 1] == "/" + q;
      assert p[|p| - 2] == x[|x| - 2] && x[|x| - 2] in x;
      LeadingSeparatorCount(q);
    }
  }

  /** A separator before a plain id names the same document as the id. */
  lemma LeadingSeparatorKey(x: string)
    requires ValidDocId(x)
    ensures DocKey("/" + x) == Some(x)
  {
    LeadingSeparatorCount(x);
    var a := "/" + x;
    forall i | 0 <= i < |a| - 1 && a[i] == '/'
      ensures a[i + 1] != '/'
    {
      assert a[i + 1] == x[i] && x[i] in x;
    }
    assert !RefusedDocPath(a);
    UnslashedAppend("/", x);
    assert Unslashed("/") == [] by { assert "/"[..0] == []; }
    assert Unslashed(a) == x;
  }

  /** A separator after a plain id names the same document as the id. */
  lemma TrailingSeparatorKey(x: string)
    requires ValidDocId(x)
    ensures DocKey(x + "/") == Some(x)
  {
    PlainIdAccepted(x);
    var b := x + "/";
    assert b[..|b| - 1] == x;
    forall i | 0 <= i < |b| - 1
      ensures b[i] != '/'
    {
      assert b[i] == x[i] && x[i] in x;
    }
    assert !RefusedDocPath(b);
    UnslashedAppend(x, "/");
    assert Unslashed("/") == [] by { assert "/"[..0] == []; }
    assert Unslashed(b) == x;
  }

  /** Separators on both sides of a plain id name the same document as the id. */
  lemma BothSeparatorsKey(x: string)
    requires ValidDocId(x)
    ensures DocKey("/" + x + "/") == Some(x)
  {
    LeadingSeparatorKey(x);
    var a := "/" + x;
    var c := a + "/";
    assert c[..|c| - 1] == a;
    forall i | 0 <= i < |c| - 1 && c[i] == '/'
      ensures c[i + 1] != '/'
    {
      assert c[i + 1] == x[i] && x[i] in x;
    }
    assert !RefusedDocPath(c);
    UnslashedAppend(a, "/");
    assert Unslashed("/") == [] by { assert "/"[..0] == []; }
    assert Unslashed(c) == x;
  }

  /** A plain id is one segment, so `doc` accepts it. */
  lemma {:induction false} PlainIdAccepted(id: string)
    requires ValidDocId(id)
    ensures SegmentCount(id) == 1 && !RefusedDocPath(id)
  {
    if |id| > 1 {
      var p := id[..|id| - 1];
      assert p[0] == id[0] && forall c :: c in p ==> c in id;
      PlainIdAccepted(p);
      assert id[|id| - 2] in id;
    }
  }

  class Collection {
    var docs: map<string, Doc>

    constructor (initial: map<string, Doc>)
      ensures docs == initial
    {
      docs := initial;
    }

    /** `getDoc`: the document, or nothing when it does not exist. */
    method GetDoc(id: string) returns (r: Option<Doc>)
      ensures r == if id in docs then Some(docs[id]) else None
    {
      r := if id in docs then Some(docs[id]) else None;
    }

    /** `updateDoc`: merges `updates` into the top-level fields of an existing
        document; on a missing document the call fails and nothing changes. */
    method UpdateDoc(id: string, updates: Doc) returns (ok: bool)
      modifies this
      ensures ok == (id in old(docs))
      ensures docs == if ok then old(docs)[id := Merge(old(docs)[id], updates)] else old(docs)
    {
      ok := id in docs;
      if ok {
        docs := docs[id := Merge(docs[id], updates)];
      }
    }

    /** `setDoc(ref, fields, { merge: true })`: creates the document or merges
        `fields` into it. */
    method SetDocMerge(id: string, fields: Doc)
      modifies this
      ensures docs == old(docs)[id := Merge(if id in old(docs) then old(docs)[id] else map[], fields)]
    {
      var base := if id in docs then docs[id] else map[];
      docs := docs[id := Merge(base, fields)];
    }
  }
}
