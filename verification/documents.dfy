/**
  Documents and collections of the document store. A collection is the sequence of
  its documents in natural order, which is the order `findById`, `updateOne` and
  `find` visit them in; every document carries its generated `_id`.
*/
module Documents {
  import opened Wrappers

  /** A generated document identifier (an ObjectId). */
  type Id = nat

  /** A stored document: its `_id` and its fields. */
  datatype Doc<+T> = Doc(id: Id, data: T)

  /** A rejected `save`/`create`: the schema paths whose validators failed, in schema order. */
  datatype ValidationError = ValidationError(paths: seq<string>)

  /** The schema path `path` when its `required` check fails, and nothing otherwise. */
  function Missing(path: string, present: bool): seq<string>
  {
    if present then [] else [path]
  }

  /** Mongoose's `required` check on a String path: a missing value and the empty string both fail. */
  predicate HasText(v: Option<string>)
  {
    v.Some? && v.value != ""
  }

  /** No two documents of the collection share an `_id`. */
  predicate UniqueIds<T>(docs: seq<Doc<T>>)
  {
    forall i, j :: 0 <= i < j < |docs| ==> docs[i].id != docs[j].id
  }

  /** Every `_id` of the collection was generated before `bound`. */
  predicate IdsBelow<T>(docs: seq<Doc<T>>, bound: Id)
  {
    forall i :: 0 <= i < |docs| ==> docs[i].id < bound
  }

  /** The invariant of a collection whose ids come from a generator now at `bound`. */
  predicate WellFormed<T>(docs: seq<Doc<T>>, bound: Id)
  {
    UniqueIds(docs) && IdsBelow(docs, bound)
  }

  /** Some document of the collection has this `_id`. */
  predicate Holds<T>(docs: seq<Doc<T>>, id: Id)
  {
    exists i :: 0 <= i < |docs| && docs[i].id == id
  }

  /** The position of the first document with this `_id`: the one `findById` returns. */
  function IndexOf<T>(docs: seq<Doc<T>>, id: Id): (r: Option<nat>)
    ensures r.Some? ==> r.value < |docs| && docs[r.value].id == id
    ensures r.Some? ==> forall j :: 0 <= j < r.value ==> docs[j].id != id
    ensures r.None? <==> !Holds(docs, id)
    decreases |docs|
  {
    if |docs| == 0 then None
    else if docs[0].id == id then Some(0)
    else
      match IndexOf(docs[1..], id)
      case None =>
        assert forall j :: 1 <= j < |docs| ==> docs[j] == docs[1..][j - 1];
        None
      case Some(k) => Some(k + 1)
  }

  /** `findById`: the first document with this `_id`, if any. */
  function FindById<T>(docs: seq<Doc<T>>, id: Id): (r: Option<Doc<T>>)
    ensures r.Some? <==> Holds(docs, id)
    ensures r.Some? ==> r.value.id == id && r.value in docs
  {
    match IndexOf(docs, id)
    case None => None
    case Some(i) => Some(docs[i])
  }

  /** The collection without its document at position `i`, the others in order. */
  function RemoveAt<T>(docs: seq<Doc<T>>, i: nat): (r: seq<Doc<T>>)
    requires i < |docs|
    ensures |r| == |docs| - 1
    ensures forall j :: 0 <= j < i ==> r[j] == docs[j]
    ensures forall j :: i <= j < |r| ==> r[j] == docs[j + 1]
  {
    docs[..i] + docs[i + 1..]
  }

  /** The two collections hold the same ids at the same positions. */
  predicate SameIds<T>(a: seq<Doc<T>>, b: seq<Doc<T>>)
  {
    |a| == |b| && forall j :: 0 <= j < |a| ==> a[j].id == b[j].id
  }

  /** The two collections differ at most at position `k`. */
  ghost predicate SameExcept<T>(a: seq<Doc<T>>, b: seq<Doc<T>>, k: nat)
  {
    |a| == |b| && forall j :: 0 <= j < |a| && j != k ==> a[j] == b[j]
  }

  /** With unique ids, the first document with an id is the only one. */
  lemma UniqueIndex<T>(docs: seq<Doc<T>>, i: nat)
    requires UniqueIds(docs) && i < |docs|
    ensures IndexOf(docs, docs[i].id) == Some(i)
  {
    var r := IndexOf(docs, docs[i].id);
    assert Holds(docs, docs[i].id);
  }

  /** Once the only document with an id is removed, no document has that id. */
  lemma RemoveUnique<T>(docs: seq<Doc<T>>, i: nat)
    requires UniqueIds(docs) && i < |docs|
    ensures !Holds(RemoveAt(docs, i), docs[i].id)
  {
    var r := RemoveAt(docs, i);
    forall j | 0 <= j < |r|
      ensures r[j].id != docs[i].id
    {
      if j < i {
        assert r[j] == docs[j];
      } else {
        assert r[j] == docs[j + 1];
      }
    }
  }

  /** Removing a document keeps a collection well formed. */
  lemma RemoveWellFormed<T>(docs: seq<Doc<T>>, i: nat, bound: Id)
    requires WellFormed(docs, bound) && i < |docs|
    ensures WellFormed(RemoveAt(docs, i), bound)
  {
    var r := RemoveAt(docs, i);
    forall a, b | 0 <= a < b < |r|
      ensures r[a].id != r[b].id
    {
      var a' := if a < i then a else a + 1;
      var b' := if b < i then b else b + 1;
      assert r[a] == docs[a'] && r[b] == docs[b'];
    }
    forall a | 0 <= a < |r|
      ensures r[a].id < bound
    {
      var a' := if a < i then a else a + 1;
      assert r[a] == docs[a'];
    }
  }

  /** Inserting a document with a freshly generated id keeps a collection well formed. */
  lemma InsertWellFormed<T>(docs: seq<Doc<T>>, bound: Id, x: T)
    requires WellFormed(docs, bound)
    ensures WellFormed(docs + [Doc(bound, x)], bound + 1)
  {
  }

  /** Changing documents without changing their ids keeps a collection well formed. */
  lemma SameIdsWellFormed<T>(a: seq<Doc<T>>, b: seq<Doc<T>>, bound: Id, bound': Id)
    requires WellFormed(a, bound) && SameIds(a, b) && bound <= bound'
    ensures WellFormed(b, bound')
  {
  }

  /** `findById` does not see changes that keep every id in place. */
  lemma SameIdsIndexOf<T>(a: seq<Doc<T>>, b: seq<Doc<T>>, id: Id)
    requires SameIds(a, b)
    ensures IndexOf(a, id) == IndexOf(b, id)
  {
    var ra := IndexOf(a, id);
    var rb := IndexOf(b, id);
    if ra.Some? {
      assert Holds(b, id);
    }
    if rb.Some? {
      assert Holds(a, id);
    }
  }
}
