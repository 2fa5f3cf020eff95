/**
 * The labeler's store: documents, PII tags and PII categories, as the
 * service layer and the older views read and write them.
 */
module Model {
  import opened PyBuiltins

  type UserId = nat
  type DocId = nat
  type TagId = nat

  /** The acting user of a request. */
  datatype User = User(id: UserId, username: string, isStaff: bool)

  /** Owner or staff: the permission rule of the service layer. */
  predicate MayEdit(owner: UserId, user: User) {
    owner == user.id || user.isStaff
  }

  /**
   * A document row. Every metadata field is a text column that does not
   * accept null: a value stored into it is kept as its `str()` text.
   */
  datatype Document = Document(
    owner: UserId,
    dataId: string,
    numberOfSubjects: string,
    dialogType: string,
    turnCnt: string,
    docId: string,
    text: string)

  /** A PII tag row; `category` is the category's unique value. */
  datatype Tag = Tag(
    id: TagId,
    document: DocId,
    category: string,
    spanText: string,
    startOffset: int,
    endOffset: int,
    spanId: string,
    entityId: string,
    annotator: string,
    identifierType: string,
    createdBy: UserId)

  datatype Category = Category(backgroundColor: string, description: string)

  /** A JSON object whose members are scalars. */
  type Fields = map<string, Value>

  /** One already-decoded line of an upload. */
  datatype Record = Record(metadata: Fields, provenance: Fields, text: string, entities: seq<Fields>)

  /** One entry of an exported record's `entities` array. */
  datatype ExportEntity = ExportEntity(
    spanText: string,
    entityType: string,
    startOffset: int,
    endOffset: int,
    spanId: string,
    entityId: string,
    annotator: string,
    identifierType: string)

  /** One exported line before JSON encoding. */
  datatype ExportRecord = ExportRecord(
    dataId: Value,
    numberOfSubjects: Value,
    dialogType: Value,
    turnCnt: Value,
    docId: Value,
    text: string,
    entities: seq<ExportEntity>)

  /** The in-memory database shared by all operations. */
  class Store {
    var docs: map<DocId, Document>
    var tags: seq<Tag>
    var categories: map<string, Category>
    var nextDocId: DocId
    var nextTagId: TagId

    /**
     * Every tag belongs to an existing document and an existing category;
     * row ids are below the next id to assign, and tags are kept in
     * creation (id) order.
     */
    ghost predicate Valid()
      reads this
    {
      (forall d :: d in docs ==> d < nextDocId) &&
      TagsWellFormed(tags, docs.Keys, categories.Keys, nextTagId)
    }

    constructor ()
      ensures Valid()
      ensures docs == map[] && tags == [] && categories == map[]
    {
      docs := map[];
      tags := [];
      categories := map[];
      nextDocId := 0;
      nextTagId := 0;
    }
  }

  ghost predicate TagsWellFormed(tags: seq<Tag>, docIds: set<DocId>, cats: set<string>, nextTagId: TagId) {
    (forall i :: 0 <= i < |tags| ==>
       tags[i].document in docIds && tags[i].category in cats && tags[i].id < nextTagId) &&
    IdsIncreasing(tags)
  }

  /** A well-formed tag list stays well formed when the documents and categories grow. */
  lemma {:induction false} TagsWellFormedMono(tags: seq<Tag>, d1: set<DocId>, d2: set<DocId>, c1: set<string>, c2: set<string>, n1: TagId, n2: TagId)
    requires TagsWellFormed(tags, d1, c1, n1)
    requires d1 <= d2 && c1 <= c2 && n1 <= n2
    ensures TagsWellFormed(tags, d2, c2, n2)
  {
  }

  /** Appending a fresh tag keeps the tag list well formed. */
  lemma {:induction false} TagsWellFormedAppend(tags: seq<Tag>, docIds: set<DocId>, cats: set<string>, nextTagId: TagId, t: Tag)
    requires TagsWellFormed(tags, docIds, cats, nextTagId)
    requires t.id == nextTagId && t.document in docIds && t.category in cats
    ensures TagsWellFormed(tags + [t], docIds, cats, nextTagId + 1)
  {
  }

  // ---------------------------------------------------------------------------
  // Views of the tag list
  // ---------------------------------------------------------------------------

  /** The tags of one document, in storage order. */
  function TagsOf(tags: seq<Tag>, doc: DocId): (r: seq<Tag>)
    ensures |r| <= |tags|
    ensures forall t :: t in r <==> t in tags && t.document == doc
  {
    if |tags| == 0 then []
    else TagsOf(tags[..|tags| - 1], doc) +
         (if tags[|tags| - 1].document == doc then [tags[|tags| - 1]] else [])
  }

  /**
   * Filtering distributes over concatenation: the document's tags keep their
   * storage order, a later tag never coming before an earlier one.
   */
  lemma {:induction false} TagsOfAppend(a: seq<Tag>, b: seq<Tag>, doc: DocId)
    ensures TagsOf(a + b, doc) == TagsOf(a, doc) + TagsOf(b, doc)
    decreases |b|
  {
    if |b| == 0 {
      assert a + b == a;
    } else {
      var init := b[..|b| - 1];
      assert (a + b)[..|a + b| - 1] == a + init;
      TagsOfAppend(a, init, doc);
    }
  }

  /** Each tag of the document appears in its list as often as it is stored, and no other tag does. */
  lemma {:induction false} TagsOfCount(tags: seq<Tag>, doc: DocId, t: Tag)
    ensures multiset(TagsOf(tags, doc))[t] == if t.document == doc then multiset(tags)[t] else 0
  {
    if |tags| > 0 {
      var init, last := tags[..|tags| - 1], tags[|tags| - 1];
      TagsOfCount(init, doc, t);
      assert tags == init + [last];
      assert multiset(tags) == multiset(init) + multiset{last};
      if last.document == doc {
        assert TagsOf(tags, doc) == TagsOf(init, doc) + [last];
        assert multiset(TagsOf(tags, doc)) == multiset(TagsOf(init, doc)) + multiset{last};
      } else {
        assert TagsOf(tags, doc) == TagsOf(init, doc);
      }
    }
  }

  /** A list none of whose tags belongs to the document gives it no tags. */
  lemma {:induction false} TagsOfNone(tags: seq<Tag>, doc: DocId)
    requires forall i :: 0 <= i < |tags| ==> tags[i].document != doc
    ensures TagsOf(tags, doc) == []
  {
    if |tags| > 0 {
      var init := tags[..|tags| - 1];
      assert forall i :: 0 <= i < |init| ==> init[i] == tags[i];
      TagsOfNone(init, doc);
    }
  }

  /** A list whose tags all belong to the document is its own filter. */
  lemma {:induction false} TagsOfAll(tags: seq<Tag>, doc: DocId)
    requires forall i :: 0 <= i < |tags| ==> tags[i].document == doc
    ensures TagsOf(tags, doc) == tags
  {
    if |tags| > 0 {
      var init, last := tags[..|tags| - 1], tags[|tags| - 1];
      forall i | 0 <= i < |init| ensures init[i].document == doc {
        assert init[i] == tags[i];
      }
      TagsOfAll(init, doc);
      assert last.document == doc;
      assert init + [last] == tags;
    }
  }

  /** The position of the tag with id `id`, if any. */
  function IndexOfTag(tags: seq<Tag>, id: int): (r: Option<nat>)
    ensures r.Some? ==> r.value < |tags| && tags[r.value].id == id
    ensures r.None? ==> forall i :: 0 <= i < |tags| ==> tags[i].id != id
  {
    if |tags| == 0 then None
    else if tags[0].id == id then Some(0)
    else match IndexOfTag(tags[1..], id)
      case None => None
      case Some(k) => Some(k + 1)
  }

  /** Is there a tag of `doc` at exactly these offsets? */
  predicate HasTagAt(tags: seq<Tag>, doc: DocId, start: int, end: int) {
    exists t :: t in tags && t.document == doc && t.startOffset == start && t.endOffset == end
  }

  /** The tag list without the tags of the documents in `ds`, others in order. */
  function RemoveDocTags(tags: seq<Tag>, ds: set<DocId>): (r: seq<Tag>)
    ensures |r| <= |tags|
    ensures forall t :: t in r <==> t in tags && t.document !in ds
  {
    if |tags| == 0 then []
    else (if tags[0].document in ds then [] else [tags[0]]) + RemoveDocTags(tags[1..], ds)
  }

  /** Removing the tags of no document keeps them all. */
  lemma {:induction false} RemoveNoDocTags(tags: seq<Tag>)
    ensures RemoveDocTags(tags, {}) == tags
  {
    if |tags| > 0 {
      RemoveNoDocTags(tags[1..]);
      assert [tags[0]] + tags[1..] == tags;
    }
  }

  /** Removing one group of documents after another removes their union. */
  lemma {:induction false} RemoveDocTagsTwice(tags: seq<Tag>, a: set<DocId>, b: set<DocId>)
    ensures RemoveDocTags(RemoveDocTags(tags, a), b) == RemoveDocTags(tags, a + b)
  {
    if |tags| > 0 {
      RemoveDocTagsTwice(tags[1..], a, b);
      var rest := RemoveDocTags(tags[1..], a);
      if tags[0].document !in a {
        var once := [tags[0]] + rest;
        assert RemoveDocTags(tags, a) == once;
        assert once[0] == tags[0] && once[1..] == rest;
        assert RemoveDocTags(once, b) ==
               (if tags[0].document in b then [] else [tags[0]]) + RemoveDocTags(rest, b);
      } else {
        assert RemoveDocTags(tags, a) == rest;
      }
    }
  }

  ghost predicate IdsIncreasing(tags: seq<Tag>) {
    forall i, j :: 0 <= i < j < |tags| ==> tags[i].id < tags[j].id
  }

  lemma {:induction false} IdsIncreasingTail(tags: seq<Tag>)
    requires |tags| > 0 && IdsIncreasing(tags)
    ensures IdsIncreasing(tags[1..])
    ensures forall t :: t in tags[1..] ==> tags[0].id < t.id
  {
    var tail := tags[1..];
    forall i, j | 0 <= i < j < |tail| ensures tail[i].id < tail[j].id {
      assert tail[i] == tags[i + 1] && tail[j] == tags[j + 1];
    }
    forall t | t in tail ensures tags[0].id < t.id {
      var k :| 0 <= k < |tail| && tail[k] == t;
      assert tags[k + 1] == t;
    }
  }

  lemma {:induction false} IdsIncreasingCons(x: Tag, rest: seq<Tag>)
    requires IdsIncreasing(rest)
    requires forall t :: t in rest ==> x.id < t.id
    ensures IdsIncreasing([x] + rest)
  {
    var r := [x] + rest;
    forall i, j | 0 <= i < j < |r| ensures r[i].id < r[j].id {
      assert r[j] == rest[j - 1];
      if i > 0 {
        assert r[i] == rest[i - 1];
      }
    }
  }

  /** Removing tags keeps the relative order of the surviving ones. */
  lemma {:induction false} RemoveDocTagsOrdered(tags: seq<Tag>, ds: set<DocId>)
    requires IdsIncreasing(tags)
    ensures IdsIncreasing(RemoveDocTags(tags, ds))
  {
    if |tags| > 0 {
      IdsIncreasingTail(tags);
      RemoveDocTagsOrdered(tags[1..], ds);
      var rest := RemoveDocTags(tags[1..], ds);
      if tags[0].document !in ds {
        IdsIncreasingCons(tags[0], rest);
      }
    }
  }

  /** Removing a group of documents keeps the tag list well formed over the remaining documents. */
  lemma {:induction false} RemoveDocTagsWellFormed(tags: seq<Tag>, docIds: set<DocId>, cats: set<string>, nextTagId: TagId, ds: set<DocId>)
    requires TagsWellFormed(tags, docIds, cats, nextTagId)
    ensures TagsWellFormed(RemoveDocTags(tags, ds), docIds - ds, cats, nextTagId)
  {
    RemoveDocTagsOrdered(tags, ds);
    var r := RemoveDocTags(tags, ds);
    forall i | 0 <= i < |r|
      ensures r[i].document in docIds - ds && r[i].category in cats && r[i].id < nextTagId
    {
      assert r[i] in r;
      var k :| 0 <= k < |tags| && tags[k] == r[i];
    }
  }

  /**
   * With ids in increasing order, deleting the element at `k` removes
   * exactly the tag with that id and keeps every other tag.
   */
  lemma {:induction false} DeleteAtMembers(tags: seq<Tag>, k: nat)
    requires k < |tags| && IdsIncreasing(tags)
    ensures forall t :: t in tags[..k] + tags[k + 1..] <==> t in tags && t.id != tags[k].id
  {
    forall t | t in tags && t.id != tags[k].id ensures t in tags[..k] + tags[k + 1..] {
      var j :| 0 <= j < |tags| && tags[j] == t;
      DeleteAtKeeps(tags, k, j);
    }
    forall t | t in tags[..k] + tags[k + 1..] ensures t in tags && t.id != tags[k].id {
      var r := tags[..k] + tags[k + 1..];
      var j :| 0 <= j < |r| && r[j] == t;
      DeleteAtDrops(tags, k, j);
    }
  }

  lemma {:induction false} DeleteAtKeeps(tags: seq<Tag>, k: nat, j: nat)
    requires k < |tags| && j < |tags| && j != k
    ensures tags[j] in tags[..k] + tags[k + 1..]
  {
    var r := tags[..k] + tags[k + 1..];
    if j < k {
      assert r[j] == tags[j];
    } else {
      assert r[j - 1] == tags[j];
    }
  }

  lemma {:induction false} DeleteAtDrops(tags: seq<Tag>, k: nat, j: nat)
    requires k < |tags| && IdsIncreasing(tags) && j < |tags| - 1
    ensures var r := tags[..k] + tags[k + 1..];
            r[j] in tags && r[j].id != tags[k].id
  {
    var r := tags[..k] + tags[k + 1..];
    var j' := if j < k then j else j + 1;
    assert r[j] == tags[j'];
    assert j' != k;
  }

  /** Deleting one element keeps an id-ordered list ordered. */
  lemma {:induction false} DeleteAtOrdered(tags: seq<Tag>, k: nat)
    requires k < |tags| && IdsIncreasing(tags)
    ensures IdsIncreasing(tags[..k] + tags[k + 1..])
  {
    var r := tags[..k] + tags[k + 1..];
    forall i, j | 0 <= i < j < |r| ensures r[i].id < r[j].id {
      var i' := if i < k then i else i + 1;
      var j' := if j < k then j else j + 1;
      assert r[i] == tags[i'] && r[j] == tags[j'];
    }
  }
}
