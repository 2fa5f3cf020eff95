/**
 * The service layer: tag creation, update and deletion with their
 * permission and duplicate rules, document deletion, import from decoded
 * records, export to records, and prev/next navigation.
 */
module Services {
  import opened PyBuiltins
  import opened Model
  import opened Utils

  /** Why an operation of the service layer reports failure. */
  datatype Reason =
    | InvalidData(error: ValidationError)
    | DocumentNotFound
    | CategoryNotFound
    | DuplicateTag
    | TagNotFound
    | Forbidden

  datatype Outcome<T> = Success(value: T) | Failure(reason: Reason)

  // ---------------------------------------------------------------------------
  // Request values as the columns coerce them
  // ---------------------------------------------------------------------------

  /** A primary-key lookup with a request value: `int()` of it; anything else finds no row. */
  function DocKey(v: Value): (r: Option<DocId>)
    ensures r.Some? <==> PyInt(v).Some? && PyInt(v).value >= 0
    ensures r.Some? ==> r.value == PyInt(v).value
  {
    match PyInt(v)
    case Some(i) => if i >= 0 then Some(i as DocId) else None
    case None => None
  }

  /** A lookup on the category's text column: `None` matches no row, anything else its `str`. */
  function CategoryKey(v: Value): (r: Option<string>)
    ensures r.Some? <==> !v.VNone?
    ensures r.Some? ==> r.value == PyStr(v)
  {
    if v.VNone? then None else Some(PyStr(v))
  }

  /** `data.get(key, '') or fallback`, stored in a text column. */
  function OrDefault(data: Fields, key: string, fallback: string): (r: string)
    ensures fallback != "" ==> r != ""
    ensures !Truthy(Get(data, key, VStr(""))) ==> r == fallback
    ensures Truthy(Get(data, key, VStr(""))) ==> r == PyStr(data[key])
  {
    var v := Get(data, key, VStr(""));
    if Truthy(v) then PyStr(v) else fallback
  }

  /** An offset of the request after `int()`; 0 stands in where validation already failed. */
  function OffsetOf(data: Fields, key: string): int {
    match PyInt(Get(data, key, VNone))
    case Some(i) => i
    case None => 0
  }

  /** A tag of `doc` with these offsets and this category already exists. */
  predicate SameTagExists(tags: seq<Tag>, doc: DocId, start: int, end: int, category: string) {
    exists t :: t in tags && t.document == doc && t.startOffset == start && t.endOffset == end &&
                t.category == category
  }

  // ---------------------------------------------------------------------------
  // create_pii_tag
  // ---------------------------------------------------------------------------

  /** The request names an existing document and category and no identical tag exists. */
  predicate CreateAccepted(docs: map<DocId, Document>, cats: map<string, Category>, tags: seq<Tag>, data: Fields) {
    var doc := DocKey(Get(data, "document_id", VNone));
    var category := PyStr(Get(data, "pii_category", VNone));
    Validation(data).None? && doc.Some? && doc.value in docs && category in cats &&
    !SameTagExists(tags, doc.value, OffsetOf(data, "start_offset"), OffsetOf(data, "end_offset"), category)
  }

  /** The outcome of create_pii_tag on a store, with `id` the id the new row would get. */
  function CreateDecision(docs: map<DocId, Document>, cats: map<string, Category>, tags: seq<Tag>,
                          data: Fields, user: User, id: TagId): Outcome<Tag>
  {
    match Validation(data)
    case Some(e) => Failure(InvalidData(e))
    case None =>
      match DocKey(Get(data, "document_id", VNone))
      case None => Failure(DocumentNotFound)
      case Some(doc) =>
        if doc !in docs then Failure(DocumentNotFound)
        else
          var category := PyStr(Get(data, "pii_category", VNone));
          if category !in cats then Failure(CategoryNotFound)
          else
            var start := OffsetOf(data, "start_offset");
            var end := OffsetOf(data, "end_offset");
            if SameTagExists(tags, doc, start, end, category) then Failure(DuplicateTag)
            else
              Success(Tag(id, doc, category, PyStr(Get(data, "span_text", VNone)), start, end,
                          OrDefault(data, "span_id", NextNumericId(SpanIdsOf(tags, doc))),
                          OrDefault(data, "entity_id", NextNumericId(EntityIdsOf(tags, doc))),
                          OrDefault(data, "annotator", "Anonymous"),
                          OrDefault(data, "identifier_type", "default"),
                          user.id))
  }

  /**
   * What create_pii_tag promises: invalid data is reported with its
   * validation error; the tag is created exactly when the document and the
   * category exist and no tag of that document has the same offsets and
   * category; the new tag carries the request's values, and the defaults
   * (next free span_id and entity_id, "Anonymous", "default") where the
   * request leaves a field empty.
   */
  lemma {:induction false} CreateDecisionSpec(docs: map<DocId, Document>, cats: map<string, Category>, tags: seq<Tag>,
                           data: Fields, user: User, id: TagId)
    ensures var r := CreateDecision(docs, cats, tags, data, user, id);
            Validation(data).Some? ==> r == Failure(InvalidData(Validation(data).value))
    ensures var r := CreateDecision(docs, cats, tags, data, user, id);
            r.Success? <==> CreateAccepted(docs, cats, tags, data)
    ensures var r := CreateDecision(docs, cats, tags, data, user, id);
            r == Failure(DuplicateTag) <==>
              Validation(data).None? && !CreateAccepted(docs, cats, tags, data) &&
              DocKey(Get(data, "document_id", VNone)).Some? &&
              DocKey(Get(data, "document_id", VNone)).value in docs &&
              PyStr(Get(data, "pii_category", VNone)) in cats
    ensures var r := CreateDecision(docs, cats, tags, data, user, id);
            r.Success? ==>
              var t := r.value;
              t.id == id && t.createdBy == user.id && t.document in docs && t.category in cats &&
              t.category == PyStr(Get(data, "pii_category", VNone)) &&
              t.spanText == PyStr(Get(data, "span_text", VNone)) &&
              0 <= t.startOffset < t.endOffset &&
              PyInt(Get(data, "start_offset", VNone)) == Some(t.startOffset) &&
              PyInt(Get(data, "end_offset", VNone)) == Some(t.endOffset) &&
              t.spanId != "" && t.entityId != "" && t.annotator != "" && t.identifierType != ""
    ensures var r := CreateDecision(docs, cats, tags, data, user, id);
            r.Success? && !Truthy(Get(data, "span_id", VStr(""))) ==>
              r.value.spanId == NextNumericId(SpanIdsOf(tags, r.value.document))
    ensures var r := CreateDecision(docs, cats, tags, data, user, id);
            r.Success? && !Truthy(Get(data, "entity_id", VStr(""))) ==>
              r.value.entityId == NextNumericId(EntityIdsOf(tags, r.value.document))
    ensures var r := CreateDecision(docs, cats, tags, data, user, id);
            r.Success? && !Truthy(Get(data, "annotator", VStr(""))) ==> r.value.annotator == "Anonymous"
    ensures var r := CreateDecision(docs, cats, tags, data, user, id);
            r.Success? && !Truthy(Get(data, "identifier_type", VStr(""))) ==> r.value.identifierType == "default"
  {
  }

  /**
   * The duplicate rule looks at the category too: a tag at the same
   * offsets with another category does not block the request.
   */
  lemma {:induction false} OtherCategoryDoesNotBlock(docs: map<DocId, Document>, cats: map<string, Category>, tags: seq<Tag>,
                                  data: Fields, t: Tag)
    requires t.category != PyStr(Get(data, "pii_category", VNone))
    ensures CreateAccepted(docs, cats, tags + [t], data) == CreateAccepted(docs, cats, tags, data)
  {
    var doc := DocKey(Get(data, "document_id", VNone));
    if doc.Some? {
      var start, end := OffsetOf(data, "start_offset"), OffsetOf(data, "end_offset");
      var category := PyStr(Get(data, "pii_category", VNone));
      assert SameTagExists(tags + [t], doc.value, start, end, category) ==
             SameTagExists(tags, doc.value, start, end, category) by {
        if SameTagExists(tags + [t], doc.value, start, end, category) {
          var u :| u in tags + [t] && u.document == doc.value && u.startOffset == start &&
                   u.endOffset == end && u.category == category;
          assert u in tags;
        }
      }
    }
  }

  /**
   * The checks and defaults of create_pii_tag, in its order: validation,
   * document, category, duplicate, then span_id, entity_id, annotator and
   * identifier_type.
   */
  method ResolveNewTag(docs: map<DocId, Document>, cats: map<string, Category>, tags: seq<Tag>,
                       nextTagId: TagId, data: Fields, user: User) returns (result: Outcome<Tag>)
    ensures result == CreateDecision(docs, cats, tags, data, user, nextTagId)
  {
    var isValid, error := ValidatePiiTagData(data);
    if !isValid {
      return Failure(InvalidData(error.value));
    }
    var docKey := DocKey(Get(data, "document_id", VNone));
    if docKey.None? || docKey.value !in docs {
      return Failure(DocumentNotFound);
    }
    var document := docKey.value;
    var category := PyStr(Get(data, "pii_category", VNone));
    if category !in cats {
      return Failure(CategoryNotFound);
    }
    var startOffset := OffsetOf(data, "start_offset");
    var endOffset := OffsetOf(data, "end_offset");
    if SameTagExists(tags, document, startOffset, endOffset, category) {
      return Failure(DuplicateTag);
    }
    var spanId := OrDefault(data, "span_id", "");
    if spanId == "" {
      spanId := NextSpanId(tags, document);
    }
    var entityId := OrDefault(data, "entity_id", "");
    if entityId == "" {
      entityId := NextEntityId(tags, document);
    }
    var annotator := OrDefault(data, "annotator", "Anonymous");
    var identifierType := OrDefault(data, "identifier_type", "default");
    return Success(Tag(nextTagId, document, category, PyStr(Get(data, "span_text", VNone)),
                       startOffset, endOffset, spanId, entityId, annotator, identifierType, user.id));
  }

  /** create_pii_tag: on success the store gains exactly the new tag. */
  method CreatePiiTag(store: Store, data: Fields, user: User) returns (result: Outcome<Tag>)
    requires store.Valid()
    modifies store`tags, store`nextTagId
    ensures result == CreateDecision(old(store.docs), old(store.categories), old(store.tags), data, user,
                                     old(store.nextTagId))
    ensures result.Success? ==> store.tags == old(store.tags) + [result.value] &&
                                store.nextTagId == old(store.nextTagId) + 1
    ensures result.Failure? ==> store.tags == old(store.tags) && store.nextTagId == old(store.nextTagId)
    ensures store.docs == old(store.docs) && store.categories == old(store.categories) &&
            store.nextDocId == old(store.nextDocId)
    ensures store.Valid()
  {
    result := ResolveNewTag(store.docs, store.categories, store.tags, store.nextTagId, data, user);
    if result.Success? {
      CreateDecisionSpec(store.docs, store.categories, store.tags, data, user, store.nextTagId);
      TagsWellFormedAppend(store.tags, store.docs.Keys, store.categories.Keys, store.nextTagId, result.value);
      store.tags := store.tags + [result.value];
      store.nextTagId := store.nextTagId + 1;
    }
  }

  // ---------------------------------------------------------------------------
  // update_pii_tag
  // ---------------------------------------------------------------------------

  /** The outcome of update_pii_tag: the tag as it is saved, or why nothing was saved. */
  function UpdateDecision(cats: map<string, Category>, tags: seq<Tag>, tagId: int, data: Fields, user: User): (r: Outcome<Tag>)
    ensures r == Failure(TagNotFound) <==> IndexOfTag(tags, tagId).None?
    ensures r == Failure(Forbidden) <==>
              IndexOfTag(tags, tagId).Some? && !MayEdit(tags[IndexOfTag(tags, tagId).value].createdBy, user)
    ensures r == Failure(CategoryNotFound) <==>
              IndexOfTag(tags, tagId).Some? && MayEdit(tags[IndexOfTag(tags, tagId).value].createdBy, user) &&
              "pii_category_value" in data &&
              (CategoryKey(data["pii_category_value"]).None? || CategoryKey(data["pii_category_value"]).value !in cats)
    ensures r.Success? ==>
              var old_ := tags[IndexOfTag(tags, tagId).value];
              var t := r.value;
              t.id == old_.id && t.document == old_.document && t.spanText == old_.spanText &&
              t.startOffset == old_.startOffset && t.endOffset == old_.endOffset && t.spanId == old_.spanId &&
              t.createdBy == old_.createdBy && t.annotator == user.username &&
              (if "pii_category_value" in data then t.category == PyStr(data["pii_category_value"]) && t.category in cats
               else t.category == old_.category) &&
              t.identifierType == (if "identifier_type" in data then
                                     (if Truthy(data["identifier_type"]) then PyStr(data["identifier_type"]) else "default")
                                   else old_.identifierType) &&
              t.entityId == (if "entity_id" in data && Truthy(data["entity_id"]) then PyStr(data["entity_id"])
                             else old_.entityId)
  {
    match IndexOfTag(tags, tagId)
    case None => Failure(TagNotFound)
    case Some(k) =>
      var tag := tags[k];
      if !MayEdit(tag.createdBy, user) then Failure(Forbidden)
      else
        var category := if "pii_category_value" in data then CategoryKey(data["pii_category_value"]) else Some(tag.category);
        if "pii_category_value" in data && (category.None? || category.value !in cats) then Failure(CategoryNotFound)
        else
          var identifierType :=
            if "identifier_type" in data then
              (if Truthy(data["identifier_type"]) then PyStr(data["identifier_type"]) else "default")
            else tag.identifierType;
          var entityId := if "entity_id" in data && Truthy(data["entity_id"]) then PyStr(data["entity_id"]) else tag.entityId;
          Success(tag.(category := category.value, identifierType := identifierType, entityId := entityId,
                       annotator := user.username))
  }

  /** update_pii_tag: check ownership, apply the given fields, stamp the annotator and save. */
  method UpdatePiiTag(store: Store, tagId: int, data: Fields, user: User) returns (result: Outcome<Tag>)
    requires store.Valid()
    modifies store`tags
    ensures result == UpdateDecision(old(store.categories), old(store.tags), tagId, data, user)
    ensures result.Success? ==>
              store.tags == old(store.tags)[IndexOfTag(old(store.tags), tagId).value := result.value]
    ensures result.Failure? ==> store.tags == old(store.tags)
    ensures store.docs == old(store.docs) && store.categories == old(store.categories) &&
            store.nextDocId == old(store.nextDocId) && store.nextTagId == old(store.nextTagId)
    ensures store.Valid()
  {
    var index := IndexOfTag(store.tags, tagId);
    if index.None? {
      return Failure(TagNotFound);
    }
    assert store.tags[index.value] in store.tags;
    var piiTag := store.tags[index.value];
    if piiTag.createdBy != user.id && !user.isStaff {
      return Failure(Forbidden);
    }
    if "pii_category_value" in data {
      var category := CategoryKey(data["pii_category_value"]);
      if category.None? || category.value !in store.categories {
        return Failure(CategoryNotFound);
      }
      piiTag := piiTag.(category := category.value);
    }
    if "identifier_type" in data {
      piiTag := piiTag.(identifierType := if Truthy(data["identifier_type"]) then PyStr(data["identifier_type"]) else "default");
    }
    if "entity_id" in data && Truthy(data["entity_id"]) {
      piiTag := piiTag.(entityId := PyStr(data["entity_id"]));
    }
    piiTag := piiTag.(annotator := user.username);
    UpdateAtWellFormed(store.tags, store.docs.Keys, store.categories.Keys, store.nextTagId, index.value, piiTag);
    store.tags := store.tags[index.value := piiTag];
    return Success(piiTag);
  }

  /** Replacing a tag by one with the same id and document and a known category keeps the list well formed. */
  lemma {:induction false} UpdateAtWellFormed(tags: seq<Tag>, docIds: set<DocId>, cats: set<string>, nextTagId: TagId, k: nat, t: Tag)
    requires TagsWellFormed(tags, docIds, cats, nextTagId) && k < |tags|
    requires t.id == tags[k].id && t.document == tags[k].document && t.category in cats
    ensures TagsWellFormed(tags[k := t], docIds, cats, nextTagId)
  {
    var r := tags[k := t];
    assert forall i :: 0 <= i < |r| ==> r[i].id == tags[i].id;
  }

  // ---------------------------------------------------------------------------
  // delete_pii_tag, delete_document, bulk_delete_documents
  // ---------------------------------------------------------------------------

  /** delete_pii_tag: the owner or staff removes exactly that tag. */
  method DeletePiiTag(store: Store, tagId: int, user: User) returns (result: Outcome<()>)
    requires store.Valid()
    modifies store`tags
    ensures result == Failure(TagNotFound) <==> IndexOfTag(old(store.tags), tagId).None?
    ensures result.Success? <==>
              IndexOfTag(old(store.tags), tagId).Some? &&
              MayEdit(old(store.tags)[IndexOfTag(old(store.tags), tagId).value].createdBy, user)
    ensures result.Failure? ==> result.reason in {TagNotFound, Forbidden} && store.tags == old(store.tags)
    ensures result.Success? ==>
              var k := IndexOfTag(old(store.tags), tagId).value;
              store.tags == old(store.tags)[..k] + old(store.tags)[k + 1..] &&
              forall t :: t in store.tags <==> t in old(store.tags) && t.id != tagId
    ensures store.docs == old(store.docs) && store.categories == old(store.categories) &&
            store.nextDocId == old(store.nextDocId) && store.nextTagId == old(store.nextTagId)
    ensures store.Valid()
  {
    var index := IndexOfTag(store.tags, tagId);
    if index.None? {
      return Failure(TagNotFound);
    }
    var k := index.value;
    if store.tags[k].createdBy != user.id && !user.isStaff {
      return Failure(Forbidden);
    }
    DeleteAtMembers(store.tags, k);
    DeleteAtOrdered(store.tags, k);
    store.tags := store.tags[..k] + store.tags[k + 1..];
    return Success(());
  }

  /** delete_document: the owner or staff removes the document and exactly its tags. */
  method DeleteDocument(store: Store, documentId: int, user: User) returns (result: Outcome<()>)
    requires store.Valid()
    modifies store`docs, store`tags
    ensures result == Failure(DocumentNotFound) <==> documentId < 0 || documentId !in old(store.docs)
    ensures result.Success? <==>
              0 <= documentId && documentId in old(store.docs) && MayEdit(old(store.docs)[documentId].owner, user)
    ensures result.Failure? ==> result.reason in {DocumentNotFound, Forbidden} &&
                                store.docs == old(store.docs) && store.tags == old(store.tags)
    ensures result.Success? ==>
              store.docs == old(store.docs) - {documentId as DocId} &&
              store.tags == RemoveDocTags(old(store.tags), {documentId as DocId})
    ensures store.categories == old(store.categories) &&
            store.nextDocId == old(store.nextDocId) && store.nextTagId == old(store.nextTagId)
    ensures store.Valid()
  {
    if documentId < 0 || documentId !in store.docs {
      return Failure(DocumentNotFound);
    }
    var doc: DocId := documentId;
    if store.docs[doc].owner != user.id && !user.isStaff {
      return Failure(Forbidden);
    }
    RemoveDocTagsWellFormed(store.tags, store.docs.Keys, store.categories.Keys, store.nextTagId, {doc});
    store.tags := RemoveDocTags(store.tags, {doc});
    store.docs := store.docs - {doc};
    assert store.docs.Keys == old(store.docs).Keys - {doc};
    return Success(());
  }

  /**
   * The documents bulk_delete_documents removes: those named by some id in
   * the list that exist and that the user owns, or any existing one for
   * staff.
   */
  function Deletable(docs: map<DocId, Document>, ids: seq<Value>, user: User): (r: set<DocId>)
    ensures r <= docs.Keys
  {
    if |ids| == 0 then {}
    else
      var init := Deletable(docs, ids[..|ids| - 1], user);
      var key := DocKey(ids[|ids| - 1]);
      if key.Some? && key.value in docs && MayEdit(docs[key.value].owner, user) then init + {key.value}
      else init
  }

  /**
   * A document is deleted exactly when it exists, the user may edit it,
   * and some id in the list names it.
   */
  lemma {:induction false} DeletableMembers(docs: map<DocId, Document>, ids: seq<Value>, user: User, d: DocId)
    ensures d in Deletable(docs, ids, user) <==>
              d in docs && MayEdit(docs[d].owner, user) && exists i :: 0 <= i < |ids| && DocKey(ids[i]) == Some(d)
  {
    if |ids| > 0 {
      var init := ids[..|ids| - 1];
      DeletableMembers(docs, init, user, d);
      if exists i :: 0 <= i < |init| && DocKey(init[i]) == Some(d) {
        var i :| 0 <= i < |init| && DocKey(init[i]) == Some(d);
        assert ids[i] == init[i];
      }
      if exists i :: 0 <= i < |ids| && DocKey(ids[i]) == Some(d) {
        var i :| 0 <= i < |ids| && DocKey(ids[i]) == Some(d);
        if i < |init| {
          assert ids[i] == init[i];
        }
      }
    }
  }

  /** The deletable set of a longer prefix adds at most the last id's document. */
  lemma {:induction false} DeletableSnoc(docs: map<DocId, Document>, ids: seq<Value>, i: nat, user: User)
    requires i < |ids|
    ensures var key := DocKey(ids[i]);
            Deletable(docs, ids[..i + 1], user) ==
            Deletable(docs, ids[..i], user) +
              (if key.Some? && key.value in docs && MayEdit(docs[key.value].owner, user) then {key.value} else {})
  {
    assert ids[..i + 1][..i] == ids[..i];
  }

  /** Deleting one more document, not yet deleted, from what is left. */
  lemma {:induction false} DeleteOneMore(docs0: map<DocId, Document>, gone: set<DocId>, d: DocId)
    requires d in docs0 && d !in gone
    ensures (docs0 - gone) - {d} == docs0 - (gone + {d})
    ensures |gone + {d}| == |gone| + 1
  {
  }

  /** bulk_delete_documents: each id in turn; missing and foreign documents are skipped. */
  method BulkDeleteDocuments(store: Store, documentIds: seq<Value>, user: User) returns (deletedCount: nat)
    requires store.Valid()
    modifies store`docs, store`tags
    ensures deletedCount == |Deletable(old(store.docs), documentIds, user)|
    ensures store.docs == old(store.docs) - Deletable(old(store.docs), documentIds, user)
    ensures store.tags == RemoveDocTags(old(store.tags), Deletable(old(store.docs), documentIds, user))
    ensures store.categories == old(store.categories) &&
            store.nextDocId == old(store.nextDocId) && store.nextTagId == old(store.nextTagId)
    ensures store.Valid()
  {
    ghost var docs0, tags0 := store.docs, store.tags;
    RemoveNoDocTags(tags0);
    deletedCount := 0;
    for i := 0 to |documentIds|
      invariant store.docs == docs0 - Deletable(docs0, documentIds[..i], user)
      invariant store.tags == RemoveDocTags(tags0, Deletable(docs0, documentIds[..i], user))
      invariant deletedCount == |Deletable(docs0, documentIds[..i], user)|
      invariant store.categories == old(store.categories) &&
                store.nextDocId == old(store.nextDocId) && store.nextTagId == old(store.nextTagId)
      invariant store.Valid()
    {
      ghost var gone := Deletable(docs0, documentIds[..i], user);
      DeletableSnoc(docs0, documentIds, i, user);
      var key := DocKey(documentIds[i]);
      if key.Some? && key.value in store.docs {
        var doc := key.value;
        if store.docs[doc].owner == user.id || user.isStaff {
          DeleteOneMore(docs0, gone, doc);
          RemoveDocTagsWellFormed(store.tags, store.docs.Keys, store.categories.Keys, store.nextTagId, {doc});
          RemoveDocTagsTwice(tags0, gone, {doc});
          store.tags := RemoveDocTags(store.tags, {doc});
          store.docs := store.docs - {doc};
          deletedCount := deletedCount + 1;
        } else {
          assert Deletable(docs0, documentIds[..i + 1], user) == gone;
        }
      } else {
        assert Deletable(docs0, documentIds[..i + 1], user) == gone;
      }
    }
    assert documentIds[..|documentIds|] == documentIds;
  }

  // ---------------------------------------------------------------------------
  // Import: process_jsonl_upload, _create_document_from_json, _create_pii_tag_from_entity
  // ---------------------------------------------------------------------------

  /** The document _create_document_from_json stores: every metadata field as text. */
  function DocumentFromRecord(rec: Record, user: User): (d: Document)
    ensures d.owner == user.id && d.text == rec.text
  {
    Document(user.id,
             SanitizeMetadataField(Get(rec.metadata, "data_id", VNone)),
             PyStr(Get(rec.metadata, "number_of_subjects", VStr(""))),
             SanitizeMetadataField(Get(rec.provenance, "dialog_type", VNone)),
             PyStr(Get(rec.provenance, "turn_cnt", VStr(""))),
             SanitizeMetadataField(Get(rec.provenance, "doc_id", VNone)),
             rec.text)
  }

  /**
   * Each metadata field is stored as text: a text data_id is kept, and a
   * missing or null data_id, dialog_type or doc_id becomes empty, as does a
   * missing number_of_subjects.
   */
  lemma {:induction false} DocumentFromRecordFields(rec: Record, user: User)
    ensures var d := DocumentFromRecord(rec, user);
            (Get(rec.metadata, "data_id", VNone).VStr? ==> d.dataId == Get(rec.metadata, "data_id", VNone).s) &&
            (Get(rec.metadata, "data_id", VNone).VNone? ==> d.dataId == "") &&
            (Get(rec.provenance, "doc_id", VNone).VNone? ==> d.docId == "") &&
            (Get(rec.provenance, "dialog_type", VNone).VNone? ==> d.dialogType == "") &&
            ("number_of_subjects" !in rec.metadata ==> d.numberOfSubjects == "")
  {
  }

  /** The entity's values can be stored: a text and two offsets that the integer columns accept. */
  predicate EntityStorable(entity: Fields) {
    !Get(entity, "span_text", VStr("")).VNone? &&
    PyInt(Get(entity, "start_offset", VInt(0))).Some? && PyInt(Get(entity, "end_offset", VInt(0))).Some?
  }

  /**
   * What one entity contributes to its tag, read the way
   * _create_pii_tag_from_entity reads it. `spanId` and `entityId` are ""
   * where the entity leaves them to the document's numbering.
   */
  datatype EntityFields = EntityFields(
    category: string,
    spanText: string,
    startOffset: int,
    endOffset: int,
    spanId: string,
    entityId: string,
    annotator: string,
    identifierType: string)

  /** The entity's fields, or None when no tag is stored for it. */
  function DecodeEntity(cats: map<string, Category>, entity: Fields): (r: Option<EntityFields>)
    ensures r.Some? <==>
              CategoryKey(Get(entity, "entity_type", VNone)).Some? &&
              CategoryKey(Get(entity, "entity_type", VNone)).value in cats && EntityStorable(entity)
    ensures r.Some? ==> r.value.category in cats && r.value.annotator != "" && r.value.identifierType != ""
  {
    match CategoryKey(Get(entity, "entity_type", VNone))
    case None => None
    case Some(category) =>
      if category !in cats || !EntityStorable(entity) then None
      else
        Some(EntityFields(category, PyStr(Get(entity, "span_text", VStr(""))),
                          PyInt(Get(entity, "start_offset", VInt(0))).value,
                          PyInt(Get(entity, "end_offset", VInt(0))).value,
                          OrDefault(entity, "span_id", ""), OrDefault(entity, "entity_id", ""),
                          OrDefault(entity, "annotator", "Anonymous"),
                          OrDefault(entity, "identifier_type", "default")))
  }

  /** The tag stored for decoded fields `f`, numbering missing ids after the document's tags so far. */
  function PlaceEntity(tags: seq<Tag>, doc: DocId, f: EntityFields, user: User, id: TagId): (t: Tag)
    ensures t.id == id && t.document == doc && t.category == f.category && t.createdBy == user.id
  {
    Tag(id, doc, f.category, f.spanText, f.startOffset, f.endOffset,
        if f.spanId == "" then NextNumericId(SpanIdsOf(tags, doc)) else f.spanId,
        if f.entityId == "" then NextNumericId(EntityIdsOf(tags, doc)) else f.entityId,
        f.annotator, f.identifierType, user.id)
  }

  /**
   * The tag _create_pii_tag_from_entity stores for one entity of document
   * `doc`, given the tags stored so far, or None when it stores none.
   */
  function EntityTag(cats: map<string, Category>, tags: seq<Tag>, doc: DocId, entity: Fields,
                     user: User, id: TagId): (r: Option<Tag>)
    ensures r.Some? ==> r.value.id == id && r.value.document == doc && r.value.category in cats
  {
    match DecodeEntity(cats, entity)
    case None => None
    case Some(f) => Some(PlaceEntity(tags, doc, f, user, id))
  }

  /** An entity is stored exactly when its category is known and its text and offsets can be stored. */
  lemma {:induction false} EntityTagStored(cats: map<string, Category>, tags: seq<Tag>, doc: DocId, entity: Fields,
                        user: User, id: TagId)
    ensures EntityTag(cats, tags, doc, entity, user, id).Some? <==>
              CategoryKey(Get(entity, "entity_type", VNone)).Some? &&
              CategoryKey(Get(entity, "entity_type", VNone)).value in cats && EntityStorable(entity)
  {
  }

  /**
   * The stored tag copies the entity's text and offsets; its span_id and
   * entity_id are the entity's own when given and otherwise continue the
   * document's numbering; annotator and identifier_type fall back to
   * "Anonymous" and "default".
   */
  lemma {:induction false} EntityTagFields(cats: map<string, Category>, tags: seq<Tag>, doc: DocId, entity: Fields,
                        user: User, id: TagId)
    requires EntityTag(cats, tags, doc, entity, user, id).Some?
    ensures var t := EntityTag(cats, tags, doc, entity, user, id).value;
            t.createdBy == user.id && t.category == CategoryKey(Get(entity, "entity_type", VNone)).value &&
            t.spanText == PyStr(Get(entity, "span_text", VStr(""))) &&
            Some(t.startOffset) == PyInt(Get(entity, "start_offset", VInt(0))) &&
            Some(t.endOffset) == PyInt(Get(entity, "end_offset", VInt(0)))
    ensures var t := EntityTag(cats, tags, doc, entity, user, id).value;
            t.spanId == OrDefault(entity, "span_id", NextNumericId(SpanIdsOf(tags, doc))) &&
            t.entityId == OrDefault(entity, "entity_id", NextNumericId(EntityIdsOf(tags, doc))) &&
            t.annotator == OrDefault(entity, "annotator", "Anonymous") &&
            t.identifierType == OrDefault(entity, "identifier_type", "default")
  {
  }

  /** A stored tag always has a span_id and an entity_id. */
  lemma {:induction false} EntityTagIds(cats: map<string, Category>, tags: seq<Tag>, doc: DocId, entity: Fields,
                     user: User, id: TagId)
    requires EntityTag(cats, tags, doc, entity, user, id).Some?
    ensures EntityTag(cats, tags, doc, entity, user, id).value.spanId != ""
    ensures EntityTag(cats, tags, doc, entity, user, id).value.entityId != ""
  {
    NextNumericIdAbove(SpanIdsOf(tags, doc));
    NextNumericIdAbove(EntityIdsOf(tags, doc));
  }

  /** Every entity of a list, decoded. */
  function DecodeEntities(cats: map<string, Category>, entities: seq<Fields>): (r: seq<Option<EntityFields>>)
    ensures |r| == |entities|
    ensures forall k :: 0 <= k < |entities| ==> r[k] == DecodeEntity(cats, entities[k])
  {
    seq(|entities|, k requires 0 <= k < |entities| => DecodeEntity(cats, entities[k]))
  }

  /**
   * The tags stored for decoded entities, in order, each numbered after the
   * tags stored before it; row ids are handed out consecutively from `firstId`.
   */
  function PlaceEntities(tags: seq<Tag>, doc: DocId, fs: seq<Option<EntityFields>>, user: User,
                         firstId: TagId): (r: seq<Tag>)
    ensures |r| <= |fs|
  {
    if |fs| == 0 then []
    else
      var prior := PlaceEntities(tags, doc, fs[..|fs| - 1], user, firstId);
      var f := fs[|fs| - 1];
      prior + (if f.Some? then [PlaceEntity(tags + prior, doc, f.value, user, firstId + |prior|)] else [])
  }

  /** The tags _create_document_from_json stores for a document's entities. */
  function ImportEntities(cats: map<string, Category>, tags: seq<Tag>, doc: DocId, entities: seq<Fields>,
                          user: User, firstId: TagId): (r: seq<Tag>)
    ensures |r| <= |entities|
  {
    PlaceEntities(tags, doc, DecodeEntities(cats, entities), user, firstId)
  }

  lemma {:induction false} PlaceEntitiesSnoc(tags: seq<Tag>, doc: DocId, fs: seq<Option<EntityFields>>, i: nat, user: User,
                          firstId: TagId)
    requires i < |fs|
    ensures var prior := PlaceEntities(tags, doc, fs[..i], user, firstId);
            PlaceEntities(tags, doc, fs[..i + 1], user, firstId) ==
            prior + (if fs[i].Some? then [PlaceEntity(tags + prior, doc, fs[i].value, user, firstId + |prior|)] else [])
  {
    assert fs[..i + 1][..i] == fs[..i];
  }

  /**
   * The stored tags are numbered consecutively from `firstId`, belong to the
   * document and name a known category.
   */
  lemma {:induction false} PlaceEntitiesIds(tags: seq<Tag>, doc: DocId, fs: seq<Option<EntityFields>>, user: User,
                                            firstId: TagId, cats: map<string, Category>)
    requires forall k :: 0 <= k < |fs| && fs[k].Some? ==> fs[k].value.category in cats
    ensures forall k :: 0 <= k < |PlaceEntities(tags, doc, fs, user, firstId)| ==>
              PlaceEntities(tags, doc, fs, user, firstId)[k].id == firstId + k &&
              PlaceEntities(tags, doc, fs, user, firstId)[k].document == doc &&
              PlaceEntities(tags, doc, fs, user, firstId)[k].category in cats
  {
    var r := PlaceEntities(tags, doc, fs, user, firstId);
    if |fs| > 0 {
      var init := fs[..|fs| - 1];
      assert forall k :: 0 <= k < |init| ==> init[k] == fs[k];
      PlaceEntitiesIds(tags, doc, init, user, firstId, cats);
      var prior := PlaceEntities(tags, doc, init, user, firstId);
      forall k | 0 <= k < |r|
        ensures r[k].id == firstId + k && r[k].document == doc && r[k].category in cats
      {
        var f := fs[|fs| - 1];
        assert r == prior + (if f.Some? then [PlaceEntity(tags + prior, doc, f.value, user, firstId + |prior|)] else []);
        if k < |prior| {
          assert r[k] == prior[k];
        } else {
          assert r[k] == PlaceEntity(tags + prior, doc, f.value, user, firstId + |prior|);
        }
      }
    }
  }

  /** Every imported tag belongs to the document, names a known category and gets the next row id. */
  lemma {:induction false} ImportEntitiesIds(cats: map<string, Category>, tags: seq<Tag>, doc: DocId, entities: seq<Fields>,
                          user: User, firstId: TagId)
    ensures forall k :: 0 <= k < |ImportEntities(cats, tags, doc, entities, user, firstId)| ==>
              ImportEntities(cats, tags, doc, entities, user, firstId)[k].id == firstId + k &&
              ImportEntities(cats, tags, doc, entities, user, firstId)[k].document == doc &&
              ImportEntities(cats, tags, doc, entities, user, firstId)[k].category in cats
  {
    var fs := DecodeEntities(cats, entities);
    PlaceEntitiesIds(tags, doc, fs, user, firstId, cats);
    assert ImportEntities(cats, tags, doc, entities, user, firstId) == PlaceEntities(tags, doc, fs, user, firstId);
  }

  /**
   * When every entity decodes, each stored tag carries the decoded fields of
   * its entity, in entity order, and keeps the ids the entity gave.
   */
  lemma {:induction false} PlaceEntitiesStored(tags: seq<Tag>, doc: DocId, fs: seq<Option<EntityFields>>, user: User,
                                               firstId: TagId)
    requires forall k :: 0 <= k < |fs| ==> fs[k].Some?
    ensures |PlaceEntities(tags, doc, fs, user, firstId)| == |fs|
    ensures forall k :: 0 <= k < |fs| ==> SameEntityFields(PlaceEntities(tags, doc, fs, user, firstId)[k], fs[k].value)
  {
    if |fs| > 0 {
      var init := fs[..|fs| - 1];
      assert forall k :: 0 <= k < |init| ==> init[k] == fs[k];
      PlaceEntitiesStored(tags, doc, init, user, firstId);
      var prior := PlaceEntities(tags, doc, init, user, firstId);
      var t := PlaceEntity(tags + prior, doc, fs[|fs| - 1].value, user, firstId + |prior|);
      var placed := PlaceEntities(tags, doc, fs, user, firstId);
      assert placed == prior + [t];
      forall k | 0 <= k < |fs| ensures SameEntityFields(placed[k], fs[k].value) {
        if k < |init| {
          assert placed[k] == prior[k];
        }
      }
    }
  }

  /** Tag `t` carries the decoded fields `f`, and the ids `f` gives. */
  predicate SameEntityFields(t: Tag, f: EntityFields) {
    t.category == f.category && t.spanText == f.spanText &&
    t.startOffset == f.startOffset && t.endOffset == f.endOffset &&
    (f.spanId != "" ==> t.spanId == f.spanId) && (f.entityId != "" ==> t.entityId == f.entityId) &&
    t.annotator == f.annotator && t.identifierType == f.identifierType
  }

  /** An entity whose category is unknown adds no tag. */
  lemma {:induction false} UnknownCategorySkipped(cats: map<string, Category>, tags: seq<Tag>, doc: DocId, entities: seq<Fields>,
                               entity: Fields, user: User, firstId: TagId)
    requires CategoryKey(Get(entity, "entity_type", VNone)).None? ||
             CategoryKey(Get(entity, "entity_type", VNone)).value !in cats
    ensures ImportEntities(cats, tags, doc, entities + [entity], user, firstId) ==
            ImportEntities(cats, tags, doc, entities, user, firstId)
  {
    var fs := DecodeEntities(cats, entities + [entity]);
    assert fs[..|entities|] == DecodeEntities(cats, entities);
    PlaceEntitiesSnoc(tags, doc, fs, |entities|, user, firstId);
    assert fs[..|entities| + 1] == fs;
  }

  /** _create_pii_tag_from_entity's decision, over the store's values. */
  method ResolveEntityTag(cats: map<string, Category>, tags: seq<Tag>, doc: DocId, entity: Fields,
                          user: User, id: TagId) returns (r: Option<Tag>)
    ensures r == EntityTag(cats, tags, doc, entity, user, id)
  {
    var piiCategory := CategoryKey(Get(entity, "entity_type", VNone));
    if piiCategory.None? || piiCategory.value !in cats {
      return None;
    }
    var spanId := OrDefault(entity, "span_id", "");
    if spanId == "" {
      spanId := NextSpanId(tags, doc);
    }
    var entityId := OrDefault(entity, "entity_id", "");
    if entityId == "" {
      entityId := NextEntityId(tags, doc);
    }
    var annotator := OrDefault(entity, "annotator", "Anonymous");
    var identifierType := OrDefault(entity, "identifier_type", "default");
    var spanText := Get(entity, "span_text", VStr(""));
    var startOffset := PyInt(Get(entity, "start_offset", VInt(0)));
    var endOffset := PyInt(Get(entity, "end_offset", VInt(0)));
    if spanText.VNone? || startOffset.None? || endOffset.None? {
      return None;
    }
    return Some(Tag(id, doc, piiCategory.value, PyStr(spanText), startOffset.value, endOffset.value,
                    spanId, entityId, annotator, identifierType, user.id));
  }

  /** _create_pii_tag_from_entity: store the entity's tag if it can be stored; report whether it was. */
  method CreatePiiTagFromEntity(store: Store, doc: DocId, entity: Fields, user: User) returns (created: bool)
    requires store.Valid() && doc in store.docs
    modifies store`tags, store`nextTagId
    ensures var r := EntityTag(old(store.categories), old(store.tags), doc, entity, user, old(store.nextTagId));
            created == r.Some? &&
            store.tags == old(store.tags) + (if r.Some? then [r.value] else []) &&
            store.nextTagId == old(store.nextTagId) + (if r.Some? then 1 else 0)
    ensures store.docs == old(store.docs) && store.categories == old(store.categories) &&
            store.nextDocId == old(store.nextDocId)
    ensures store.Valid()
  {
    var tag := ResolveEntityTag(store.categories, store.tags, doc, entity, user, store.nextTagId);
    created := tag.Some?;
    if created {
      TagsWellFormedAppend(store.tags, store.docs.Keys, store.categories.Keys, store.nextTagId, tag.value);
      store.tags := store.tags + [tag.value];
      store.nextTagId := store.nextTagId + 1;
    }
  }

  /** _create_document_from_json: one new document, then its entities in order. */
  method CreateDocumentFromJson(store: Store, data: Record, user: User) returns (document: DocId, tagsCount: nat)
    requires store.Valid()
    modifies store`docs, store`nextDocId, store`tags, store`nextTagId
    ensures document == old(store.nextDocId) && store.nextDocId == old(store.nextDocId) + 1
    ensures store.docs == old(store.docs)[document := DocumentFromRecord(data, user)]
    ensures var created := ImportEntities(old(store.categories), old(store.tags), document, data.entities, user,
                                          old(store.nextTagId));
            store.tags == old(store.tags) + created && tagsCount == |created| &&
            store.nextTagId == old(store.nextTagId) + tagsCount
    ensures HoldsImported(store.tags, document, old(store.categories), old(store.tags), data.entities, user,
                          old(store.nextTagId))
    ensures store.categories == old(store.categories)
    ensures store.Valid()
  {
    var metadata := data.metadata;
    var provenance := data.provenance;
    var doc := Document(user.id,
                        SanitizeMetadataField(Get(metadata, "data_id", VNone)),
                        PyStr(Get(metadata, "number_of_subjects", VStr(""))),
                        SanitizeMetadataField(Get(provenance, "dialog_type", VNone)),
                        PyStr(Get(provenance, "turn_cnt", VStr(""))),
                        SanitizeMetadataField(Get(provenance, "doc_id", VNone)),
                        data.text);
    document := store.nextDocId;
    TagsWellFormedMono(store.tags, store.docs.Keys, store.docs.Keys + {document}, store.categories.Keys,
                       store.categories.Keys, store.nextTagId, store.nextTagId);
    store.docs := store.docs[document := doc];
    store.nextDocId := store.nextDocId + 1;
    ghost var tags0, cats := store.tags, store.categories;
    tagsCount := CreateEntityTags(store, document, data.entities, user);
    ImportedTagsOf(cats, tags0, document, data.entities, user, old(store.nextTagId));
  }

  /** The document's tags in `tags` are exactly those its entities created on top of `prior`. */
  ghost predicate HoldsImported(tags: seq<Tag>, doc: DocId, cats: map<string, Category>, prior: seq<Tag>,
                                entities: seq<Fields>, user: User, firstId: TagId) {
    TagsOf(tags, doc) == ImportEntities(cats, prior, doc, entities, user, firstId)
  }

  /**
   * The tags of a new document, after its import: exactly those its
   * entities created, since no earlier tag names it.
   */
  lemma {:induction false} ImportedTagsOf(cats: map<string, Category>, tags: seq<Tag>, doc: DocId, entities: seq<Fields>,
                                          user: User, firstId: TagId)
    requires forall i :: 0 <= i < |tags| ==> tags[i].document != doc
    ensures TagsOf(tags + ImportEntities(cats, tags, doc, entities, user, firstId), doc) ==
            ImportEntities(cats, tags, doc, entities, user, firstId)
  {
    var created := ImportEntities(cats, tags, doc, entities, user, firstId);
    TagsOfAppend(tags, created, doc);
    TagsOfNone(tags, doc);
    ImportEntitiesIds(cats, tags, doc, entities, user, firstId);
    TagsOfAll(created, doc);
  }

  /** The tags one entity adds, in terms of what it decodes to. */
  lemma {:induction false} EntityTagPlaced(cats: map<string, Category>, tags: seq<Tag>, doc: DocId, entity: Fields,
                                           f: Option<EntityFields>, user: User, id: TagId)
    requires f == DecodeEntity(cats, entity)
    ensures (if EntityTag(cats, tags, doc, entity, user, id).Some? then [EntityTag(cats, tags, doc, entity, user, id).value]
             else []) ==
            (if f.Some? then [PlaceEntity(tags, doc, f.value, user, id)] else [])
  {
  }

  /** One entity takes the tags stored so far for a document one entity further. */
  lemma {:induction false} EntityStep(tags0: seq<Tag>, doc: DocId, fs: seq<Option<EntityFields>>, i: nat, user: User,
                                      nextTag0: TagId, prior: seq<Tag>, tagsBefore: seq<Tag>, tagBefore: TagId,
                                      added: seq<Tag>)
    requires i < |fs| && prior == PlaceEntities(tags0, doc, fs[..i], user, nextTag0)
    requires tagsBefore == tags0 + prior && tagBefore == nextTag0 + |prior|
    requires added == if fs[i].Some? then [PlaceEntity(tagsBefore, doc, fs[i].value, user, tagBefore)] else []
    ensures PlaceEntities(tags0, doc, fs[..i + 1], user, nextTag0) == prior + added
    ensures tagsBefore + added == tags0 + (prior + added)
  {
    PlaceEntitiesSnoc(tags0, doc, fs, i, user, nextTag0);
    AppendAssoc(tags0, prior, added);
  }

  /** The tag one entity adds after the tags of the entities before it, as the entity loop sees it. */
  lemma {:induction false} EntityTagStep(cats: map<string, Category>, tags0: seq<Tag>, doc: DocId, entities: seq<Fields>,
                                         fs: seq<Option<EntityFields>>, i: nat, user: User, nextTag0: TagId,
                                         prior: seq<Tag>, tagsBefore: seq<Tag>, tagBefore: TagId)
    requires i < |entities| && i < |fs| && fs[i] == DecodeEntity(cats, entities[i])
    requires prior == PlaceEntities(tags0, doc, fs[..i], user, nextTag0)
    requires tagsBefore == tags0 + prior && tagBefore == nextTag0 + |prior|
    ensures var r := EntityTag(cats, tagsBefore, doc, entities[i], user, tagBefore);
            var added := if r.Some? then [r.value] else [];
            PlaceEntities(tags0, doc, fs[..i + 1], user, nextTag0) == prior + added &&
            tagsBefore + added == tags0 + (prior + added)
  {
    EntityTagPlaced(cats, tagsBefore, doc, entities[i], fs[i], user, tagBefore);
    var r := EntityTag(cats, tagsBefore, doc, entities[i], user, tagBefore);
    EntityStep(tags0, doc, fs, i, user, nextTag0, prior, tagsBefore, tagBefore, if r.Some? then [r.value] else []);
  }

  /** The entity loop of _create_document_from_json: one attempt per entity, counting the tags stored. */
  method CreateEntityTags(store: Store, document: DocId, entities: seq<Fields>, user: User) returns (tagsCount: nat)
    requires store.Valid() && document in store.docs
    modifies store`tags, store`nextTagId
    ensures store.tags == old(store.tags) +
                          ImportEntities(old(store.categories), old(store.tags), document, entities, user,
                                         old(store.nextTagId))
    ensures tagsCount == |store.tags| - |old(store.tags)| && store.nextTagId == old(store.nextTagId) + tagsCount
    ensures store.docs == old(store.docs) && store.nextDocId == old(store.nextDocId)
    ensures store.categories == old(store.categories)
    ensures store.Valid()
  {
    ghost var tags0, nextTag0 := store.tags, store.nextTagId;
    ghost var fs := DecodeEntities(store.categories, entities);
    ghost var placed: seq<Tag> := [];
    tagsCount := 0;
    for i := 0 to |entities|
      invariant placed == PlaceEntities(tags0, document, fs[..i], user, nextTag0)
      invariant store.tags == tags0 + placed && tagsCount == |placed|
      invariant store.nextTagId == nextTag0 + tagsCount
      invariant store.categories == old(store.categories)
      invariant store.Valid()
    {
      ghost var r := EntityTag(store.categories, store.tags, document, entities[i], user, store.nextTagId);
      EntityTagStep(store.categories, tags0, document, entities, fs, i, user, nextTag0, placed, store.tags, store.nextTagId);
      var created := CreatePiiTagFromEntity(store, document, entities[i], user);
      placed := placed + if r.Some? then [r.value] else [];
      if created {
        tagsCount := tagsCount + 1;
      }
    }
    assert fs[..|entities|] == fs;
  }

  /** What one upload line yields: nothing for a blank line, otherwise what it decodes to. */
  function DecodeLine(parse: string -> Option<Record>, line: string): Option<Record> {
    if Strip(line) == "" then None else parse(line)
  }

  /** What every line of an upload yields, line by line. */
  function DecodeLines(lines: seq<string>, parse: string -> Option<Record>): (ds: seq<Option<Record>>)
    ensures |ds| == |lines|
    ensures forall k :: 0 <= k < |lines| ==> ds[k] == DecodeLine(parse, lines[k])
  {
    seq(|lines|, k requires 0 <= k < |lines| => DecodeLine(parse, lines[k]))
  }

  /** The records among what the lines yielded, in order. */
  function Importable(ds: seq<Option<Record>>): (r: seq<Record>)
    ensures |r| <= |ds|
  {
    if |ds| == 0 then []
    else if ds[|ds| - 1].Some? then Importable(ds[..|ds| - 1]) + [ds[|ds| - 1].value]
    else Importable(ds[..|ds| - 1])
  }

  /** The records the upload creates documents from: non-blank lines that decode, in order. */
  function ImportableRecords(lines: seq<string>, parse: string -> Option<Record>): (r: seq<Record>)
    ensures |r| <= |lines|
  {
    Importable(DecodeLines(lines, parse))
  }

  lemma {:induction false} ImportableAll(ds: seq<Option<Record>>)
    ensures (forall i :: 0 <= i < |ds| ==> ds[i].Some?) ==>
              Importable(ds) == seq(|ds|, i requires 0 <= i < |ds| && ds[i].Some? => ds[i].value)
    ensures (forall i :: 0 <= i < |ds| ==> ds[i].None?) ==> Importable(ds) == []
  {
    if |ds| > 0 {
      var init := ds[..|ds| - 1];
      ImportableAll(init);
      assert forall i :: 0 <= i < |init| ==> init[i] == ds[i];
    }
  }

  /** The records of a mixed upload are exactly the values the lines yielded. */
  lemma {:induction false} ImportableMembers(ds: seq<Option<Record>>, r: Record)
    ensures r in Importable(ds) <==> exists i :: 0 <= i < |ds| && ds[i] == Some(r)
  {
    if |ds| > 0 {
      var init := ds[..|ds| - 1];
      ImportableMembers(init, r);
      if exists i :: 0 <= i < |ds| && ds[i] == Some(r) {
        var i :| 0 <= i < |ds| && ds[i] == Some(r);
        if i < |init| {
          assert init[i] == Some(r);
        }
      }
      if exists i :: 0 <= i < |init| && init[i] == Some(r) {
        var i :| 0 <= i < |init| && init[i] == Some(r);
        assert ds[i] == Some(r);
      }
    }
  }

  /** Records come out in line order: the records of two stretches of lines, one after the other. */
  lemma {:induction false} ImportableAppend(a: seq<Option<Record>>, b: seq<Option<Record>>)
    ensures Importable(a + b) == Importable(a) + Importable(b)
    decreases |b|
  {
    if |b| == 0 {
      assert a + b == a;
    } else {
      var init := b[..|b| - 1];
      assert (a + b)[..|a + b| - 1] == a + init;
      ImportableAppend(a, init);
    }
  }

  /**
   * Every non-blank line that decodes yields a document, and only such
   * lines do; the records keep the order of their lines.
   */
  lemma {:induction false} ImportableRecordsCount(lines: seq<string>, parse: string -> Option<Record>)
    ensures forall r :: r in ImportableRecords(lines, parse) <==>
              exists i :: 0 <= i < |lines| && Strip(lines[i]) != "" && parse(lines[i]) == Some(r)
    ensures forall j :: 0 <= j <= |lines| ==>
              ImportableRecords(lines, parse) == ImportableRecords(lines[..j], parse) + ImportableRecords(lines[j..], parse)
    ensures (forall i :: 0 <= i < |lines| ==> Strip(lines[i]) != "" && parse(lines[i]).Some?) ==>
              ImportableRecords(lines, parse) == seq(|lines|, i requires 0 <= i < |lines| => parse(lines[i]).value)
    ensures (forall i :: 0 <= i < |lines| ==> Strip(lines[i]) == "" || parse(lines[i]).None?) ==>
              ImportableRecords(lines, parse) == []
  {
    ImportableAll(DecodeLines(lines, parse));
    forall r ensures r in ImportableRecords(lines, parse) <==>
                     exists i :: 0 <= i < |lines| && Strip(lines[i]) != "" && parse(lines[i]) == Some(r)
    {
      ImportableLine(lines, parse, r);
    }
    forall j | 0 <= j <= |lines|
      ensures ImportableRecords(lines, parse) == ImportableRecords(lines[..j], parse) + ImportableRecords(lines[j..], parse)
    {
      ImportableSplit(lines, parse, j);
    }
  }

  lemma {:induction false} ImportableLine(lines: seq<string>, parse: string -> Option<Record>, r: Record)
    ensures r in ImportableRecords(lines, parse) <==>
            exists i :: 0 <= i < |lines| && Strip(lines[i]) != "" && parse(lines[i]) == Some(r)
  {
    var ds := DecodeLines(lines, parse);
    ImportableMembers(ds, r);
    if exists i :: 0 <= i < |lines| && Strip(lines[i]) != "" && parse(lines[i]) == Some(r) {
      var i :| 0 <= i < |lines| && Strip(lines[i]) != "" && parse(lines[i]) == Some(r);
      assert ds[i] == Some(r);
    }
  }

  lemma {:induction false} ImportableSplit(lines: seq<string>, parse: string -> Option<Record>, j: nat)
    requires j <= |lines|
    ensures ImportableRecords(lines, parse) == ImportableRecords(lines[..j], parse) + ImportableRecords(lines[j..], parse)
  {
    assert lines == lines[..j] + lines[j..];
    assert DecodeLines(lines[..j], parse) + DecodeLines(lines[j..], parse) == DecodeLines(lines, parse);
    ImportableAppend(DecodeLines(lines[..j], parse), DecodeLines(lines[j..], parse));
  }

  /** The documents after an upload: record k becomes document firstDoc + k. */
  function AddDocuments(docs: map<DocId, Document>, recs: seq<Record>, user: User, firstDoc: DocId): map<DocId, Document>
  {
    if |recs| == 0 then docs
    else AddDocuments(docs, recs[..|recs| - 1], user, firstDoc)[firstDoc + |recs| - 1 := DocumentFromRecord(recs[|recs| - 1], user)]
  }

  /**
   * An upload adds the documents numbered firstDoc up to firstDoc + |recs| - 1,
   * one per record and in order, and keeps every other document.
   */
  lemma {:induction false} AddDocumentsSpec(docs: map<DocId, Document>, recs: seq<Record>, user: User, firstDoc: DocId)
    ensures forall d :: d in AddDocuments(docs, recs, user, firstDoc) <==> d in docs || firstDoc <= d < firstDoc + |recs|
    ensures forall k :: 0 <= k < |recs| ==>
              AddDocuments(docs, recs, user, firstDoc)[firstDoc + k] == DocumentFromRecord(recs[k], user)
    ensures forall d :: d in docs && !(firstDoc <= d < firstDoc + |recs|) ==>
              AddDocuments(docs, recs, user, firstDoc)[d] == docs[d]
  {
    if |recs| > 0 {
      var init := recs[..|recs| - 1];
      AddDocumentsSpec(docs, init, user, firstDoc);
      var prior := AddDocuments(docs, init, user, firstDoc);
      var m := prior[firstDoc + |recs| - 1 := DocumentFromRecord(recs[|recs| - 1], user)];
      assert AddDocuments(docs, recs, user, firstDoc) == m;
      forall k | 0 <= k < |recs| ensures m[firstDoc + k] == DocumentFromRecord(recs[k], user) {
        if k < |init| {
          assert init[k] == recs[k];
        }
      }
    }
  }

  /** Every tag an upload creates, record by record; record k becomes document firstDoc + k. */
  function ImportAll(cats: map<string, Category>, tags: seq<Tag>, recs: seq<Record>, user: User,
                     firstDoc: DocId, firstTag: TagId): (r: seq<Tag>)
  {
    if |recs| == 0 then []
    else
      var prior := ImportAll(cats, tags, recs[..|recs| - 1], user, firstDoc, firstTag);
      prior + ImportEntities(cats, tags + prior, firstDoc + |recs| - 1, recs[|recs| - 1].entities, user,
                             firstTag + |prior|)
  }

  lemma {:induction false} ImportableSnoc(ds: seq<Option<Record>>, i: nat)
    requires i < |ds|
    ensures Importable(ds[..i + 1]) == Importable(ds[..i]) + (if ds[i].Some? then [ds[i].value] else [])
  {
    assert ds[..i + 1][..i] == ds[..i];
  }

  lemma {:induction false} ImportAllSnoc(cats: map<string, Category>, tags: seq<Tag>, recs: seq<Record>, rec: Record, user: User,
                      firstDoc: DocId, firstTag: TagId)
    ensures ImportAll(cats, tags, recs + [rec], user, firstDoc, firstTag) ==
            ImportAll(cats, tags, recs, user, firstDoc, firstTag) +
            ImportEntities(cats, tags + ImportAll(cats, tags, recs, user, firstDoc, firstTag), firstDoc + |recs|,
                           rec.entities, user, firstTag + |ImportAll(cats, tags, recs, user, firstDoc, firstTag)|)
  {
    var all := recs + [rec];
    assert all[..|all| - 1] == recs;
    assert all[|all| - 1] == rec;
  }

  lemma {:induction false} AddDocumentsSnoc(docs: map<DocId, Document>, recs: seq<Record>, rec: Record, user: User,
                                            firstDoc: DocId)
    ensures AddDocuments(docs, recs + [rec], user, firstDoc) ==
            AddDocuments(docs, recs, user, firstDoc)[firstDoc + |recs| := DocumentFromRecord(rec, user)]
  {
    assert (recs + [rec])[..|recs|] == recs;
  }

  lemma {:induction false} AppendAssoc<T>(a: seq<T>, b: seq<T>, c: seq<T>)
    ensures (a + b) + c == a + (b + c)
  {
  }

  /** One imported record takes the tags created so far by an upload one record further. */
  lemma {:induction false} UploadTagsStep(cats: map<string, Category>, tags0: seq<Tag>, recs: seq<Record>, rec: Record,
                                          user: User, nextDoc0: DocId, nextTag0: TagId, created: seq<Tag>,
                                          tagsBefore: seq<Tag>, docBefore: DocId, tagBefore: TagId, added: seq<Tag>)
    requires created == ImportAll(cats, tags0, recs, user, nextDoc0, nextTag0)
    requires tagsBefore == tags0 + created && docBefore == nextDoc0 + |recs| && tagBefore == nextTag0 + |created|
    requires added == ImportEntities(cats, tagsBefore, docBefore, rec.entities, user, tagBefore)
    ensures ImportAll(cats, tags0, recs + [rec], user, nextDoc0, nextTag0) == created + added
    ensures tagsBefore + added == tags0 + (created + added)
  {
    ImportAllSnoc(cats, tags0, recs, rec, user, nextDoc0, nextTag0);
    AppendAssoc(tags0, created, added);
  }

  /** Every tag of ts names a document in [lo, hi). */
  ghost predicate DocsIn(ts: seq<Tag>, lo: int, hi: int)
  {
    forall i :: 0 <= i < |ts| ==> lo <= ts[i].document < hi
  }

  lemma {:induction false} DocsInAppend(a: seq<Tag>, b: seq<Tag>, lo: int, mid: int, hi: int)
    requires DocsIn(a, lo, mid) && DocsIn(b, mid, hi) && lo <= mid <= hi
    ensures DocsIn(a + b, lo, hi)
  {
    forall i | 0 <= i < |a + b| ensures lo <= (a + b)[i].document < hi {
      if i < |a| {
        assert (a + b)[i] == a[i];
      } else {
        assert (a + b)[i] == b[i - |a|];
      }
    }
  }

  lemma {:induction false} ImportEntitiesDocs(cats: map<string, Category>, tags: seq<Tag>, doc: DocId, entities: seq<Fields>,
                                              user: User, firstId: TagId)
    ensures DocsIn(ImportEntities(cats, tags, doc, entities, user, firstId), doc, doc + 1)
  {
    ImportEntitiesIds(cats, tags, doc, entities, user, firstId);
  }

  /** Every tag an upload creates belongs to one of the upload's new documents. */
  lemma {:induction false} ImportAllDocs(cats: map<string, Category>, tags: seq<Tag>, recs: seq<Record>, user: User,
                                         firstDoc: DocId, firstTag: TagId)
    ensures DocsIn(ImportAll(cats, tags, recs, user, firstDoc, firstTag), firstDoc, firstDoc + |recs|)
  {
    if |recs| > 0 {
      var init := recs[..|recs| - 1];
      ImportAllDocs(cats, tags, init, user, firstDoc, firstTag);
      var prior := ImportAll(cats, tags, init, user, firstDoc, firstTag);
      var d := firstDoc + |recs| - 1;
      ImportEntitiesDocs(cats, tags + prior, d, recs[|recs| - 1].entities, user, firstTag + |prior|);
      DocsInAppend(prior, ImportEntities(cats, tags + prior, d, recs[|recs| - 1].entities, user, firstTag + |prior|),
                   firstDoc, d, d + 1);
    }
  }

  /** Appending tags of other documents leaves a document's tags as they were. */
  lemma {:induction false} TagsOfAppendOthers(a: seq<Tag>, b: seq<Tag>, doc: DocId)
    requires forall i :: 0 <= i < |b| ==> b[i].document != doc
    ensures TagsOf(a + b, doc) == TagsOf(a, doc)
  {
    TagsOfAppend(a, b, doc);
    TagsOfNone(b, doc);
  }

  /**
   * The store after the first records of an upload: their documents and
   * tags added on top of the store the upload started from.
   */
  ghost predicate Uploaded(store: Store, cats: map<string, Category>, docs0: map<DocId, Document>, tags0: seq<Tag>,
                           nextDoc0: DocId, nextTag0: TagId, user: User, recs: seq<Record>, created: seq<Tag>)
    reads store
  {
    store.Valid() && store.categories == cats &&
    created == ImportAll(cats, tags0, recs, user, nextDoc0, nextTag0) &&
    store.docs == AddDocuments(docs0, recs, user, nextDoc0) && store.nextDocId == nextDoc0 + |recs| &&
    store.tags == tags0 + created && store.nextTagId == nextTag0 + |created|
  }

  /** The upload so far, one record further, from the store that record's import left. */
  lemma {:induction false} UploadedSnoc(store: Store, cats: map<string, Category>, docs0: map<DocId, Document>,
                                        tags0: seq<Tag>, nextDoc0: DocId, nextTag0: TagId, user: User, recs: seq<Record>,
                                        created: seq<Tag>, rec: Record, docsBefore: map<DocId, Document>,
                                        tagsBefore: seq<Tag>, docBefore: DocId, tagBefore: TagId, added: seq<Tag>)
    requires created == ImportAll(cats, tags0, recs, user, nextDoc0, nextTag0)
    requires docsBefore == AddDocuments(docs0, recs, user, nextDoc0)
    requires tagsBefore == tags0 + created && docBefore == nextDoc0 + |recs| && tagBefore == nextTag0 + |created|
    requires added == ImportEntities(cats, tagsBefore, docBefore, rec.entities, user, tagBefore)
    requires store.Valid() && store.categories == cats
    requires store.docs == docsBefore[docBefore := DocumentFromRecord(rec, user)] && store.nextDocId == docBefore + 1
    requires store.tags == tagsBefore + added && store.nextTagId == tagBefore + |added|
    ensures Uploaded(store, cats, docs0, tags0, nextDoc0, nextTag0, user, recs + [rec], created + added)
  {
    UploadTagsStep(cats, tags0, recs, rec, user, nextDoc0, nextTag0, created, tagsBefore, docBefore, tagBefore, added);
    AddDocumentsSnoc(docs0, recs, rec, user, nextDoc0);
  }

  /**
   * One record of an upload on top of the records imported before it: the
   * documents and tags of the upload so far grow by those of this record.
   */
  method UploadRecord(store: Store, rec: Record, user: User, ghost cats: map<string, Category>,
                      ghost docs0: map<DocId, Document>, ghost tags0: seq<Tag>, ghost nextDoc0: DocId,
                      ghost nextTag0: TagId, ghost recs: seq<Record>, ghost created: seq<Tag>)
    returns (tagsCount: nat, ghost added: seq<Tag>)
    requires Uploaded(store, cats, docs0, tags0, nextDoc0, nextTag0, user, recs, created)
    modifies store`docs, store`nextDocId, store`tags, store`nextTagId
    ensures Uploaded(store, cats, docs0, tags0, nextDoc0, nextTag0, user, recs + [rec], created + added)
    ensures tagsCount == |added|
  {
    ghost var tagsBefore, docBefore, tagBefore := store.tags, store.nextDocId, store.nextTagId;
    added := ImportEntities(store.categories, store.tags, store.nextDocId, rec.entities, user, store.nextTagId);
    ghost var docsBefore := store.docs;
    var document;
    document, tagsCount := CreateDocumentFromJson(store, rec, user);
    UploadedSnoc(store, cats, docs0, tags0, nextDoc0, nextTag0, user, recs, created, rec, docsBefore, tagsBefore,
                 docBefore, tagBefore, added);
  }

  /** The upload loop over what the lines of a file yielded. */
  method UploadLines(store: Store, ds: seq<Option<Record>>, user: User) returns (createdCount: nat, totalTags: nat)
    requires store.Valid()
    modifies store`docs, store`nextDocId, store`tags, store`nextTagId
    ensures createdCount == |Importable(ds)|
    ensures store.nextDocId == old(store.nextDocId) + createdCount
    ensures store.docs == AddDocuments(old(store.docs), Importable(ds), user, old(store.nextDocId))
    ensures store.tags == old(store.tags) + ImportAll(old(store.categories), old(store.tags), Importable(ds),
                                                      user, old(store.nextDocId), old(store.nextTagId))
    ensures totalTags == |store.tags| - |old(store.tags)|
    ensures store.categories == old(store.categories)
    ensures store.Valid()
  {
    ghost var docs0, tags0, nextDoc0, nextTag0 := store.docs, store.tags, store.nextDocId, store.nextTagId;
    ghost var cats := store.categories;
    ghost var recs: seq<Record> := [];
    ghost var created: seq<Tag> := [];
    createdCount := 0;
    totalTags := 0;
    for i := 0 to |ds|
      invariant recs == Importable(ds[..i])
      invariant Uploaded(store, cats, docs0, tags0, nextDoc0, nextTag0, user, recs, created)
      invariant createdCount == |recs| && totalTags == |created|
    {
      ImportableSnoc(ds, i);
      if ds[i].Some? {
        var tagsCount, added := UploadRecord(store, ds[i].value, user, cats, docs0, tags0, nextDoc0, nextTag0, recs, created);
        recs := recs + [ds[i].value];
        created := created + added;
        createdCount := createdCount + 1;
        totalTags := totalTags + tagsCount;
      }
    }
    assert ds[..|ds|] == ds;
  }

  /**
   * process_jsonl_upload: every non-blank line that decodes becomes a
   * document with its tags; returns how many documents and tags were created.
   */
  method ProcessJsonlUpload(store: Store, fileContent: string, user: User, parse: string -> Option<Record>)
    returns (createdCount: nat, totalTags: nat)
    requires store.Valid()
    modifies store`docs, store`nextDocId, store`tags, store`nextTagId
    ensures var recs := ImportableRecords(Split(Strip(fileContent), '\n'), parse);
            createdCount == |recs| && store.nextDocId == old(store.nextDocId) + createdCount &&
            store.docs == AddDocuments(old(store.docs), recs, user, old(store.nextDocId))
    ensures var recs := ImportableRecords(Split(Strip(fileContent), '\n'), parse);
            store.tags == old(store.tags) + ImportAll(old(store.categories), old(store.tags), recs, user,
                                                      old(store.nextDocId), old(store.nextTagId))
    ensures totalTags == |store.tags| - |old(store.tags)|
    ensures store.categories == old(store.categories)
    ensures store.Valid()
  {
    var lines := Split(Strip(fileContent), '\n');
    createdCount, totalTags := UploadLines(store, DecodeLines(lines, parse), user);
  }

  // ---------------------------------------------------------------------------
  // Export: generate_jsonl_data
  // ---------------------------------------------------------------------------

  /** One tag as an entry of the exported `entities` array. */
  function ExportEntityOf(t: Tag): (e: ExportEntity)
    ensures e.spanText == t.spanText && e.entityType == t.category
    ensures e.startOffset == t.startOffset && e.endOffset == t.endOffset
    ensures e.spanId == t.spanId && e.entityId == t.entityId
    ensures e.annotator == t.annotator && e.identifierType == t.identifierType
  {
    ExportEntity(t.spanText, t.category, t.startOffset, t.endOffset, t.spanId, t.entityId, t.annotator,
                 t.identifierType)
  }

  function ExportEntities(tags: seq<Tag>): (r: seq<ExportEntity>)
    ensures |r| == |tags|
    ensures forall k :: 0 <= k < |tags| ==> r[k] == ExportEntityOf(tags[k])
  {
    if |tags| == 0 then [] else ExportEntities(tags[..|tags| - 1]) + [ExportEntityOf(tags[|tags| - 1])]
  }

  /** The export record of document `d`: numeric fields parsed back, the rest copied. */
  function ExportRecordOf(doc: Document, d: DocId, tags: seq<Tag>): ExportRecord {
    ExportRecord(VStr(doc.dataId), VInt(ParseNumericField(VStr(doc.numberOfSubjects))), VStr(doc.dialogType),
                 VInt(ParseNumericField(VStr(doc.turnCnt))), VStr(doc.docId), doc.text, ExportEntities(TagsOf(tags, d)))
  }

  /**
   * An imported record exports back with the same text, its data_id and
   * doc_id as text, a non-negative integer number_of_subjects and turn_cnt
   * as the same integer, and one entry per tag of the document. When the
   * document's tags are those its entities created and every entity was
   * stored, the entries are the entities again, in order: category, text,
   * offsets, the ids they gave, annotator and identifier_type.
   */
  lemma {:induction false} ImportExportRoundTrip(rec: Record, user: User, d: DocId, tags: seq<Tag>,
                                                 cats: map<string, Category>, prior: seq<Tag>, firstId: TagId)
    ensures var e := ExportRecordOf(DocumentFromRecord(rec, user), d, tags);
            e.text == rec.text &&
            (Get(rec.metadata, "data_id", VNone).VStr? ==> e.dataId == Get(rec.metadata, "data_id", VNone)) &&
            (Get(rec.metadata, "data_id", VNone).VNone? ==> e.dataId == VStr("")) &&
            (Get(rec.provenance, "doc_id", VNone).VStr? ==> e.docId == Get(rec.provenance, "doc_id", VNone)) &&
            (Get(rec.provenance, "dialog_type", VNone).VStr? ==>
               e.dialogType == Get(rec.provenance, "dialog_type", VNone))
    ensures var e := ExportRecordOf(DocumentFromRecord(rec, user), d, tags);
            forall n: nat :: Get(rec.metadata, "number_of_subjects", VStr("")) == VInt(n) ==> e.numberOfSubjects == VInt(n)
    ensures var e := ExportRecordOf(DocumentFromRecord(rec, user), d, tags);
            forall n: nat :: Get(rec.provenance, "turn_cnt", VStr("")) == VInt(n) ==> e.turnCnt == VInt(n)
    ensures |ExportRecordOf(DocumentFromRecord(rec, user), d, tags).entities| == |TagsOf(tags, d)|
    ensures var e := ExportRecordOf(DocumentFromRecord(rec, user), d, tags);
            TagsOf(tags, d) == ImportEntities(cats, prior, d, rec.entities, user, firstId) &&
            (forall k :: 0 <= k < |rec.entities| ==> DecodeEntity(cats, rec.entities[k]).Some?) ==>
              |e.entities| == |rec.entities| &&
              forall k :: 0 <= k < |rec.entities| ==> ExportedEntity(e.entities[k], rec.entities[k])
  {
    forall n: nat ensures ParseNumericField(VStr(PyStr(VInt(n)))) == n {
      NumericFieldRoundTrip(n, 0);
    }
    if TagsOf(tags, d) == ImportEntities(cats, prior, d, rec.entities, user, firstId) &&
       (forall k :: 0 <= k < |rec.entities| ==> DecodeEntity(cats, rec.entities[k]).Some?) {
      ImportExportEntities(rec, d, tags, cats, prior, user, firstId);
    }
  }

  /** The entity half of the round trip, for a document whose entities were all stored. */
  lemma {:induction false} ImportExportEntities(rec: Record, d: DocId, tags: seq<Tag>, cats: map<string, Category>,
                                                prior: seq<Tag>, user: User, firstId: TagId)
    requires TagsOf(tags, d) == ImportEntities(cats, prior, d, rec.entities, user, firstId)
    requires forall k :: 0 <= k < |rec.entities| ==> DecodeEntity(cats, rec.entities[k]).Some?
    ensures var xs := ExportEntities(TagsOf(tags, d));
            |xs| == |rec.entities| && forall k :: 0 <= k < |rec.entities| ==> ExportedEntity(xs[k], rec.entities[k])
  {
    var fs := DecodeEntities(cats, rec.entities);
    PlaceEntitiesStored(prior, d, fs, user, firstId);
    var xs := ExportEntities(TagsOf(tags, d));
    forall k | 0 <= k < |rec.entities| ensures ExportedEntity(xs[k], rec.entities[k]) {
      EntityExported(TagsOf(tags, d)[k], rec.entities[k], cats);
    }
  }

  /** A tag carrying an entity's decoded fields exports as an entry that gives the entity back. */
  lemma {:induction false} EntityExported(t: Tag, entity: Fields, cats: map<string, Category>)
    requires DecodeEntity(cats, entity).Some? && SameEntityFields(t, DecodeEntity(cats, entity).value)
    ensures ExportedEntity(ExportEntityOf(t), entity)
  {
  }

  /**
   * Export entry `x` gives back entity `entity`: its category, text and
   * offsets as read on import, the span_id and entity_id it gave, and its
   * annotator and identifier_type or their defaults.
   */
  predicate ExportedEntity(x: ExportEntity, entity: Fields) {
    Some(x.entityType) == CategoryKey(Get(entity, "entity_type", VNone)) &&
    x.spanText == PyStr(Get(entity, "span_text", VStr(""))) &&
    Some(x.startOffset) == PyInt(Get(entity, "start_offset", VInt(0))) &&
    Some(x.endOffset) == PyInt(Get(entity, "end_offset", VInt(0))) &&
    (OrDefault(entity, "span_id", "") != "" ==> x.spanId == OrDefault(entity, "span_id", "")) &&
    (OrDefault(entity, "entity_id", "") != "" ==> x.entityId == OrDefault(entity, "entity_id", "")) &&
    x.annotator == OrDefault(entity, "annotator", "Anonymous") &&
    x.identifierType == OrDefault(entity, "identifier_type", "default")
  }

  /** The lines generate_jsonl_data joins: one encoded record per document, in the given order. */
  function ExportLines(docs: map<DocId, Document>, tags: seq<Tag>, documents: seq<DocId>,
                       dumps: ExportRecord -> string): (r: seq<string>)
    requires forall k :: 0 <= k < |documents| ==> documents[k] in docs
    ensures |r| == |documents|
    ensures forall k :: 0 <= k < |documents| ==>
              r[k] == dumps(ExportRecordOf(docs[documents[k]], documents[k], tags))
  {
    if |documents| == 0 then []
    else
      var init := documents[..|documents| - 1];
      assert forall k :: 0 <= k < |init| ==> init[k] == documents[k];
      ExportLines(docs, tags, init, dumps) +
        [dumps(ExportRecordOf(docs[documents[|documents| - 1]], documents[|documents| - 1], tags))]
  }

  /** The inner loop of generate_jsonl_data: one export entry per tag, in order. */
  method BuildEntities(piiTags: seq<Tag>) returns (entities: seq<ExportEntity>)
    ensures entities == ExportEntities(piiTags)
  {
    entities := [];
    for j := 0 to |piiTags|
      invariant entities == ExportEntities(piiTags[..j])
    {
      assert piiTags[..j + 1][..j] == piiTags[..j];
      entities := entities + [ExportEntityOf(piiTags[j])];
    }
    assert piiTags[..|piiTags|] == piiTags;
  }

  /** generate_jsonl_data: the documents' records, encoded and joined by newlines. */
  method GenerateJsonlData(store: Store, documents: seq<DocId>, dumps: ExportRecord -> string) returns (out: string)
    requires forall k :: 0 <= k < |documents| ==> documents[k] in store.docs
    ensures out == Join(ExportLines(store.docs, store.tags, documents, dumps), "\n")
    ensures documents == [] ==> out == ""
    ensures |documents| > 0 && (forall r: ExportRecord :: '\n' !in dumps(r)) ==>
              Split(out, '\n') == ExportLines(store.docs, store.tags, documents, dumps)
  {
    var jsonlLines: seq<string> := [];
    for i := 0 to |documents|
      invariant jsonlLines == ExportLines(store.docs, store.tags, documents[..i], dumps)
    {
      var document := documents[i];
      var piiTags := TagsOf(store.tags, document);
      var entities := BuildEntities(piiTags);
      var doc := store.docs[document];
      var jsonObj := ExportRecord(VStr(doc.dataId), VInt(ParseNumericField(VStr(doc.numberOfSubjects))),
                                  VStr(doc.dialogType), VInt(ParseNumericField(VStr(doc.turnCnt))), VStr(doc.docId), doc.text, entities);
      assert documents[..i + 1][..i] == documents[..i];
      jsonlLines := jsonlLines + [dumps(jsonObj)];
    }
    assert documents[..|documents|] == documents;
    out := Join(jsonlLines, "\n");
    if |documents| > 0 && (forall r: ExportRecord :: '\n' !in dumps(r)) {
      SplitJoin(jsonlLines, '\n');
    }
  }

  // ---------------------------------------------------------------------------
  // get_navigation_documents
  // ---------------------------------------------------------------------------

  ghost predicate StrictlyIncreasing(ids: seq<DocId>) {
    forall i, j :: 0 <= i < j < |ids| ==> ids[i] < ids[j]
  }

  /** The store's document ids below `bound`, ascending: the `order_by('id')` list. */
  function DocIdsInOrder(docs: map<DocId, Document>, bound: nat): (r: seq<DocId>)
    ensures forall x :: x in r <==> x in docs && x < bound
    ensures forall k :: 0 <= k < |r| ==> r[k] < bound
    ensures StrictlyIncreasing(r)
  {
    if bound == 0 then []
    else
      var init := DocIdsInOrder(docs, bound - 1);
      if bound - 1 in docs then init + [bound - 1] else init
  }

  /** The first position of `x` in `ids`. */
  function IndexOfId(ids: seq<DocId>, x: int): (r: Option<nat>)
    ensures r.Some? ==> r.value < |ids| && ids[r.value] == x
    ensures r.None? ==> x !in ids
  {
    if |ids| == 0 then None
    else if ids[0] == x then Some(0)
    else match IndexOfId(ids[1..], x)
      case None => None
      case Some(k) => Some(k + 1)
  }

  /**
   * get_navigation_documents over the id-ordered list: the neighbours of
   * `pk` in the list, or neither when `pk` is not a document.
   */
  function NavigationDocuments(ids: seq<DocId>, pk: int): (r: (Option<DocId>, Option<DocId>))
    requires StrictlyIncreasing(ids)
    ensures pk !in ids ==> r == (None, None)
    ensures pk in ids ==>
              (r.0.None? <==> forall x :: x in ids ==> pk <= x) &&
              (r.0.Some? ==> r.0.value in ids && r.0.value < pk && forall x :: x in ids && x < pk ==> x <= r.0.value)
    ensures pk in ids ==>
              (r.1.None? <==> forall x :: x in ids ==> x <= pk) &&
              (r.1.Some? ==> r.1.value in ids && pk < r.1.value && forall x :: x in ids && pk < x ==> r.1.value <= x)
  {
    match IndexOfId(ids, pk)
    case None => (None, None)
    case Some(i) =>
      NeighbourFacts(ids, i);
      (if i > 0 then Some(ids[i - 1]) else None, if i < |ids| - 1 then Some(ids[i + 1]) else None)
  }

  lemma {:induction false} NeighbourFacts(ids: seq<DocId>, i: nat)
    requires StrictlyIncreasing(ids) && i < |ids|
    ensures forall x :: x in ids && x < ids[i] ==> i > 0 && x <= ids[i - 1]
    ensures forall x :: x in ids && ids[i] < x ==> i < |ids| - 1 && ids[i + 1] <= x
    ensures i > 0 ==> ids[i - 1] in ids && ids[i - 1] < ids[i]
    ensures i < |ids| - 1 ==> ids[i + 1] in ids && ids[i] < ids[i + 1]
  {
    forall x | x in ids && x < ids[i] ensures i > 0 && x <= ids[i - 1] {
      var j :| 0 <= j < |ids| && ids[j] == x;
    }
    forall x | x in ids && ids[i] < x ensures i < |ids| - 1 && ids[i + 1] <= x {
      var j :| 0 <= j < |ids| && ids[j] == x;
    }
  }
}
