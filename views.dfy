/**
 * The older view layer: the same store operations as the service layer, but
 * with its own rules. Tags are added with a duplicate check on the offsets
 * alone and `count + 1` numbering; updates overwrite entity_id; deletions
 * check no ownership; the upload stops at the first failing line and keeps
 * what it already created; the download copies the stored fields unchanged.
 */
module Views {
  import opened PyBuiltins
  import opened Model
  import Services
  import Utils

  /** Why a view reports failure. */
  datatype ViewFailure =
    | NotAnInteger
    | DocumentNotFound
    | CategoryNotFound
    | DuplicateTag
    | TagNotFound
    | NotStored
    | CategoryUnbound
    | NotJsonl
    | ImportFailed

  /** The `success` flag of a view's reply, with the reason when it is false. */
  datatype Reply = Ok | Error(failure: ViewFailure)

  datatype Answer<T> = Created(value: T) | Refused(failure: ViewFailure)

  /** A submitted form: every value is text. */
  type Form = map<string, string>

  /** `int(request.POST.get(key, 0))`: None where `int()` raises. */
  function FormInt(form: Form, key: string): Option<int> {
    if key in form then ParseInt(form[key]) else Some(0)
  }

  /**
   * The row a primary-key lookup `id=request.POST.get(key)` finds: none
   * when the form lacks the key or its value is no integer a row id can be.
   */
  function FormRow(form: Form, key: string): (r: Option<nat>)
    ensures r.Some? <==> key in form && ParseInt(form[key]).Some? && ParseInt(form[key]).value >= 0
    ensures r.Some? ==> r.value == ParseInt(form[key]).value
  {
    if key in form then Services.DocKey(VStr(form[key])) else None
  }

  /** `s or fallback` for text. */
  function OrElse(s: string, fallback: string): (r: string)
    ensures fallback != "" ==> r != ""
  {
    if s == "" then fallback else s
  }

  // ---------------------------------------------------------------------------
  // add_pii_tag
  // ---------------------------------------------------------------------------

  /**
   * The request carries integer offsets, names an existing document and
   * category and a span text, and no tag of that document has the same
   * offsets, whatever its category.
   */
  predicate AddAccepted(docs: map<DocId, Document>, cats: map<string, Category>, tags: seq<Tag>, form: Form) {
    var start := FormInt(form, "start_offset");
    var end := FormInt(form, "end_offset");
    var doc := FormRow(form, "document_id");
    start.Some? && end.Some? && doc.Some? && doc.value in docs &&
    "pii_category_value" in form && form["pii_category_value"] in cats &&
    !HasTagAt(tags, doc.value, start.value, end.value) && "span_text" in form
  }

  /** The outcome of add_pii_tag on a store, with `id` the id the new row would get. */
  function AddDecision(docs: map<DocId, Document>, cats: map<string, Category>, tags: seq<Tag>,
                       form: Form, user: User, id: TagId): Answer<Tag>
  {
    var start := FormInt(form, "start_offset");
    var end := FormInt(form, "end_offset");
    if start.None? || end.None? then Refused(NotAnInteger)
    else
      match FormRow(form, "document_id")
      case None => Refused(DocumentNotFound)
      case Some(doc) =>
        if doc !in docs then Refused(DocumentNotFound)
        else if "pii_category_value" !in form || form["pii_category_value"] !in cats then Refused(CategoryNotFound)
        else if HasTagAt(tags, doc, start.value, end.value) then Refused(DuplicateTag)
        else if "span_text" !in form then Refused(NotStored)
        else
          var spanId := OrElse(Get(form, "span_id", ""), IntToString(|TagsOf(tags, doc)| + 1));
          Created(Tag(id, doc, form["pii_category_value"], form["span_text"], start.value, end.value, spanId,
                      OrElse(Get(form, "entity_id", ""), spanId),
                      OrElse(Get(form, "annotator", "Anonymous"), "Anonymous"),
                      OrElse(Get(form, "identifier_type", "default"), "default"),
                      user.id))
  }

  /**
   * What add_pii_tag promises: a tag is added exactly when the request is
   * accepted; a tag of the document at the same offsets blocks it whatever
   * its category; the new tag carries the request's values, the span_id
   * defaults to one more than the number of the document's tags, the
   * entity_id to the span_id, and an empty annotator or identifier_type to
   * "Anonymous" or "default".
   */
  lemma {:induction false} AddDecisionSpec(docs: map<DocId, Document>, cats: map<string, Category>, tags: seq<Tag>,
                        form: Form, user: User, id: TagId)
    ensures AddDecision(docs, cats, tags, form, user, id).Created? <==> AddAccepted(docs, cats, tags, form)
    ensures AddDecision(docs, cats, tags, form, user, id) == Refused(DuplicateTag) <==>
              FormInt(form, "start_offset").Some? && FormInt(form, "end_offset").Some? &&
              FormRow(form, "document_id").Some? && FormRow(form, "document_id").value in docs &&
              "pii_category_value" in form && form["pii_category_value"] in cats &&
              HasTagAt(tags, FormRow(form, "document_id").value,
                       FormInt(form, "start_offset").value, FormInt(form, "end_offset").value)
    ensures var r := AddDecision(docs, cats, tags, form, user, id);
            r.Created? ==>
              var t := r.value;
              t.id == id && t.createdBy == user.id && t.document in docs && t.category in cats &&
              Some(t.document) == FormRow(form, "document_id") && t.category == form["pii_category_value"] &&
              t.spanText == form["span_text"] &&
              Some(t.startOffset) == FormInt(form, "start_offset") && Some(t.endOffset) == FormInt(form, "end_offset") &&
              t.spanId != "" && t.entityId != "" && t.annotator != "" && t.identifierType != ""
    ensures var r := AddDecision(docs, cats, tags, form, user, id);
            r.Created? ==>
              (Get(form, "span_id", "") == "" ==> r.value.spanId == IntToString(|TagsOf(tags, r.value.document)| + 1)) &&
              (Get(form, "span_id", "") != "" ==> r.value.spanId == form["span_id"]) &&
              (Get(form, "entity_id", "") == "" ==> r.value.entityId == r.value.spanId) &&
              (Get(form, "entity_id", "") != "" ==> r.value.entityId == form["entity_id"])
    ensures var r := AddDecision(docs, cats, tags, form, user, id);
            r.Created? ==>
              (Get(form, "annotator", "") == "" ==> r.value.annotator == "Anonymous") &&
              (Get(form, "annotator", "") != "" ==> r.value.annotator == form["annotator"]) &&
              (Get(form, "identifier_type", "") == "" ==> r.value.identifierType == "default") &&
              (Get(form, "identifier_type", "") != "" ==> r.value.identifierType == form["identifier_type"])
  {
  }

  /**
   * The `count + 1` default can repeat an id already in use: after the
   * document's first tag was deleted, its remaining tag "2" is matched by
   * the default for the next tag.
   */
  lemma {:induction false} DefaultSpanIdCanRepeat(docs: map<DocId, Document>, cats: map<string, Category>, user: User)
    requires 0 in docs && "NAME" in cats
    ensures var kept := Tag(1, 0, "NAME", "b", 1, 2, "2", "2", "Anonymous", "default", 0);
            var form := map["document_id" := "0", "pii_category_value" := "NAME", "span_text" := "a"];
            var r := AddDecision(docs, cats, [kept], form, user, 2);
            r.Created? && r.value.spanId == kept.spanId && r.value.entityId == kept.entityId
  {
    var kept := Tag(1, 0, "NAME", "b", 1, 2, "2", "2", "Anonymous", "default", 0);
    var form := map["document_id" := "0", "pii_category_value" := "NAME", "span_text" := "a"];
    WitnessForm(form);
    assert !HasTagAt([kept], 0, 0, 0);
    assert TagsOf([kept], 0) == [kept];
    assert IntToString(2) == "2";
  }

  lemma {:induction false} WitnessForm(form: Form)
    requires form == map["document_id" := "0", "pii_category_value" := "NAME", "span_text" := "a"]
    ensures FormRow(form, "document_id") == Some(0)
    ensures FormInt(form, "start_offset") == Some(0) && FormInt(form, "end_offset") == Some(0)
    ensures "pii_category_value" in form && form["pii_category_value"] == "NAME" && "span_text" in form
    ensures Get(form, "span_id", "") == "" && Get(form, "entity_id", "") == ""
  {
    ParseDigits("0");
  }

  /** add_pii_tag's checks and defaults, in its order: offsets, document, category, duplicate, then the ids. */
  method ResolveAddTag(docs: map<DocId, Document>, cats: map<string, Category>, tags: seq<Tag>,
                       nextTagId: TagId, form: Form, user: User) returns (result: Answer<Tag>)
    ensures result == AddDecision(docs, cats, tags, form, user, nextTagId)
  {
    var startOffset := FormInt(form, "start_offset");
    var endOffset := FormInt(form, "end_offset");
    if startOffset.None? || endOffset.None? {
      return Refused(NotAnInteger);
    }
    var spanId := Get(form, "span_id", "");
    var entityId := Get(form, "entity_id", "");
    var annotator := Get(form, "annotator", "Anonymous");
    var identifierType := Get(form, "identifier_type", "default");
    var document := FormRow(form, "document_id");
    if document.None? || document.value !in docs {
      return Refused(DocumentNotFound);
    }
    if "pii_category_value" !in form || form["pii_category_value"] !in cats {
      return Refused(CategoryNotFound);
    }
    if HasTagAt(tags, document.value, startOffset.value, endOffset.value) {
      return Refused(DuplicateTag);
    }
    if spanId == "" {
      spanId := IntToString(|TagsOf(tags, document.value)| + 1);
    }
    if entityId == "" {
      entityId := spanId;
    }
    if "span_text" !in form {
      return Refused(NotStored);
    }
    return Created(Tag(nextTagId, document.value, form["pii_category_value"], form["span_text"],
                       startOffset.value, endOffset.value, spanId, entityId,
                       OrElse(annotator, "Anonymous"), OrElse(identifierType, "default"), user.id));
  }

  /** add_pii_tag: on success the store gains exactly the new tag; any owner's document may be tagged. */
  method AddPiiTag(store: Store, form: Form, user: User) returns (result: Answer<Tag>)
    requires store.Valid()
    modifies store`tags, store`nextTagId
    ensures result == AddDecision(old(store.docs), old(store.categories), old(store.tags), form, user,
                                  old(store.nextTagId))
    ensures result.Created? ==> store.tags == old(store.tags) + [result.value] &&
                                store.nextTagId == old(store.nextTagId) + 1
    ensures result.Refused? ==> store.tags == old(store.tags) && store.nextTagId == old(store.nextTagId)
    ensures store.docs == old(store.docs) && store.categories == old(store.categories) &&
            store.nextDocId == old(store.nextDocId)
    ensures store.Valid()
  {
    result := ResolveAddTag(store.docs, store.categories, store.tags, store.nextTagId, form, user);
    if result.Created? {
      AddDecisionSpec(store.docs, store.categories, store.tags, form, user, store.nextTagId);
      TagsWellFormedAppend(store.tags, store.docs.Keys, store.categories.Keys, store.nextTagId, result.value);
      store.tags := store.tags + [result.value];
      store.nextTagId := store.nextTagId + 1;
    }
  }

  // ---------------------------------------------------------------------------
  // update_pii_tag, delete_pii_tag, delete_document, bulk_delete_documents
  // ---------------------------------------------------------------------------

  /** The position of the tag named by the form's `tag_id`, if there is one. */
  function TagIndex(tags: seq<Tag>, form: Form): (r: Option<nat>)
    ensures r.Some? ==> r.value < |tags|
  {
    match FormRow(form, "tag_id")
    case None => None
    case Some(id) => IndexOfTag(tags, id)
  }

  /** What update_pii_tag saves, if anything, and what it replies. */
  datatype UpdateResult = UpdateResult(saved: Option<Tag>, reply: Reply)

  function UpdateDecision(cats: map<string, Category>, tags: seq<Tag>, form: Form, user: User): UpdateResult {
    match TagIndex(tags, form)
    case None => UpdateResult(None, Error(TagNotFound))
    case Some(k) =>
      var categoryValue := Get(form, "pii_category_value", "");
      if categoryValue != "" && categoryValue !in cats then UpdateResult(None, Error(CategoryNotFound))
      else
        var tag := tags[k];
        var saved := tag.(category := if categoryValue != "" then categoryValue else tag.category,
                          identifierType := OrElse(Get(form, "identifier_type", "default"), "default"),
                          entityId := Get(form, "entity_id", ""),
                          annotator := user.username);
        UpdateResult(Some(saved), if categoryValue != "" then Ok else Error(CategoryUnbound))
  }

  /**
   * What update_pii_tag promises: any user may update any tag; nothing is
   * saved when the tag is missing or a given category is unknown;
   * otherwise the category changes only when one is given, entity_id takes
   * the submitted value even when it is empty, identifier_type falls back to
   * "default", the annotator becomes the acting user; and the reply reports
   * failure when no category was given even though the tag was saved.
   */
  lemma {:induction false} UpdateDecisionSpec(cats: map<string, Category>, tags: seq<Tag>, form: Form, user: User)
    ensures var r := UpdateDecision(cats, tags, form, user);
            r.saved.None? <==>
              TagIndex(tags, form).None? ||
              (Get(form, "pii_category_value", "") != "" && Get(form, "pii_category_value", "") !in cats)
    ensures var r := UpdateDecision(cats, tags, form, user);
            (r.reply == Ok <==> r.saved.Some? && Get(form, "pii_category_value", "") != "") &&
            (r.saved.Some? && Get(form, "pii_category_value", "") == "" ==> r.reply == Error(CategoryUnbound)) &&
            (r.saved.None? && TagIndex(tags, form).None? ==> r.reply == Error(TagNotFound)) &&
            (r.saved.None? && TagIndex(tags, form).Some? ==> r.reply == Error(CategoryNotFound))
    ensures var r := UpdateDecision(cats, tags, form, user);
            r.saved.Some? ==>
              var before := tags[TagIndex(tags, form).value];
              var t := r.saved.value;
              t.id == before.id && t.document == before.document && t.spanText == before.spanText &&
              t.startOffset == before.startOffset && t.endOffset == before.endOffset &&
              t.spanId == before.spanId && t.createdBy == before.createdBy &&
              t.annotator == user.username && t.category in cats.Keys + {before.category} &&
              t.entityId == Get(form, "entity_id", "") && t.identifierType != "" &&
              (Get(form, "identifier_type", "") != "" ==> t.identifierType == form["identifier_type"]) &&
              (Get(form, "pii_category_value", "") != "" ==> t.category == form["pii_category_value"]) &&
              (Get(form, "pii_category_value", "") == "" ==> t.category == before.category)
  {
  }

  /** update_pii_tag: the tag as saved replaces the old one; no ownership check. */
  method UpdatePiiTag(store: Store, form: Form, user: User) returns (reply: Reply)
    requires store.Valid()
    modifies store`tags
    ensures var r := UpdateDecision(old(store.categories), old(store.tags), form, user);
            reply == r.reply &&
            (r.saved.Some? ==> store.tags == old(store.tags)[TagIndex(old(store.tags), form).value := r.saved.value]) &&
            (r.saved.None? ==> store.tags == old(store.tags))
    ensures store.docs == old(store.docs) && store.categories == old(store.categories) &&
            store.nextDocId == old(store.nextDocId) && store.nextTagId == old(store.nextTagId)
    ensures store.Valid()
  {
    var categoryValue := Get(form, "pii_category_value", "");
    var identifierType := Get(form, "identifier_type", "default");
    var entityId := Get(form, "entity_id", "");
    var index := TagIndex(store.tags, form);
    if index.None? {
      return Error(TagNotFound);
    }
    var tag := store.tags[index.value];
    if categoryValue != "" {
      if categoryValue !in store.categories {
        return Error(CategoryNotFound);
      }
      tag := tag.(category := categoryValue);
    }
    tag := tag.(identifierType := OrElse(identifierType, "default"), entityId := entityId, annotator := user.username);
    Services.UpdateAtWellFormed(store.tags, store.docs.Keys, store.categories.Keys, store.nextTagId, index.value, tag);
    store.tags := store.tags[index.value := tag];
    reply := if categoryValue != "" then Ok else Error(CategoryUnbound);
  }

  /** delete_pii_tag: any user removes exactly the tag named by `tag_id`. */
  method DeletePiiTag(store: Store, form: Form) returns (reply: Reply)
    requires store.Valid()
    modifies store`tags
    ensures reply == Ok <==> TagIndex(old(store.tags), form).Some?
    ensures reply != Ok ==> reply == Error(TagNotFound) && store.tags == old(store.tags)
    ensures reply == Ok ==>
              var k := TagIndex(old(store.tags), form).value;
              store.tags == old(store.tags)[..k] + old(store.tags)[k + 1..] &&
              forall t :: t in store.tags <==> t in old(store.tags) && t.id != old(store.tags)[k].id
    ensures store.docs == old(store.docs) && store.categories == old(store.categories) &&
            store.nextDocId == old(store.nextDocId) && store.nextTagId == old(store.nextTagId)
    ensures store.Valid()
  {
    var index := TagIndex(store.tags, form);
    if index.None? {
      return Error(TagNotFound);
    }
    var k := index.value;
    DeleteAtMembers(store.tags, k);
    DeleteAtOrdered(store.tags, k);
    store.tags := store.tags[..k] + store.tags[k + 1..];
    return Ok;
  }

  /** delete_document: any user removes the document named by `document_id` and exactly its tags. */
  method DeleteDocument(store: Store, form: Form) returns (reply: Reply)
    requires store.Valid()
    modifies store`docs, store`tags
    ensures var doc := FormRow(form, "document_id");
            (reply == Ok <==> doc.Some? && doc.value in old(store.docs)) &&
            (reply == Ok ==> store.docs == old(store.docs) - {doc.value} &&
                             store.tags == RemoveDocTags(old(store.tags), {doc.value}))
    ensures reply != Ok ==> reply == Error(DocumentNotFound) &&
                            store.docs == old(store.docs) && store.tags == old(store.tags)
    ensures store.categories == old(store.categories) &&
            store.nextDocId == old(store.nextDocId) && store.nextTagId == old(store.nextTagId)
    ensures store.Valid()
  {
    var documentId := FormRow(form, "document_id");
    if documentId.None? || documentId.value !in store.docs {
      return Error(DocumentNotFound);
    }
    var doc := documentId.value;
    RemoveDocTagsWellFormed(store.tags, store.docs.Keys, store.categories.Keys, store.nextTagId, {doc});
    store.tags := RemoveDocTags(store.tags, {doc});
    store.docs := store.docs - {doc};
    assert store.docs.Keys == old(store.docs).Keys - {doc};
    return Ok;
  }

  /** Every id of the list is an integer: otherwise the `id__in` query raises before deleting anything. */
  predicate AllIntegers(ids: seq<string>) {
    forall i :: 0 <= i < |ids| ==> ParseInt(ids[i]).Some?
  }

  /** The existing documents some id of the list names. */
  function Listed(docs: map<DocId, Document>, ids: seq<string>): (r: set<DocId>)
    ensures r <= docs.Keys
  {
    set d | d in docs && exists i :: 0 <= i < |ids| && ParseInt(ids[i]) == Some(d as int)
  }

  /** The list as the values the service layer's bulk delete receives. */
  function AsValues(ids: seq<string>): (vs: seq<Value>)
    ensures |vs| == |ids| && forall i :: 0 <= i < |ids| ==> vs[i] == VStr(ids[i])
  {
    seq(|ids|, i requires 0 <= i < |ids| => VStr(ids[i]))
  }

  /**
   * The view deletes every listed document: all that the service layer
   * would delete for the same user, and for a staff user exactly those.
   */
  lemma {:induction false} ListedCoversDeletable(docs: map<DocId, Document>, ids: seq<string>, user: User)
    ensures Services.Deletable(docs, AsValues(ids), user) <= Listed(docs, ids)
    ensures user.isStaff ==> Services.Deletable(docs, AsValues(ids), user) == Listed(docs, ids)
  {
    var vs := AsValues(ids);
    forall d | d in Services.Deletable(docs, vs, user) ensures d in Listed(docs, ids) {
      Services.DeletableMembers(docs, vs, user, d);
      var i :| 0 <= i < |vs| && Services.DocKey(vs[i]) == Some(d);
      assert ParseInt(ids[i]) == Some(d as int);
    }
    if user.isStaff {
      forall d | d in Listed(docs, ids) ensures d in Services.Deletable(docs, vs, user) {
        var i :| 0 <= i < |ids| && ParseInt(ids[i]) == Some(d as int);
        assert Services.DocKey(vs[i]) == Some(d);
        Services.DeletableMembers(docs, vs, user, d);
      }
    }
  }

  /** bulk_delete_documents: every listed document and its tags go, whoever owns them. */
  method BulkDeleteDocuments(store: Store, ids: seq<string>) returns (reply: Reply)
    requires store.Valid()
    modifies store`docs, store`tags
    ensures !AllIntegers(ids) ==> reply == Error(NotAnInteger) &&
                                  store.docs == old(store.docs) && store.tags == old(store.tags)
    ensures AllIntegers(ids) ==> reply == Ok &&
                                 store.docs == old(store.docs) - Listed(old(store.docs), ids) &&
                                 store.tags == RemoveDocTags(old(store.tags), Listed(old(store.docs), ids))
    ensures store.categories == old(store.categories) &&
            store.nextDocId == old(store.nextDocId) && store.nextTagId == old(store.nextTagId)
    ensures store.Valid()
  {
    if exists i | 0 <= i < |ids| :: ParseInt(ids[i]).None? {
      return Error(NotAnInteger);
    }
    var listed := Listed(store.docs, ids);
    RemoveDocTagsWellFormed(store.tags, store.docs.Keys, store.categories.Keys, store.nextTagId, listed);
    store.tags := RemoveDocTags(store.tags, listed);
    store.docs := store.docs - listed;
    assert store.docs.Keys == old(store.docs).Keys - listed;
    return Ok;
  }

  // ---------------------------------------------------------------------------
  // document_create: the upload loop
  // ---------------------------------------------------------------------------

  /**
   * The document columns accept the line's metadata: a null value in a
   * text column that does not accept null makes the create raise.
   */
  predicate ViewDocumentStorable(rec: Record) {
    !Get(rec.metadata, "data_id", VStr("")).VNone? && !Get(rec.metadata, "number_of_subjects", VInt(0)).VNone? &&
    !Get(rec.provenance, "dialog_type", VStr("")).VNone? && !Get(rec.provenance, "turn_cnt", VInt(0)).VNone? &&
    !Get(rec.provenance, "doc_id", VStr("")).VNone?
  }

  /**
   * The document the view creates from a line: each metadata value, or its
   * default, stored as its text.
   */
  function ViewDocument(rec: Record, user: User): (d: Document)
    ensures d.owner == user.id && d.text == rec.text
  {
    Document(user.id,
             PyStr(Get(rec.metadata, "data_id", VStr(""))),
             PyStr(Get(rec.metadata, "number_of_subjects", VInt(0))),
             PyStr(Get(rec.provenance, "dialog_type", VStr(""))),
             PyStr(Get(rec.provenance, "turn_cnt", VInt(0))),
             PyStr(Get(rec.provenance, "doc_id", VStr(""))),
             rec.text)
  }

  /** What storing one entity does: nothing, one tag, or an error that ends the upload. */
  datatype EntityEffect = Skipped | Stored(tag: Tag) | Rejected

  /**
   * The columns accept the entity's values: a text, integer offsets, and
   * an annotator and identifier_type that are not null.
   */
  predicate ViewEntityStorable(entity: Fields) {
    Services.EntityStorable(entity) &&
    !Get(entity, "annotator", VStr("Anonymous")).VNone? && !Get(entity, "identifier_type", VStr("default")).VNone?
  }

  /** An id of the entity, or `count + 1` when it is falsy, stored as text. */
  function CountOrOwn(v: Value, count: nat): (r: string)
    ensures r != ""
  {
    if Truthy(v) then PyStr(v) else IntToString(count + 1)
  }

  /** The tag the view stores for an entity of category `category`, with `count` tags already on the document. */
  function ViewTag(id: TagId, doc: DocId, category: string, entity: Fields, count: nat, user: User): (t: Tag)
    requires ViewEntityStorable(entity)
    ensures t.id == id && t.document == doc && t.category == category && t.createdBy == user.id
  {
    Tag(id, doc, category, PyStr(Get(entity, "span_text", VStr(""))),
        PyInt(Get(entity, "start_offset", VInt(0))).value, PyInt(Get(entity, "end_offset", VInt(0))).value,
        CountOrOwn(Get(entity, "span_id", VStr("")), count),
        CountOrOwn(Get(entity, "entity_id", VStr("")), count),
        PyStr(Get(entity, "annotator", VStr("Anonymous"))),
        PyStr(Get(entity, "identifier_type", VStr("default"))),
        user.id)
  }

  /** The effect of one entity on document `doc`, given the tags stored so far. */
  function ViewEntityEffect(cats: map<string, Category>, tags: seq<Tag>, doc: DocId, entity: Fields,
                            user: User, id: TagId): (e: EntityEffect)
    ensures e.Stored? ==> e.tag.id == id && e.tag.document == doc && e.tag.category in cats
  {
    var category := Services.CategoryKey(Get(entity, "entity_type", VStr("")));
    if category.None? || category.value !in cats then Skipped
    else if !ViewEntityStorable(entity) then Rejected
    else Stored(ViewTag(id, doc, category.value, entity, |TagsOf(tags, doc)|, user))
  }

  /**
   * What the view promises for one entity: an unknown category is skipped;
   * a known one is stored unless a column refuses a value; a stored tag
   * copies the entity's values, with no fallback for an empty annotator or
   * identifier_type; and when the entity gives neither id, span_id and
   * entity_id are the same number, one more than the document's tags.
   */
  lemma {:induction false} ViewEntityEffectSpec(cats: map<string, Category>, tags: seq<Tag>, doc: DocId, entity: Fields,
                             user: User, id: TagId)
    ensures var e := ViewEntityEffect(cats, tags, doc, entity, user, id);
            var category := Services.CategoryKey(Get(entity, "entity_type", VStr("")));
            (e.Skipped? <==> category.None? || category.value !in cats) &&
            (e.Rejected? <==> category.Some? && category.value in cats && !ViewEntityStorable(entity))
    ensures var e := ViewEntityEffect(cats, tags, doc, entity, user, id);
            e.Stored? ==>
              e.tag.category == PyStr(Get(entity, "entity_type", VStr(""))) && e.tag.createdBy == user.id &&
              e.tag.spanText == PyStr(Get(entity, "span_text", VStr(""))) &&
              Some(e.tag.startOffset) == PyInt(Get(entity, "start_offset", VInt(0))) &&
              Some(e.tag.endOffset) == PyInt(Get(entity, "end_offset", VInt(0))) &&
              e.tag.annotator == PyStr(Get(entity, "annotator", VStr("Anonymous"))) &&
              e.tag.identifierType == PyStr(Get(entity, "identifier_type", VStr("default"))) &&
              (Get(entity, "annotator", VStr("Anonymous")) == VStr("") ==> e.tag.annotator == "")
    ensures var e := ViewEntityEffect(cats, tags, doc, entity, user, id);
            e.Stored? && !Truthy(Get(entity, "span_id", VStr(""))) && !Truthy(Get(entity, "entity_id", VStr(""))) ==>
              e.tag.spanId == e.tag.entityId == IntToString(|TagsOf(tags, doc)| + 1)
    ensures var e := ViewEntityEffect(cats, tags, doc, entity, user, id);
            e.Stored? && Truthy(Get(entity, "span_id", VStr(""))) ==> e.tag.spanId == PyStr(entity["span_id"])
  {
  }

  /** The tags stored for a document's entities so far, and whether an entity ended the upload. */
  datatype Progress = Progress(stored: seq<Tag>, failed: bool)

  /** One more entity on top of `prior`; nothing happens after a failure. */
  function ViewEntityStep(cats: map<string, Category>, tags: seq<Tag>, doc: DocId, prior: Progress, entity: Fields,
                          user: User, firstId: TagId): Progress
  {
    if prior.failed then prior
    else
      match ViewEntityEffect(cats, tags + prior.stored, doc, entity, user, firstId + |prior.stored|)
      case Skipped => prior
      case Stored(t) => Progress(prior.stored + [t], false)
      case Rejected => Progress(prior.stored, true)
  }

  /** The entities of a document, in order, up to the first one that fails. */
  function ViewEntities(cats: map<string, Category>, tags: seq<Tag>, doc: DocId, entities: seq<Fields>,
                        user: User, firstId: TagId): (p: Progress)
    ensures |p.stored| <= |entities|
  {
    if |entities| == 0 then Progress([], false)
    else
      ViewEntityStep(cats, tags, doc, ViewEntities(cats, tags, doc, entities[..|entities| - 1], user, firstId),
                     entities[|entities| - 1], user, firstId)
  }

  /** Once an entity failed, the later ones change nothing. */
  lemma {:induction false} ViewEntitiesStop(cats: map<string, Category>, tags: seq<Tag>, doc: DocId,
                                            entities: seq<Fields>, j: nat, user: User, firstId: TagId)
    requires j <= |entities| && ViewEntities(cats, tags, doc, entities[..j], user, firstId).failed
    ensures ViewEntities(cats, tags, doc, entities, user, firstId) == ViewEntities(cats, tags, doc, entities[..j], user, firstId)
    decreases |entities|
  {
    if j < |entities| {
      var init := entities[..|entities| - 1];
      assert init[..j] == entities[..j];
      ViewEntitiesStop(cats, tags, doc, init, j, user, firstId);
    } else {
      assert entities[..j] == entities;
    }
  }

  /** One entity takes the tags stored so far for a document one entity further. */
  lemma {:induction false} ViewEntityAdvance(cats: map<string, Category>, tags0: seq<Tag>, doc: DocId,
                                             entities: seq<Fields>, i: nat, user: User, nextTag0: TagId,
                                             prior: Progress, tagsBefore: seq<Tag>, tagBefore: TagId, e: EntityEffect)
    requires i < |entities| && prior == ViewEntities(cats, tags0, doc, entities[..i], user, nextTag0) && !prior.failed
    requires tagsBefore == tags0 + prior.stored && tagBefore == nextTag0 + |prior.stored|
    requires e == ViewEntityEffect(cats, tagsBefore, doc, entities[i], user, tagBefore)
    ensures ViewEntities(cats, tags0, doc, entities[..i + 1], user, nextTag0) ==
            Progress(prior.stored + (if e.Stored? then [e.tag] else []), e.Rejected?)
    ensures tagsBefore + (if e.Stored? then [e.tag] else []) == tags0 + (prior.stored + (if e.Stored? then [e.tag] else []))
  {
    ViewEntitiesSnoc(cats, tags0, doc, entities, i, user, nextTag0);
    ViewEntityStepOf(cats, tags0, doc, prior, entities[i], user, nextTag0, e);
    Services.AppendAssoc(tags0, prior.stored, if e.Stored? then [e.tag] else []);
  }

  lemma {:induction false} ViewEntitiesSnoc(cats: map<string, Category>, tags0: seq<Tag>, doc: DocId,
                                            entities: seq<Fields>, i: nat, user: User, nextTag0: TagId)
    requires i < |entities|
    ensures ViewEntities(cats, tags0, doc, entities[..i + 1], user, nextTag0) ==
            ViewEntityStep(cats, tags0, doc, ViewEntities(cats, tags0, doc, entities[..i], user, nextTag0),
                           entities[i], user, nextTag0)
  {
    assert entities[..i + 1][..i] == entities[..i];
  }

  lemma {:induction false} ViewEntityStepOf(cats: map<string, Category>, tags0: seq<Tag>, doc: DocId, prior: Progress, entity: Fields,
                         user: User, nextTag0: TagId, e: EntityEffect)
    requires !prior.failed
    requires e == ViewEntityEffect(cats, tags0 + prior.stored, doc, entity, user, nextTag0 + |prior.stored|)
    ensures ViewEntityStep(cats, tags0, doc, prior, entity, user, nextTag0) ==
            Progress(prior.stored + (if e.Stored? then [e.tag] else []), e.Rejected?)
  {
  }

  /** The view's handling of one entity, over the store's values. */
  method ResolveViewEntity(cats: map<string, Category>, tags: seq<Tag>, doc: DocId, entity: Fields,
                           user: User, id: TagId) returns (e: EntityEffect)
    ensures e == ViewEntityEffect(cats, tags, doc, entity, user, id)
  {
    var piiCategory := Services.CategoryKey(Get(entity, "entity_type", VStr("")));
    if piiCategory.None? || piiCategory.value !in cats {
      return Skipped;
    }
    var spanId := Get(entity, "span_id", VStr(""));
    var entityId := Get(entity, "entity_id", VStr(""));
    if !Truthy(spanId) {
      spanId := VInt(|TagsOf(tags, doc)| + 1);
    }
    if !Truthy(entityId) {
      entityId := VInt(|TagsOf(tags, doc)| + 1);
    }
    var spanText := Get(entity, "span_text", VStr(""));
    var startOffset := PyInt(Get(entity, "start_offset", VInt(0)));
    var endOffset := PyInt(Get(entity, "end_offset", VInt(0)));
    var annotator := Get(entity, "annotator", VStr("Anonymous"));
    var identifierType := Get(entity, "identifier_type", VStr("default"));
    if spanText.VNone? || startOffset.None? || endOffset.None? || annotator.VNone? || identifierType.VNone? {
      return Rejected;
    }
    return Stored(Tag(id, doc, piiCategory.value, PyStr(spanText), startOffset.value, endOffset.value,
                      PyStr(spanId), PyStr(entityId), PyStr(annotator), PyStr(identifierType), user.id));
  }

  /** One entity of the view's upload: store its tag if there is one. */
  method StoreViewEntity(store: Store, doc: DocId, entity: Fields, user: User) returns (e: EntityEffect)
    requires store.Valid() && doc in store.docs
    modifies store`tags, store`nextTagId
    ensures e == ViewEntityEffect(old(store.categories), old(store.tags), doc, entity, user, old(store.nextTagId))
    ensures store.tags == old(store.tags) + (if e.Stored? then [e.tag] else [])
    ensures store.nextTagId == old(store.nextTagId) + (if e.Stored? then 1 else 0)
    ensures store.docs == old(store.docs) && store.categories == old(store.categories) &&
            store.nextDocId == old(store.nextDocId)
    ensures store.Valid()
  {
    e := ResolveViewEntity(store.categories, store.tags, doc, entity, user, store.nextTagId);
    if e.Stored? {
      TagsWellFormedAppend(store.tags, store.docs.Keys, store.categories.Keys, store.nextTagId, e.tag);
      store.tags := store.tags + [e.tag];
      store.nextTagId := store.nextTagId + 1;
    }
  }

  /** The entity loop of the upload, leaving at the first entity that fails. */
  method StoreViewEntities(store: Store, doc: DocId, entities: seq<Fields>, user: User) returns (failed: bool)
    requires store.Valid() && doc in store.docs
    modifies store`tags, store`nextTagId
    ensures var p := ViewEntities(old(store.categories), old(store.tags), doc, entities, user, old(store.nextTagId));
            store.tags == old(store.tags) + p.stored && failed == p.failed &&
            store.nextTagId == old(store.nextTagId) + |p.stored|
    ensures store.docs == old(store.docs) && store.nextDocId == old(store.nextDocId)
    ensures store.categories == old(store.categories)
    ensures store.Valid()
  {
    ghost var tags0, nextTag0, cats := store.tags, store.nextTagId, store.categories;
    ghost var prior := Progress([], false);
    for i := 0 to |entities|
      invariant prior == ViewEntities(cats, tags0, doc, entities[..i], user, nextTag0) && !prior.failed
      invariant store.tags == tags0 + prior.stored && store.nextTagId == nextTag0 + |prior.stored|
      invariant store.Valid()
    {
      ghost var tagsBefore, tagBefore := store.tags, store.nextTagId;
      ghost var effect := ViewEntityEffect(cats, tagsBefore, doc, entities[i], user, tagBefore);
      ViewEntityAdvance(cats, tags0, doc, entities, i, user, nextTag0, prior, tagsBefore, tagBefore, effect);
      var e := StoreViewEntity(store, doc, entities[i], user);
      prior := Progress(prior.stored + (if e.Stored? then [e.tag] else []), e.Rejected?);
      if e.Rejected? {
        ViewEntitiesStop(cats, tags0, doc, entities, i + 1, user, nextTag0);
        return true;
      }
    }
    assert entities[..|entities|] == entities;
    return false;
  }

  /**
   * One decoded line: a new document with the line's values as text, then
   * its entities; a null metadata value fails the line before anything is
   * created.
   */
  method CreateViewDocument(store: Store, rec: Record, user: User) returns (document: DocId, failed: bool)
    requires store.Valid()
    modifies store`docs, store`nextDocId, store`tags, store`nextTagId
    ensures !ViewDocumentStorable(rec) ==>
              failed && store.docs == old(store.docs) && store.nextDocId == old(store.nextDocId) &&
              store.tags == old(store.tags) && store.nextTagId == old(store.nextTagId)
    ensures ViewDocumentStorable(rec) ==>
              document == old(store.nextDocId) && store.nextDocId == old(store.nextDocId) + 1 &&
              store.docs == old(store.docs)[document := ViewDocument(rec, user)]
    ensures ViewDocumentStorable(rec) ==>
              var p := ViewEntities(old(store.categories), old(store.tags), document, rec.entities, user,
                                    old(store.nextTagId));
              store.tags == old(store.tags) + p.stored && failed == p.failed &&
              store.nextTagId == old(store.nextTagId) + |p.stored|
    ensures store.categories == old(store.categories)
    ensures store.Valid()
  {
    document := store.nextDocId;
    if !ViewDocumentStorable(rec) {
      return document, true;
    }
    var metadata := rec.metadata;
    var doc := Document(user.id, PyStr(Get(metadata, "data_id", VStr(""))),
                        PyStr(Get(metadata, "number_of_subjects", VInt(0))),
                        PyStr(Get(rec.provenance, "dialog_type", VStr(""))),
                        PyStr(Get(rec.provenance, "turn_cnt", VInt(0))),
                        PyStr(Get(rec.provenance, "doc_id", VStr(""))), rec.text);
    TagsWellFormedMono(store.tags, store.docs.Keys, store.docs.Keys + {document}, store.categories.Keys,
                       store.categories.Keys, store.nextTagId, store.nextTagId);
    store.docs := store.docs[document := doc];
    store.nextDocId := store.nextDocId + 1;
    failed := StoreViewEntities(store, document, rec.entities, user);
  }

  /**
   * A line `json.loads` accepted, as the view reads it: the record, and
   * whether the entity loop gets through its `entities`. It does not when
   * `entities` is not iterable (null, a number) or yields an item that is not
   * an object (a string's characters, a mapping's keys); `rec.entities` then
   * holds the objects the loop reaches before it raises.
   */
  datatype ViewLine = ViewLine(rec: Record, entitiesReadable: bool)

  /**
   * What a line of the upload is: blank, not decodable (which raises before
   * any document is created), a record, or a record whose entities make the
   * loop raise after its document was created.
   */
  datatype LineInput = Blank | Undecodable | Decoded(rec: Record) | Misshapen(rec: Record)

  function ClassifyLine(parse: string -> Option<ViewLine>, line: string): LineInput {
    if Strip(line) == "" then Blank
    else match parse(line)
      case None => Undecodable
      case Some(v) => if v.entitiesReadable then Decoded(v.rec) else Misshapen(v.rec)
  }

  function ClassifyLines(lines: seq<string>, parse: string -> Option<ViewLine>): (ls: seq<LineInput>)
    ensures |ls| == |lines|
    ensures forall k :: 0 <= k < |lines| ==> ls[k] == ClassifyLine(parse, lines[k])
  {
    seq(|lines|, k requires 0 <= k < |lines| => ClassifyLine(parse, lines[k]))
  }

  /**
   * The upload so far: the documents, the tags created, how many documents
   * were created, and whether a line or an entity failed.
   */
  datatype Upload = Upload(docs: map<DocId, Document>, created: seq<Tag>, count: nat, failed: bool)

  /** A record's document and the tags of its entities, on top of `prior`. */
  function ViewRecordUpload(cats: map<string, Category>, tags: seq<Tag>, prior: Upload, rec: Record, user: User,
                            firstDoc: DocId, firstTag: TagId): Upload
  {
    var doc := firstDoc + prior.count;
    var p := ViewEntities(cats, tags + prior.created, doc, rec.entities, user, firstTag + |prior.created|);
    Upload(prior.docs[doc := ViewDocument(rec, user)], prior.created + p.stored, prior.count + 1, p.failed)
  }

  /** One more line on top of `prior`; nothing happens after a failure. */
  function ViewLineStep(cats: map<string, Category>, tags: seq<Tag>, prior: Upload, l: LineInput, user: User,
                        firstDoc: DocId, firstTag: TagId): (u: Upload)
    ensures prior.created <= u.created && prior.count <= u.count
  {
    if prior.failed then prior
    else
      match l
      case Blank => prior
      case Undecodable => prior.(failed := true)
      case Decoded(rec) =>
        if !ViewDocumentStorable(rec) then prior.(failed := true)
        else ViewRecordUpload(cats, tags, prior, rec, user, firstDoc, firstTag)
      case Misshapen(rec) =>
        if !ViewDocumentStorable(rec) then prior.(failed := true)
        else ViewRecordUpload(cats, tags, prior, rec, user, firstDoc, firstTag).(failed := true)
  }

  /**
   * A line whose entities cannot be read still leaves its document, and the
   * tags of the entities before the unreadable one, and then fails the upload.
   */
  lemma {:induction false} MisshapenLineKeepsDocument(cats: map<string, Category>, tags: seq<Tag>, prior: Upload,
                                                      rec: Record, user: User, firstDoc: DocId, firstTag: TagId)
    requires !prior.failed && ViewDocumentStorable(rec)
    ensures var u := ViewLineStep(cats, tags, prior, Misshapen(rec), user, firstDoc, firstTag);
            var p := ViewEntities(cats, tags + prior.created, firstDoc + prior.count, rec.entities, user,
                                  firstTag + |prior.created|);
            u.failed && u.count == prior.count + 1 &&
            u.docs == prior.docs[firstDoc + prior.count := ViewDocument(rec, user)] &&
            u.created == prior.created + p.stored
  {
  }

  /** The upload over lines, in order, up to the first failure; document k is firstDoc + k. */
  function ViewLines(cats: map<string, Category>, docs: map<DocId, Document>, tags: seq<Tag>, ls: seq<LineInput>,
                     user: User, firstDoc: DocId, firstTag: TagId): Upload
  {
    if |ls| == 0 then Upload(docs, [], 0, false)
    else
      ViewLineStep(cats, tags, ViewLines(cats, docs, tags, ls[..|ls| - 1], user, firstDoc, firstTag),
                   ls[|ls| - 1], user, firstDoc, firstTag)
  }

  /** Once a line failed, the later ones change nothing. */
  lemma {:induction false} ViewLinesStop(cats: map<string, Category>, docs: map<DocId, Document>, tags: seq<Tag>,
                                         ls: seq<LineInput>, j: nat, user: User, firstDoc: DocId, firstTag: TagId)
    requires j <= |ls| && ViewLines(cats, docs, tags, ls[..j], user, firstDoc, firstTag).failed
    ensures ViewLines(cats, docs, tags, ls, user, firstDoc, firstTag) == ViewLines(cats, docs, tags, ls[..j], user, firstDoc, firstTag)
    decreases |ls|
  {
    if j < |ls| {
      var init := ls[..|ls| - 1];
      assert init[..j] == ls[..j];
      ViewLinesStop(cats, docs, tags, init, j, user, firstDoc, firstTag);
    } else {
      assert ls[..j] == ls;
    }
  }

  /** The upload's documents: the old ones, and one new one per record so far. */
  lemma {:induction false} ViewLinesDocs(cats: map<string, Category>, docs: map<DocId, Document>, tags: seq<Tag>,
                                         ls: seq<LineInput>, user: User, firstDoc: DocId, firstTag: TagId)
    ensures var u := ViewLines(cats, docs, tags, ls, user, firstDoc, firstTag);
            forall d :: d in u.docs <==> d in docs || firstDoc <= d < firstDoc + u.count
  {
    if |ls| > 0 {
      var init := ls[..|ls| - 1];
      ViewLinesDocs(cats, docs, tags, init, user, firstDoc, firstTag);
      var prior := ViewLines(cats, docs, tags, init, user, firstDoc, firstTag);
      var u := ViewLineStep(cats, tags, prior, ls[|ls| - 1], user, firstDoc, firstTag);
      assert ViewLines(cats, docs, tags, ls, user, firstDoc, firstTag) == u;
      forall d ensures d in u.docs <==> d in docs || firstDoc <= d < firstDoc + u.count {
        assert d in prior.docs <==> d in docs || firstDoc <= d < firstDoc + prior.count;
      }
    }
  }

  /** Each line keeps what the lines before it created. */
  lemma {:induction false} ViewLineStepKeeps(cats: map<string, Category>, docs: map<DocId, Document>, tags: seq<Tag>, prior: Upload,
                          l: LineInput, user: User, firstDoc: DocId, firstTag: TagId)
    requires forall d :: d in prior.docs <==> d in docs || firstDoc <= d < firstDoc + prior.count
    requires forall d :: d in docs ==> d < firstDoc
    ensures var u := ViewLineStep(cats, tags, prior, l, user, firstDoc, firstTag);
            forall d :: d in prior.docs ==> d in u.docs && u.docs[d] == prior.docs[d]
  {
  }

  /**
   * The upload is not atomic: whatever the lines before line j created,
   * documents and tags alike, is still there at the end, even when a later
   * line fails.
   */
  lemma {:induction false} ViewLinesKeep(cats: map<string, Category>, docs: map<DocId, Document>, tags: seq<Tag>,
                                         ls: seq<LineInput>, j: nat, user: User, firstDoc: DocId, firstTag: TagId)
    requires j <= |ls| && forall d :: d in docs ==> d < firstDoc
    ensures var a := ViewLines(cats, docs, tags, ls[..j], user, firstDoc, firstTag);
            var b := ViewLines(cats, docs, tags, ls, user, firstDoc, firstTag);
            a.created <= b.created && a.count <= b.count &&
            forall d :: d in a.docs ==> d in b.docs && b.docs[d] == a.docs[d]
    decreases |ls|
  {
    if j < |ls| {
      var init := ls[..|ls| - 1];
      assert init[..j] == ls[..j];
      ViewLinesKeep(cats, docs, tags, init, j, user, firstDoc, firstTag);
      ViewLinesDocs(cats, docs, tags, init, user, firstDoc, firstTag);
      ViewLineStepKeeps(cats, docs, tags, ViewLines(cats, docs, tags, init, user, firstDoc, firstTag), ls[|ls| - 1],
                        user, firstDoc, firstTag);
    } else {
      assert ls[..j] == ls;
    }
  }

  /**
   * A failing line ends the upload: the result is what the lines up to it
   * left, and it keeps everything the lines before it created.
   */
  lemma {:induction false} ImportNotAtomic(cats: map<string, Category>, docs: map<DocId, Document>, tags: seq<Tag>,
                        ls: seq<LineInput>, i: nat, user: User, firstDoc: DocId, firstTag: TagId)
    requires i < |ls| && forall d :: d in docs ==> d < firstDoc
    requires ViewLines(cats, docs, tags, ls[..i + 1], user, firstDoc, firstTag).failed
    ensures var before := ViewLines(cats, docs, tags, ls[..i], user, firstDoc, firstTag);
            var b := ViewLines(cats, docs, tags, ls, user, firstDoc, firstTag);
            b.failed && b == ViewLines(cats, docs, tags, ls[..i + 1], user, firstDoc, firstTag) &&
            before.created <= b.created && forall d :: d in before.docs ==> d in b.docs && b.docs[d] == before.docs[d]
  {
    ViewLinesStop(cats, docs, tags, ls, i + 1, user, firstDoc, firstTag);
    ViewLinesKeep(cats, docs, tags, ls, i, user, firstDoc, firstTag);
  }

  /** One line takes the upload so far one line further. */
  lemma {:induction false} ViewLineAdvance(cats: map<string, Category>, docs0: map<DocId, Document>, tags0: seq<Tag>,
                                           ls: seq<LineInput>, i: nat, user: User, nextDoc0: DocId, nextTag0: TagId,
                                           prior: Upload)
    requires i < |ls| && prior == ViewLines(cats, docs0, tags0, ls[..i], user, nextDoc0, nextTag0)
    ensures ViewLines(cats, docs0, tags0, ls[..i + 1], user, nextDoc0, nextTag0) ==
            ViewLineStep(cats, tags0, prior, ls[i], user, nextDoc0, nextTag0)
  {
    assert ls[..i + 1][..i] == ls[..i];
  }

  /** A decoded line on top of an upload that has not failed, in terms of the store before it. */
  lemma {:induction false} ViewRecordStep(cats: map<string, Category>, tags0: seq<Tag>, prior: Upload, rec: Record, user: User,
                       nextDoc0: DocId, nextTag0: TagId, docsBefore: map<DocId, Document>, tagsBefore: seq<Tag>,
                       docBefore: DocId, tagBefore: TagId, p: Progress)
    requires !prior.failed && ViewDocumentStorable(rec) && docsBefore == prior.docs && tagsBefore == tags0 + prior.created
    requires docBefore == nextDoc0 + prior.count && tagBefore == nextTag0 + |prior.created|
    requires p == ViewEntities(cats, tagsBefore, docBefore, rec.entities, user, tagBefore)
    ensures ViewLineStep(cats, tags0, prior, Decoded(rec), user, nextDoc0, nextTag0) ==
            Upload(docsBefore[docBefore := ViewDocument(rec, user)], prior.created + p.stored, prior.count + 1, p.failed)
    ensures ViewLineStep(cats, tags0, prior, Misshapen(rec), user, nextDoc0, nextTag0) ==
            Upload(docsBefore[docBefore := ViewDocument(rec, user)], prior.created + p.stored, prior.count + 1, true)
    ensures tagsBefore + p.stored == tags0 + (prior.created + p.stored)
  {
    Services.AppendAssoc(tags0, prior.created, p.stored);
  }

  /** The store holds the upload `u` on top of the tags and row ids it started from. */
  ghost predicate HoldsUpload(store: Store, cats: map<string, Category>, tags0: seq<Tag>, nextDoc0: DocId,
                              nextTag0: TagId, u: Upload)
    reads store
  {
    store.Valid() && store.categories == cats && store.docs == u.docs && store.tags == tags0 + u.created &&
    store.nextDocId == nextDoc0 + u.count && store.nextTagId == nextTag0 + |u.created|
  }

  /** The body of the view's loop: one line, with its document and its entities' tags. */
  method ViewUploadLine(store: Store, l: LineInput, user: User, ghost cats: map<string, Category>, ghost tags0: seq<Tag>,
                        ghost nextDoc0: DocId, ghost nextTag0: TagId, ghost prior: Upload) returns (failed: bool)
    requires !prior.failed && HoldsUpload(store, cats, tags0, nextDoc0, nextTag0, prior)
    modifies store`docs, store`nextDocId, store`tags, store`nextTagId
    ensures HoldsUpload(store, cats, tags0, nextDoc0, nextTag0, ViewLineStep(cats, tags0, prior, l, user, nextDoc0, nextTag0))
    ensures failed == ViewLineStep(cats, tags0, prior, l, user, nextDoc0, nextTag0).failed
  {
    match l
    case Blank =>
      return false;
    case Undecodable =>
      return true;
    case Decoded(rec) =>
      ghost var docsBefore, tagsBefore, docBefore, tagBefore := store.docs, store.tags, store.nextDocId, store.nextTagId;
      ghost var p := ViewEntities(cats, tagsBefore, docBefore, rec.entities, user, tagBefore);
      var document, lineFailed := CreateViewDocument(store, rec, user);
      if ViewDocumentStorable(rec) {
        ViewRecordStep(cats, tags0, prior, rec, user, nextDoc0, nextTag0, docsBefore, tagsBefore, docBefore, tagBefore, p);
      }
      return lineFailed;
    case Misshapen(rec) =>
      ghost var docsBefore, tagsBefore, docBefore, tagBefore := store.docs, store.tags, store.nextDocId, store.nextTagId;
      ghost var p := ViewEntities(cats, tagsBefore, docBefore, rec.entities, user, tagBefore);
      var document, lineFailed := CreateViewDocument(store, rec, user);
      if ViewDocumentStorable(rec) {
        ViewRecordStep(cats, tags0, prior, rec, user, nextDoc0, nextTag0, docsBefore, tagsBefore, docBefore, tagBefore, p);
      }
      return true;
  }

  /** The view's loop over the lines of an upload, leaving at the first failure. */
  method ViewUploadLines(store: Store, ls: seq<LineInput>, user: User) returns (failed: bool)
    requires store.Valid()
    modifies store`docs, store`nextDocId, store`tags, store`nextTagId
    ensures var u := ViewLines(old(store.categories), old(store.docs), old(store.tags), ls, user,
                               old(store.nextDocId), old(store.nextTagId));
            store.docs == u.docs && store.tags == old(store.tags) + u.created && failed == u.failed &&
            store.nextDocId == old(store.nextDocId) + u.count && store.nextTagId == old(store.nextTagId) + |u.created|
    ensures store.categories == old(store.categories)
    ensures store.Valid()
  {
    ghost var docs0, tags0, nextDoc0, nextTag0 := store.docs, store.tags, store.nextDocId, store.nextTagId;
    ghost var cats := store.categories;
    ghost var prior := Upload(docs0, [], 0, false);
    for i := 0 to |ls|
      invariant prior == ViewLines(cats, docs0, tags0, ls[..i], user, nextDoc0, nextTag0) && !prior.failed
      invariant HoldsUpload(store, cats, tags0, nextDoc0, nextTag0, prior)
    {
      ViewLineAdvance(cats, docs0, tags0, ls, i, user, nextDoc0, nextTag0, prior);
      var lineFailed := ViewUploadLine(store, ls[i], user, cats, tags0, nextDoc0, nextTag0, prior);
      prior := ViewLineStep(cats, tags0, prior, ls[i], user, nextDoc0, nextTag0);
      if lineFailed {
        ViewLinesStop(cats, docs0, tags0, ls, i + 1, user, nextDoc0, nextTag0);
        return true;
      }
    }
    assert ls[..|ls|] == ls;
    return false;
  }

  /**
   * document_create: a `.jsonl` file's non-blank lines, in order, each a
   * document with its tags, until a line fails; what was created before the
   * failure stays.
   */
  method DocumentCreate(store: Store, fileName: string, content: string, user: User, parse: string -> Option<ViewLine>)
    returns (reply: Reply)
    requires store.Valid()
    modifies store`docs, store`nextDocId, store`tags, store`nextTagId
    ensures !EndsWith(fileName, ".jsonl") ==>
              reply == Error(NotJsonl) && store.docs == old(store.docs) && store.tags == old(store.tags) &&
              store.nextDocId == old(store.nextDocId) && store.nextTagId == old(store.nextTagId)
    ensures EndsWith(fileName, ".jsonl") ==>
              var u := ViewLines(old(store.categories), old(store.docs), old(store.tags),
                                 ClassifyLines(Split(Strip(content), '\n'), parse), user,
                                 old(store.nextDocId), old(store.nextTagId));
              store.docs == u.docs && store.tags == old(store.tags) + u.created &&
              store.nextDocId == old(store.nextDocId) + u.count && store.nextTagId == old(store.nextTagId) + |u.created| &&
              (reply == Ok <==> !u.failed) && (u.failed ==> reply == Error(ImportFailed))
    ensures store.categories == old(store.categories)
    ensures store.Valid()
  {
    if !EndsWith(fileName, ".jsonl") {
      return Error(NotJsonl);
    }
    var lines := Split(Strip(content), '\n');
    var failed := ViewUploadLines(store, ClassifyLines(lines, parse), user);
    reply := if failed then Error(ImportFailed) else Ok;
  }

  // ---------------------------------------------------------------------------
  // download_jsonl: record building
  // ---------------------------------------------------------------------------

  /** The record the view writes for document `d`: every stored field as it is. */
  function ViewRecordOf(doc: Document, d: DocId, tags: seq<Tag>): ExportRecord {
    ExportRecord(VStr(doc.dataId), VStr(doc.numberOfSubjects), VStr(doc.dialogType), VStr(doc.turnCnt),
                 VStr(doc.docId), doc.text,
                 Services.ExportEntities(TagsOf(tags, d)))
  }

  /**
   * A document the view imported downloads with the text of the values its
   * line carried, falling back to the same defaults, and its entities mirror
   * the document's tags in order.
   */
  lemma {:induction false} ViewImportDownloadRoundTrip(rec: Record, user: User, d: DocId, tags: seq<Tag>)
    ensures var e := ViewRecordOf(ViewDocument(rec, user), d, tags);
            e.text == rec.text &&
            (Get(rec.metadata, "data_id", VStr("")).VStr? ==> e.dataId == Get(rec.metadata, "data_id", VStr(""))) &&
            (Get(rec.provenance, "dialog_type", VStr("")).VStr? ==>
               e.dialogType == Get(rec.provenance, "dialog_type", VStr(""))) &&
            (Get(rec.provenance, "doc_id", VStr("")).VStr? ==> e.docId == Get(rec.provenance, "doc_id", VStr(""))) &&
            ("data_id" !in rec.metadata ==> e.dataId == VStr(""))
    ensures var e := ViewRecordOf(ViewDocument(rec, user), d, tags);
            (forall n :: Get(rec.metadata, "number_of_subjects", VInt(0)) == VInt(n) ==>
               e.numberOfSubjects.VStr? && ParseInt(e.numberOfSubjects.s) == Some(n)) &&
            (forall n :: Get(rec.provenance, "turn_cnt", VInt(0)) == VInt(n) ==>
               e.turnCnt.VStr? && ParseInt(e.turnCnt.s) == Some(n))
    ensures var e := ViewRecordOf(ViewDocument(rec, user), d, tags);
            |e.entities| == |TagsOf(tags, d)| &&
            forall k :: 0 <= k < |e.entities| ==>
              e.entities[k].entityType == TagsOf(tags, d)[k].category &&
              e.entities[k].spanText == TagsOf(tags, d)[k].spanText &&
              e.entities[k].startOffset == TagsOf(tags, d)[k].startOffset &&
              e.entities[k].endOffset == TagsOf(tags, d)[k].endOffset &&
              e.entities[k].spanId == TagsOf(tags, d)[k].spanId &&
              e.entities[k].entityId == TagsOf(tags, d)[k].entityId
  {
    forall n: int ensures ParseInt(IntToString(n)) == Some(n) {
      IntToStringRoundTrip(n);
    }
  }

  /**
   * The two downloads disagree on the counts of an imported document: the
   * view writes number_of_subjects back as text, the service export parses
   * it back to a number.
   */
  lemma {:induction false} ViewDownloadCountIsText(rec: Record, user: User, d: DocId, tags: seq<Tag>, n: nat)
    requires Get(rec.metadata, "number_of_subjects", VInt(0)) == VInt(n)
    ensures ViewRecordOf(ViewDocument(rec, user), d, tags).numberOfSubjects == VStr(IntToString(n))
    ensures Services.ExportRecordOf(Services.DocumentFromRecord(rec, user), d, tags).numberOfSubjects == VInt(n)
  {
    Utils.NumericFieldRoundTrip(n, 0);
  }

  /** The encoded records, one per document, in the given order. */
  function DownloadLines(docs: map<DocId, Document>, tags: seq<Tag>, documents: seq<DocId>,
                         dumps: ExportRecord -> string): (r: seq<string>)
    requires forall k :: 0 <= k < |documents| ==> documents[k] in docs
    ensures |r| == |documents|
    ensures forall k :: 0 <= k < |documents| ==> r[k] == dumps(ViewRecordOf(docs[documents[k]], documents[k], tags))
  {
    if |documents| == 0 then []
    else
      var init := documents[..|documents| - 1];
      assert forall k :: 0 <= k < |init| ==> init[k] == documents[k];
      DownloadLines(docs, tags, init, dumps) +
        [dumps(ViewRecordOf(docs[documents[|documents| - 1]], documents[|documents| - 1], tags))]
  }

  /** Every line followed by a newline. */
  function Terminated(lines: seq<string>): string {
    if |lines| == 0 then "" else lines[0] + "\n" + Terminated(lines[1..])
  }

  lemma {:induction false} TerminatedSnoc(lines: seq<string>, x: string)
    ensures Terminated(lines + [x]) == Terminated(lines) + x + "\n"
  {
    if |lines| > 0 {
      assert (lines + [x])[1..] == lines[1..] + [x];
      TerminatedSnoc(lines[1..], x);
    } else {
      assert Terminated([x]) == x + "\n" + Terminated([]);
    }
  }

  /** Splitting newline-terminated lines on the newline gives them back, and one empty string last. */
  lemma {:induction false} SplitTerminated(lines: seq<string>)
    requires forall k :: 0 <= k < |lines| ==> '\n' !in lines[k]
    ensures Split(Terminated(lines), '\n') == lines + [""]
  {
    if |lines| > 0 {
      SplitTerminated(lines[1..]);
      SplitAtSep(lines[0], '\n', Terminated(lines[1..]));
      assert [lines[0]] + (lines[1..] + [""]) == lines + [""];
    }
  }

  /** download_jsonl: one encoded record per document, each followed by a newline. */
  method DownloadJsonl(store: Store, documents: seq<DocId>, dumps: ExportRecord -> string) returns (out: string)
    requires forall k :: 0 <= k < |documents| ==> documents[k] in store.docs
    ensures out == Terminated(DownloadLines(store.docs, store.tags, documents, dumps))
    ensures (forall r: ExportRecord :: '\n' !in dumps(r)) ==>
              Split(out, '\n') == DownloadLines(store.docs, store.tags, documents, dumps) + [""]
  {
    out := "";
    for i := 0 to |documents|
      invariant out == Terminated(DownloadLines(store.docs, store.tags, documents[..i], dumps))
    {
      var document := documents[i];
      var piiTags := TagsOf(store.tags, document);
      var entities := Services.BuildEntities(piiTags);
      var doc := store.docs[document];
      var jsonlData := ExportRecord(VStr(doc.dataId), VStr(doc.numberOfSubjects), VStr(doc.dialogType),
                                    VStr(doc.turnCnt), VStr(doc.docId), doc.text, entities);
      assert documents[..i + 1][..i] == documents[..i];
      TerminatedSnoc(DownloadLines(store.docs, store.tags, documents[..i], dumps), dumps(jsonlData));
      out := out + dumps(jsonlData) + "\n";
    }
    assert documents[..|documents|] == documents;
    if forall r: ExportRecord :: '\n' !in dumps(r) {
      SplitTerminated(DownloadLines(store.docs, store.tags, documents, dumps));
    }
  }
}
