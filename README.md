# PII labeler: a Dafny model of the tagging core

The PII labeler is a Django web application. Annotators upload dialogue
documents as JSON Lines, mark spans of personal information with PII tags
(a category, offsets, span and entity ids, annotator and identifier type),
edit or delete those tags, delete documents, and download the result again as
JSON Lines.

This project models the part of the system that decides what ends up in the
database:

- the id and metadata helpers and add-tag validation (`main/utils.py`);
- the service layer (`main/services.py`): tag creation with its duplicate and
  permission rules, tag update, tag and document deletion, bulk deletion, the
  JSONL import and export, and prev/next navigation;
- the older view layer (`backend/main/views.py`): its own add, update and
  delete rules, the upload that stops at the first failing line, and the
  download;
- the maintenance pass that trims whitespace off existing tags
  (`backend/trim_existing_tags.py`);
- the command that seeds the PII categories (`backend/load_pii_categories.py`).

The database is a `Store` class (`model.dfy`) with documents keyed by row id,
the tags in creation order, and the categories keyed by their unique value.
Every operation that changes the database is a method that `modifies` the
store; the exports and the navigation only read it. A method's new state or
result is tied to a specification function of the old state, and the
properties the code promises are proved as lemmas about those functions. `Store.Valid()` is the
invariant every operation keeps. It says every tag names an existing
document and category, and row ids are below the next id, in increasing
order.

Python's own semantics are written out in `pybuiltins.dfy`. This covers
`str.strip` and its whitespace set, `int()` on text, `str()` of an integer,
`split`, `join` and truthiness. JSON and form values are the scalars
`Value = VNone | VBool | VInt | VStr`, and a POST form is a map from strings
to strings. `json.loads` and `json.dumps` are parameters of the operations
that use them (`parse`, `dumps`).

Files: `pybuiltins.dfy` (module PyBuiltins), `model.dfy` (Model), `utils.dfy`
(Utils), `trim.dfy` (Trim), `services.dfy` (Services), `views.dfy` (Views),
`categories.dfy` (CategoryLoader).

## Model

| member | source | states |
|---|---|---|
| PyBuiltins.StripIdempotent | backend/trim_existing_tags.py:28 | a stripped string has no whitespace at either end, so stripping it again changes nothing |
| PyBuiltins.StrippedIsFixed | backend/trim_existing_tags.py:28-31 | `strip()` returns the string unchanged exactly when it has no leading or trailing whitespace |
| PyBuiltins.StripWindow | backend/trim_existing_tags.py:32-33 | `len(s) - len(s.lstrip())` and `len(s) - len(s.rstrip())` count the leading and trailing whitespace, and the stripped text is what lies between |
| PyBuiltins.IntToStringRoundTrip | main/utils.py:21 | `int()` reads back what `str()` of an integer wrote |
| PyBuiltins.ParseDigits | main/utils.py:16 | `int()` of a string of ASCII digits is its decimal value |
| PyBuiltins.SplitJoin | main/services.py:161 | splitting a non-empty list of lines joined by a newline gives the lines back when none contains a newline |
| PyBuiltins.SplitAtSep | main/services.py:40 | splitting `a + sep + b` is `[a]` followed by the split of `b`, when `a` has no separator |
| Model.TagsOf | backend/main/views.py:279 | a document's tags are exactly the stored tags that belong to it |
| Model.TagsOfAppend | backend/main/views.py:279 | the filter distributes over concatenation, so the document's tags keep their storage order |
| Model.TagsOfCount | backend/main/views.py:279 | each tag of the document occurs as often as it is stored, and a tag of another document not at all |
| Model.TagsOfNone | backend/main/views.py:279 | a document none of whose tags is stored has no tags |
| Model.TagsOfAll | backend/main/views.py:279 | when every stored tag belongs to the document, its tags are all of them, in order |
| Model.IndexOfTag | backend/main/views.py:200 | a lookup by tag id finds the tag with that id, or reports that none has it |
| Model.RemoveDocTags | main/services.py:274-276 | removing a document's tags keeps exactly the tags of the other documents |
| Model.RemoveDocTagsTwice | main/services.py:289-297 | removing the tags of one group of documents and then another removes those of their union |
| Model.RemoveDocTagsWellFormed | main/services.py:274-276 | deleting documents with their tags keeps every remaining tag pointing at a remaining document |
| Model.DeleteAtMembers | main/services.py:258 | deleting a tag removes exactly the tag with that id and keeps every other one |
| Model.DeleteAtOrdered | main/services.py:258 | deleting a tag keeps the remaining tags in id order |
| Utils.SpanIdsOfComplete | main/utils.py:9-11 | every tag of the document contributes its span_id to the scan |
| Utils.SpanIdsOfMember | main/utils.py:9-11 | every scanned span_id comes from a tag of the document |
| Utils.EntityIdsOfComplete | main/utils.py:26-28 | every tag of the document contributes its entity_id to the scan |
| Utils.EntityIdsOfMember | main/utils.py:26-28 | every scanned entity_id comes from a tag of the document |
| Utils.MaxNumericIdBound | main/utils.py:13-19 | every id that `int()` accepts is at most the running maximum |
| Utils.MaxNumericIdAttained | main/utils.py:13-19 | the maximum is 0 or the value of one of the ids |
| Utils.NonNumericIgnored | main/utils.py:18-19 | an id that `int()` rejects has no influence on the maximum, wherever it stands |
| Utils.NoNumericMeansZero | main/utils.py:13-19 | without any numeric id the maximum is 0 |
| Utils.EmptyIsNotNumeric | main/utils.py:9-11 | the empty id excluded by the query would have been rejected by `int()` anyway |
| Utils.NextNumericIdAbove | main/utils.py:21 | the next id reads as the maximum plus one, exceeds every numeric id, and is "1" when there is none |
| Utils.NextSpanId | main/utils.py:7-21 | get_next_span_id returns a positive integer above every numeric span_id of the document's tags, and "1" when none is numeric |
| Utils.NextEntityId | main/utils.py:24-38 | get_next_entity_id returns a positive integer above every numeric entity_id of the document's tags, and "1" when none is numeric |
| Utils.SanitizeMetadataField | main/utils.py:41-45 | None gives the default; a string is kept; an integer gives its `str()` text, which `int()` reads back; a bool gives "True" or "False" |
| Utils.RemoveChar | main/utils.py:54 | `replace('.', '')` keeps exactly the characters other than '.' |
| Utils.IntegerPart | main/utils.py:55 | the part before the first '.' is a prefix without '.', and the whole string when it has none |
| Utils.ParseNumericField | main/utils.py:48-58 | an int or bool gives its integer value; a digit string gives its value; None, the empty string and a string with another non-digit give the default |
| Utils.NumericFieldRoundTrip | main/utils.py:48-58 | a non-negative count stored with `str()` is read back unchanged |
| Utils.NegativeNumericFieldIsDefault | main/utils.py:54 | a negative count stored with `str()` is read back as the default, because '-' is not a digit |
| Utils.FirstMissing | main/utils.py:65-67 | reports the first required field that is absent or falsy, and none exactly when all are present |
| Utils.Validation | main/utils.py:61-82 | the data is valid exactly when every required field is present and both offsets are integers with 0 <= start < end; a missing field is reported before any offset error |
| Utils.ValidatePiiTagData | main/utils.py:61-82 | the loop reports the same verdict, checking fields in their listed order, then the offsets |
| Utils.ZeroStartIsMissing | main/utils.py:66 | a start offset of 0 is falsy, so a tag starting at position 0 is refused as missing its start |
| Trim.TrimTag | backend/trim_existing_tags.py:27-50 | the new span text is the stripped text; a tag changes exactly when its text is not stripped, and then only its text and offsets, with the start moving right and never past the end |
| Trim.TrimTagOffsets | backend/trim_existing_tags.py:40-45 | the start moves right by the leading whitespace and the end left by the trailing whitespace, and an end not after the start becomes start + length |
| Trim.TrimKeepsWindowLength | backend/trim_existing_tags.py:40-45 | a window as long as its text, when the text is not all whitespace, stays exactly as long as the stripped text |
| Trim.TrimKeepsSlice | backend/trim_existing_tags.py:26-51 | a tag whose offsets select its text in the document still selects its text after the pass |
| Trim.TrimAllSpace | backend/trim_existing_tags.py:44-45 | an all-whitespace span collapses to an empty window at its old end |
| Trim.TrimTagIdempotent | backend/trim_existing_tags.py:31 | a second pass over a tag changes nothing |
| Trim.TrimAll | backend/trim_existing_tags.py:26 | the pass maps every tag, in order |
| Trim.CountUntrimmedZero | backend/trim_existing_tags.py:53 | the pass counts no update exactly when every span text is already stripped |
| Trim.TrimAllIdempotent | backend/trim_existing_tags.py:16-56 | running the pass twice equals running it once, and the second run updates no tag |
| Trim.TrimAllWellFormed | backend/trim_existing_tags.py:48-51 | the pass keeps each tag's id, document and category, so the store invariant holds |
| Trim.TrimmedPrefixStep | backend/trim_existing_tags.py:27-53 | one more tag through the loop body: it is stored back exactly when its text changed, and the count grows exactly then |
| Trim.TrimExistingTags | backend/trim_existing_tags.py:16-56 | every tag is replaced by its trimmed form, the count is the number of tags whose text was not stripped, and nothing else changes |
| Services.DocKey | main/services.py:176 | a primary-key lookup finds a row only for a value `int()` accepts as a non-negative integer |
| Services.CategoryKey | main/services.py:91-93 | a category lookup matches nothing for None and the `str()` of any other value |
| Services.OrDefault | main/services.py:191-194 | `data.get(key, '') or fallback` is the fallback for a falsy value, the value's text otherwise, and never empty when the fallback is not |
| Services.CreateDecisionSpec | main/services.py:168-215 | invalid data is refused with its validation error; a tag is created exactly when the document and category exist and no tag has the same offsets and category; it carries the request's values, with the next free span and entity ids, "Anonymous" and "default" as defaults |
| Services.OtherCategoryDoesNotBlock | main/services.py:180-185 | a tag at the same offsets with another category does not block creation |
| Services.ResolveNewTag | main/services.py:171-210 | the checks and defaults in the code's order give the decision above |
| Services.CreatePiiTag | main/services.py:168-215 | on success the store gains exactly the new tag, with the next row id; on failure nothing changes |
| Services.UpdateDecision | main/services.py:218-246 | the tag is missing, forbidden to a non-owner non-staff user, or refused for an unknown category, each exactly when the condition holds; otherwise the category and identifier_type change only when given, entity_id only when truthy, and the annotator becomes the user |
| Services.UpdatePiiTag | main/services.py:218-246 | the updated tag replaces the old one in place; nothing changes on failure |
| Services.UpdateAtWellFormed | main/services.py:241 | saving a tag with the same id and document and a known category keeps the store invariant |
| Services.DeletePiiTag | main/services.py:249-262 | the tag is removed exactly when it exists and the user owns it or is staff; every other tag stays |
| Services.DeleteDocument | main/services.py:265-281 | the document and exactly its tags are removed when it exists and the user owns it or is staff |
| Services.Deletable | main/services.py:289-297 | the documents bulk deletion can remove all exist |
| Services.DeletableMembers | main/services.py:289-297 | a document is deleted exactly when it exists, the user may edit it, and some id in the list names it |
| Services.DeletableSnoc | main/services.py:289-299 | each further id adds at most its own document |
| Services.DeleteOneMore | main/services.py:296-297 | deleting one more document removes one more and counts one more |
| Services.BulkDeleteDocuments | main/services.py:285-301 | the count is the number of deletable documents; those and their tags are removed; missing and foreign ids are skipped |
| Services.DocumentFromRecord | main/services.py:63-75 | the stored document belongs to the user and has the record's text |
| Services.DocumentFromRecordFields | main/services.py:66-72 | each metadata field is stored as text: a text data_id is kept, and a missing or null data_id, dialog_type or doc_id becomes empty |
| Services.DecodeEntity | main/services.py:88-119 | an entity is stored exactly when its category exists and its text and offsets can be stored; the annotator and identifier_type are never empty |
| Services.PlaceEntity | main/services.py:104-116 | the tag gets the next row id, the document, the entity's category and the user |
| Services.EntityTag | main/services.py:88-119 | a stored tag has the next row id, the document and a known category |
| Services.EntityTagStored | main/services.py:91-96 | an entity is stored exactly when its category is known and its text and offsets can be stored |
| Services.EntityTagFields | main/services.py:99-113 | the tag copies text and offsets; the ids are the entity's own or the document's next free ids; annotator and identifier_type fall back to "Anonymous" and "default" |
| Services.EntityTagIds | main/services.py:99-100 | a stored tag always has a span_id and an entity_id |
| Services.PlaceEntitiesIds | main/services.py:81-83 | the tags of one document's entities are numbered consecutively, belong to it and name known categories |
| Services.ImportEntitiesIds | main/services.py:78-85 | every imported tag belongs to the document, names a known category and gets the next row id |
| Services.UnknownCategorySkipped | main/services.py:95-96 | an entity with an unknown category adds no tag |
| Services.ResolveEntityTag | main/services.py:88-119 | the code's order of checks gives the entity's tag, or none |
| Services.CreatePiiTagFromEntity | main/services.py:88-119 | the store gains the entity's tag when one is stored and nothing otherwise; the result says which |
| Services.CreateEntityTags | main/services.py:78-83 | the document's tags are appended in entity order and counted |
| Services.CreateDocumentFromJson | main/services.py:61-85 | one new document with the next row id, then its entities' tags; afterwards the new document's tags are exactly the tags its entities created, which is the hypothesis Services.ImportExportEntities starts from |
| Services.ImportedTagsOf | main/services.py:67-85 | a freshly created document, which no earlier tag names, owns exactly the tags its entities created |
| Services.ImportAllDocs | main/services.py:44-51 | every tag an upload creates belongs to one of the documents that upload created |
| Services.TagsOfAppendOthers | main/services.py:44-51 | tags created later for other documents leave a document's tags as they were, so each uploaded document keeps the tags its own entities created |
| Services.DecodeLines | main/services.py:44-47 | each line is read as blank, undecodable or a record |
| Services.ImportableAll | main/services.py:44-55 | all lines decoding imports them all; none decoding imports nothing |
| Services.ImportableMembers | main/services.py:44-51 | the records of a mixed upload are exactly the values the lines yielded |
| Services.ImportableAppend | main/services.py:44-51 | records come out in line order: two stretches of lines yield their records one after the other |
| Services.ImportableRecordsCount | main/services.py:44-55 | every non-blank line that decodes yields a document, and only such lines do, in line order, whatever mix of good, blank and bad lines the upload has |
| Services.AddDocumentsSpec | main/services.py:44-51 | the upload adds documents with consecutive ids, in order, and keeps every other document |
| Services.UploadLines | main/services.py:44-57 | lines that fail to decode are skipped; the counts are the documents and tags created |
| Services.ProcessJsonlUpload | main/services.py:38-57 | the stripped content is split on newlines; every non-blank line that decodes becomes a document with its tags; both counts are returned |
| Services.ExportEntityOf | main/services.py:132-141 | an export entry copies every field of its tag |
| Services.ExportEntities | main/services.py:130-142 | one export entry per tag, in order |
| Services.ImportExportRoundTrip | main/services.py:61-161 | an imported record exports back with the same text, data_id and doc_id as text, a non-negative integer count as the same integer, and one entry per tag; when every entity was stored, one entry per entity giving back its category, text, offsets, the ids it gave, annotator and identifier_type |
| Services.ImportExportEntities | main/services.py:78-142 | the entries of a document whose entities were all stored give those entities back, in order |
| Services.ExportLines | main/services.py:126-159 | one encoded record per document, in the given order |
| Services.BuildEntities | main/services.py:130-142 | the inner loop builds exactly the entries of the document's tags |
| Services.GenerateJsonlData | main/services.py:122-161 | the output is the records joined by newlines: empty for no documents, and splitting on newlines gives the records back |
| Services.DocIdsInOrder | main/services.py:26-27 | the id list holds exactly the store's documents, strictly ascending |
| Services.IndexOfId | main/services.py:30 | `index()` finds the position of the id, or reports that it is absent |
| Services.NavigationDocuments | main/services.py:24-35 | a missing id has no neighbours; otherwise the previous and next documents are the nearest smaller and larger ids |
| Services.NeighbourFacts | main/services.py:31-32 | in an ascending list no id lies between an id and its neighbours |
| Views.FormRow | backend/main/views.py:153 | a row lookup by a form value finds a row only for an integer the form holds under that key |
| Views.OrElse | backend/main/views.py:180-181 | `value or fallback` is never empty when the fallback is not |
| Views.AddDecisionSpec | backend/main/views.py:139-190 | a tag is added exactly when the offsets are integers, the document and category exist, a span text is given and no tag of the document has the same offsets whatever its category; span_id defaults to the count of the document's tags plus one, entity_id to span_id, and an empty annotator or identifier_type to "Anonymous" or "default" |
| Views.DefaultSpanIdCanRepeat | backend/main/views.py:167-168 | after a deletion the `count + 1` default gives the new tag the span_id of a tag the document still has |
| Views.ResolveAddTag | backend/main/views.py:143-183 | the checks and defaults in the view's order give the decision above |
| Views.AddPiiTag | backend/main/views.py:139-190 | on success the store gains exactly the new tag, whoever owns the document; otherwise nothing changes |
| Views.TagIndex | backend/main/views.py:199-200 | the tag looked up by the form's tag_id is a stored tag |
| Views.UpdateDecisionSpec | backend/main/views.py:211-236 | any user may update any tag; nothing is saved for a missing tag or an unknown given category; the category changes only when given, entity_id takes the submitted value even when empty, identifier_type falls back to "default", the annotator becomes the user; the reply is a failure when no category was given although the tag was saved |
| Views.UpdatePiiTag | backend/main/views.py:211-236 | the saved tag replaces the old one in place, and the reply is the one above |
| Views.DeletePiiTag | backend/main/views.py:195-206 | any user removes exactly the tag named by tag_id; a missing tag changes nothing |
| Views.DeleteDocument | backend/main/views.py:241-252 | any user removes the named document and exactly its tags; a missing one changes nothing |
| Views.Listed | backend/main/views.py:261-262 | the documents the `id__in` filter matches are the existing ones named by an id in the list |
| Views.ListedCoversDeletable | backend/main/views.py:257-267 | the view deletes at least what the service deletes for the same ids, and the same for staff |
| Views.BulkDeleteDocuments | backend/main/views.py:257-267 | an id that is not an integer fails the whole request with no change; otherwise every listed document and its tags are removed |
| Views.ViewDocument | backend/main/views.py:70-79 | the document belongs to the user and has the line's text |
| Views.CountOrOwn | backend/main/views.py:89-94 | a stored id is never empty |
| Views.ViewTag | backend/main/views.py:95-106 | the tag gets the row id, the document, the category and the user |
| Views.ViewEntityEffect | backend/main/views.py:83-106 | a stored tag gets the next row id, the document and a known category |
| Views.ViewEntityEffectSpec | backend/main/views.py:83-106 | an unknown category is skipped; a known one is stored unless a column refuses a value, which ends the upload; the tag copies the entity's values with no fallback for an empty annotator; span_id and entity_id are both `count + 1` when neither is given |
| Views.ViewEntities | backend/main/views.py:83 | no more tags than entities are stored |
| Views.ViewEntitiesStop | backend/main/views.py:112 | after a failing entity the later ones change nothing |
| Views.ResolveViewEntity | backend/main/views.py:84-106 | the view's order of checks gives the entity's effect |
| Views.StoreViewEntity | backend/main/views.py:95-106 | the store gains the entity's tag when one is stored, and nothing otherwise |
| Views.StoreViewEntities | backend/main/views.py:82-106 | the document's tags are appended in order up to the first failing entity, and the failure is reported |
| Views.CreateViewDocument | backend/main/views.py:67-106 | a null metadata value fails the line with no change; otherwise one new document with the line's values as text, then its entities' tags |
| Views.ClassifyLines | backend/main/views.py:65-83 | each line is read as blank, undecodable, a record, or a record whose entity loop raises |
| Views.ViewLineStep | backend/main/views.py:65-106 | a line never takes away tags created before it and never lowers the count of documents created |
| Views.MisshapenLineKeepsDocument | backend/main/views.py:70-84 | a line whose `entities` is not iterable, or yields an item that is not an object, still creates its document and the tags of the entities before that item, then fails the upload |
| Views.ViewLineStepKeeps | backend/main/views.py:65-79 | a line keeps every document created before it, unchanged |
| Views.ViewLinesStop | backend/main/views.py:112-113 | after a failing line the later ones change nothing |
| Views.ViewLinesDocs | backend/main/views.py:65-79 | the upload's documents are the old ones and one new one per record so far |
| Views.ViewLinesKeep | backend/main/views.py:61-113 | what the lines before a point created is still there at the end, even when a later line fails |
| Views.ImportNotAtomic | backend/main/views.py:61-113 | a failing line ends the upload and keeps everything the lines before it created |
| Views.ViewUploadLine | backend/main/views.py:66-106 | one pass of the loop body leaves the store as `ViewLineStep` says and reports whether the line failed |
| Views.ViewUploadLines | backend/main/views.py:65-106 | the loop leaves the store as the line-by-line upload does and reports whether it failed |
| Views.DocumentCreate | backend/main/views.py:54-117 | a file not named `.jsonl` is refused with no change; otherwise the stripped content's lines are uploaded in order until one fails, and the reply reports the failure |
| Views.ViewImportDownloadRoundTrip | backend/main/views.py:270-315 | a document the view imported downloads with the text values its line carried, an empty data_id when it had none, counts as text that `int()` reads back as the line's integer, and one entry per tag in order |
| Views.ViewDownloadCountIsText | backend/main/views.py:282-283 | the view downloads an imported integer count as its text, where the service export gives the integer back |
| Views.DownloadLines | backend/main/views.py:278-313 | one encoded record per document, in the given order |
| Views.TerminatedSnoc | backend/main/views.py:313 | writing one more line adds it and its newline at the end |
| Views.SplitTerminated | backend/main/views.py:313 | splitting newline-terminated lines on the newline gives them back, followed by one empty string |
| Views.DownloadJsonl | backend/main/views.py:270-315 | the response is each record followed by a newline, and splitting it gives the records back when no record contains a newline |
| CategoryLoader.Description | backend/load_pii_categories.py:29 | the description starts with the category value and adds a suffix |
| CategoryLoader.GetOrCreate | backend/load_pii_categories.py:25-31 | get_or_create creates exactly when the value is new, keeps every existing category, and gives a new one the entry's colour and the generated description |
| CategoryLoader.SeededKeys | backend/load_pii_categories.py:20-31 | a value has a category afterwards exactly when it had one before or an entry names it |
| CategoryLoader.SeededPrefix | backend/load_pii_categories.py:20-31 | a category set by earlier entries is not changed by later ones |
| CategoryLoader.SeededKeepsExisting | backend/load_pii_categories.py:25-31 | a category that existed before the run keeps its colour and description |
| CategoryLoader.SeededNew | backend/load_pii_categories.py:25-31 | a new category takes the colour of the first entry that names it |
| CategoryLoader.CreatedCountIsNew | backend/load_pii_categories.py:33-34 | the count is the number of categories added |
| CategoryLoader.SeededNothingNew | backend/load_pii_categories.py:20-37 | entries whose values all exist change nothing and create nothing |
| CategoryLoader.SeededIdempotent | backend/load_pii_categories.py:12-39 | a second run with the same entries changes nothing and counts zero |
| CategoryLoader.LoadPiiCategories | backend/load_pii_categories.py:12-39 | the loop leaves the categories the entries seed and returns the number created; documents and tags do not change |

## Left out

- File and network I/O, reading `tag.json`, and decoding uploads: `json.loads` and `json.dumps` are the parameters `parse` and `dumps`, and `tag.json` is a list of entries given to `LoadPiiCategories`.
- Decoding is trusted to follow the code's reading of a line. For the view upload, `parse` gives None for a line whose `json.loads` or whose `data`, `metadata` or `provenance` lookups raise before the document is created (backend/main/views.py:67-76). It reports `entitiesReadable` false when `entities` is not iterable or yields an item that is not an object, with the objects before that item as the entities (views.py:82-85). For the service upload, `parse` gives None for a line whose `entities` is not iterable, since `@transaction.atomic` rolls that document back (main/services.py:59-85). It drops entity items that are not objects, which `_create_pii_tag_from_entity` skips without a tag (main/services.py:90-119).
- Django request handling, login and CSRF decorators, templates, redirects, flash messages and the text of every reply message: a reply carries only its success flag and a failure reason.
- Concurrency: simultaneous requests are not modelled; each operation runs alone.
- Services.CreateDocumentFromJson: `transaction.atomic` (main/services.py:60) is not modelled. An entity whose insert fails is caught at main/services.py:118-119 inside that transaction. A failure Python raises before any SQL, such as a non-integer offset, only skips that entity, and the model does the same. A failure the database raises, such as a null span_text against the NOT NULL column, leaves the transaction aborted on PostgreSQL-like backends. There, every later insert of the document fails too, and the document and all its tags are rolled back when the block ends, yet main/services.py:49-51 still counts the document and its earlier tags. The model keeps the document and skips only the failing entity (Services.EntityStorable, Services.DecodeEntity), which is what a backend that keeps the transaction usable (SQLite) does.
- The tag's `confidence` float, and floats in JSON values: a value is None, a bool, an int or a string.
- Utils.ParseNumericField: a digit string is read as its exact integer value, and a dotted string as the exact integer before its first dot. `int(float(value))` at main/utils.py:55 rounds every value above 2^53 to the nearest double ("9007199254740993" gives 9007199254740992). A string of more than 308 digits makes `float()` give infinity, and `int()` then raises an OverflowError that the `except (ValueError, TypeError)` does not catch, so the export fails. Neither effect is modelled.
- Utils.NumericFieldRoundTrip and Services.ImportExportRoundTrip: the count read back equals the stored integer only below 2^53 in the code; the model reads every digit string exactly, as the line above says.
- Utils.ParseNumericField: a digit is an ASCII digit. Python's `str.isdigit()` and `float()` at main/utils.py:54-55 also accept other Unicode decimal digits ("٣" gives 3), and the model gives the default for those instead.
- `int()` on text accepts ASCII digits with an optional sign and surrounding whitespace; underscores between digits and non-ASCII digits are not modelled.
- The database schema is not part of this model. Its document metadata columns are taken to be text columns that do not accept null, as the service layer's `str()` conversions suggest: the view upload stores each value as its text, and a null value makes the create raise, which ends the upload. A null or missing span text, or a non-integer offset, is taken to be refused by the database the same way, and so is a null annotator or identifier_type.
- Views.AddDecisionSpec: a form without `span_text` is refused, on the assumption that the span text column does not accept null.
- Views.DocumentCreate: a request without a file, like a GET request, only renders the page and is not modelled.
- The regular-expression pre-filter of the trim pass is not modelled; the pass visits every tag. The filter at backend/trim_existing_tags.py:20 can also exclude texts that are not stripped: where the database evaluates the pattern with Python's `re.search`, `$` matches before a final newline, so "abc\n" matches `^\S.*\S$`, is excluded, and is never trimmed. The model trims such texts. The progress prints are left out.
- The `id__in` order of the download: `DownloadJsonl` and `GenerateJsonlData` take the documents in the order the query returns them, as a parameter; which documents the query selects is not modelled there.
- Moving a tag to another document, and the uniqueness of a document's `data_id`, are not modelled; neither is trimming on add or import.
- `models.py`, `admin.py`, forms, authentication, the API views and the older `main/views.py` are not part of this model.
- CategoryLoader.LoadPiiCategories: an entry missing `value` or `background` raises a KeyError in the script after the earlier entries were created; entries here always carry both.
