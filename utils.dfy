/** Id assignment, metadata conversion and add-tag validation of the service layer. */
module Utils {
  import opened PyBuiltins
  import opened Model

  // ---------------------------------------------------------------------------
  // Next span_id / entity_id
  // ---------------------------------------------------------------------------

  /** The span_ids of `doc`'s tags, in storage order. */
  function SpanIdsOf(tags: seq<Tag>, doc: DocId): (r: seq<string>)
    ensures |r| <= |tags|
  {
    if |tags| == 0 then []
    else SpanIdsOf(tags[..|tags| - 1], doc) +
         (if tags[|tags| - 1].document == doc then [tags[|tags| - 1].spanId] else [])
  }

  /** Every tag of the document contributes its id. */
  lemma {:induction false} SpanIdsOfComplete(tags: seq<Tag>, doc: DocId, t: Tag)
    requires t in tags && t.document == doc
    ensures t.spanId in SpanIdsOf(tags, doc)
  {
    var init := tags[..|tags| - 1];
    if t != tags[|tags| - 1] {
      assert t in init;
      SpanIdsOfComplete(init, doc, t);
    }
  }

  /** Every listed id comes from a tag of the document. */
  lemma {:induction false} SpanIdsOfMember(tags: seq<Tag>, doc: DocId, x: string)
    requires x in SpanIdsOf(tags, doc)
    ensures exists t :: t in tags && t.document == doc && t.spanId == x
  {
    var init := tags[..|tags| - 1];
    if x in SpanIdsOf(init, doc) {
      SpanIdsOfMember(init, doc, x);
      var t :| t in init && t.document == doc && t.spanId == x;
      assert t in tags;
    } else {
      assert tags[|tags| - 1] in tags;
    }
  }

  /** One more tag of the list moves the running maximum by one `MaxStep`, or not at all. */
  lemma {:induction false} SpanIdsOfStep(tags: seq<Tag>, i: nat, doc: DocId)
    requires i < |tags|
    ensures MaxNumericId(SpanIdsOf(tags[..i + 1], doc)) ==
            if tags[i].document == doc then MaxStep(MaxNumericId(SpanIdsOf(tags[..i], doc)), tags[i].spanId)
            else MaxNumericId(SpanIdsOf(tags[..i], doc))
  {
    assert tags[..i + 1][..i] == tags[..i];
    var before := SpanIdsOf(tags[..i], doc);
    if tags[i].document == doc {
      assert SpanIdsOf(tags[..i + 1], doc) == before + [tags[i].spanId];
      MaxNumericIdSnoc(before, tags[i].spanId);
    } else {
      assert SpanIdsOf(tags[..i + 1], doc) == before;
    }
  }


  /** The id computed from the list bounds every numeric id of the document's tags. */
  lemma {:induction false} NextSpanIdAbove(tags: seq<Tag>, doc: DocId, r: string)
    requires r == NextNumericId(SpanIdsOf(tags, doc))
    ensures ParseInt(r).Some? && ParseInt(r).value >= 1
    ensures forall t :: t in tags && t.document == doc && ParseInt(t.spanId).Some? ==>
              ParseInt(t.spanId).value < ParseInt(r).value
    ensures (forall t :: t in tags && t.document == doc ==> ParseInt(t.spanId).None?) ==> r == "1"
  {
    ghost var ids := SpanIdsOf(tags, doc);
    NextNumericIdAbove(ids);
    forall t | t in tags && t.document == doc && ParseInt(t.spanId).Some?
      ensures ParseInt(t.spanId).value < MaxNumericId(ids) + 1
    {
      SpanIdsOfComplete(tags, doc, t);
    }
    if forall t :: t in tags && t.document == doc ==> ParseInt(t.spanId).None? {
      forall x | x in ids ensures ParseInt(x).None? {
        SpanIdsOfMember(tags, doc, x);
      }
    }
  }


  /** The entity_ids of `doc`'s tags, in storage order. */
  function EntityIdsOf(tags: seq<Tag>, doc: DocId): (r: seq<string>)
    ensures |r| <= |tags|
  {
    if |tags| == 0 then []
    else EntityIdsOf(tags[..|tags| - 1], doc) +
         (if tags[|tags| - 1].document == doc then [tags[|tags| - 1].entityId] else [])
  }

  /** One step of the running maximum: a numeric id above the current maximum replaces it. */
  function MaxStep(m: nat, id: string): nat {
    match ParseInt(id)
    case Some(k) => if k > m then k else m
    case None => m
  }

  /** Every tag of the document contributes its id. */
  lemma {:induction false} EntityIdsOfComplete(tags: seq<Tag>, doc: DocId, t: Tag)
    requires t in tags && t.document == doc
    ensures t.entityId in EntityIdsOf(tags, doc)
  {
    var init := tags[..|tags| - 1];
    if t != tags[|tags| - 1] {
      assert t in init;
      EntityIdsOfComplete(init, doc, t);
    }
  }

  /** Every listed id comes from a tag of the document. */
  lemma {:induction false} EntityIdsOfMember(tags: seq<Tag>, doc: DocId, x: string)
    requires x in EntityIdsOf(tags, doc)
    ensures exists t :: t in tags && t.document == doc && t.entityId == x
  {
    var init := tags[..|tags| - 1];
    if x in EntityIdsOf(init, doc) {
      EntityIdsOfMember(init, doc, x);
      var t :| t in init && t.document == doc && t.entityId == x;
      assert t in tags;
    } else {
      assert tags[|tags| - 1] in tags;
    }
  }

  /** One more tag of the list moves the running maximum by one `MaxStep`, or not at all. */
  lemma {:induction false} EntityIdsOfStep(tags: seq<Tag>, i: nat, doc: DocId)
    requires i < |tags|
    ensures MaxNumericId(EntityIdsOf(tags[..i + 1], doc)) ==
            if tags[i].document == doc then MaxStep(MaxNumericId(EntityIdsOf(tags[..i], doc)), tags[i].entityId)
            else MaxNumericId(EntityIdsOf(tags[..i], doc))
  {
    assert tags[..i + 1][..i] == tags[..i];
    var before := EntityIdsOf(tags[..i], doc);
    if tags[i].document == doc {
      assert EntityIdsOf(tags[..i + 1], doc) == before + [tags[i].entityId];
      MaxNumericIdSnoc(before, tags[i].entityId);
    } else {
      assert EntityIdsOf(tags[..i + 1], doc) == before;
    }
  }


  /** The id computed from the list bounds every numeric id of the document's tags. */
  lemma {:induction false} NextEntityIdAbove(tags: seq<Tag>, doc: DocId, r: string)
    requires r == NextNumericId(EntityIdsOf(tags, doc))
    ensures ParseInt(r).Some? && ParseInt(r).value >= 1
    ensures forall t :: t in tags && t.document == doc && ParseInt(t.entityId).Some? ==>
              ParseInt(t.entityId).value < ParseInt(r).value
    ensures (forall t :: t in tags && t.document == doc ==> ParseInt(t.entityId).None?) ==> r == "1"
  {
    ghost var ids := EntityIdsOf(tags, doc);
    NextNumericIdAbove(ids);
    forall t | t in tags && t.document == doc && ParseInt(t.entityId).Some?
      ensures ParseInt(t.entityId).value < MaxNumericId(ids) + 1
    {
      EntityIdsOfComplete(tags, doc, t);
    }
    if forall t :: t in tags && t.document == doc ==> ParseInt(t.entityId).None? {
      forall x | x in ids ensures ParseInt(x).None? {
        EntityIdsOfMember(tags, doc, x);
      }
    }
  }


  /**
   * The largest integer among the ids that `int()` accepts, or 0 when there
   * is none (the running maximum starts at 0).
   */
  function MaxNumericId(ids: seq<string>): (m: nat)
  {
    if |ids| == 0 then 0
    else
      assert ids == ids[..|ids| - 1] + [ids[|ids| - 1]];
      MaxStep(MaxNumericId(ids[..|ids| - 1]), ids[|ids| - 1])
  }

  lemma {:induction false} MaxNumericIdSnoc(ids: seq<string>, x: string)
    ensures MaxNumericId(ids + [x]) == MaxStep(MaxNumericId(ids), x)
  {
    assert (ids + [x])[..|ids|] == ids;
  }

  /** Every id that `int()` accepts is at most the maximum. */
  lemma {:induction false} MaxNumericIdBound(ids: seq<string>, x: string)
    requires x in ids && ParseInt(x).Some?
    ensures ParseInt(x).value <= MaxNumericId(ids)
  {
    var init := ids[..|ids| - 1];
    assert ids == init + [ids[|ids| - 1]];
    if x != ids[|ids| - 1] {
      assert x in init;
      MaxNumericIdBound(init, x);
    }
  }

  /** The maximum is 0 or the value of one of the ids. */
  lemma {:induction false} MaxNumericIdAttained(ids: seq<string>)
    ensures MaxNumericId(ids) == 0 || exists x :: x in ids && ParseInt(x) == Some(MaxNumericId(ids) as int)
  {
    if |ids| > 0 {
      var init := ids[..|ids| - 1];
      MaxNumericIdAttained(init);
      MaxNumericIdSnoc(init, ids[|ids| - 1]);
      assert ids == init + [ids[|ids| - 1]];
      if MaxNumericId(ids) != MaxNumericId(init) {
        assert ids[|ids| - 1] in ids;
      } else if MaxNumericId(init) != 0 {
        var x :| x in init && ParseInt(x) == Some(MaxNumericId(init) as int);
        assert x in ids;
      }
    }
  }

  lemma {:induction false} AppendLast<T>(p: seq<T>, b: seq<T>)
    requires |b| > 0
    ensures p + b == (p + b[..|b| - 1]) + [b[|b| - 1]]
  {
    assert b == b[..|b| - 1] + [b[|b| - 1]];
  }

  /** An id that `int()` rejects has no influence on the maximum, wherever it stands. */
  lemma {:induction false} NonNumericIgnored(a: seq<string>, x: string, b: seq<string>)
    requires ParseInt(x).None?
    ensures MaxNumericId(a + [x] + b) == MaxNumericId(a + b)
  {
    if |b| == 0 {
      assert a + [x] + b == a + [x];
      assert a + b == a;
      MaxNumericIdSnoc(a, x);
    } else {
      var b' := b[..|b| - 1];
      var y := b[|b| - 1];
      NonNumericIgnored(a, x, b');
      AppendLast(a + [x], b);
      AppendLast(a, b);
      MaxNumericIdSnoc(a + [x] + b', y);
      MaxNumericIdSnoc(a + b', y);
    }
  }

  /** No numeric id gives a maximum of 0. */
  lemma {:induction false} NoNumericMeansZero(ids: seq<string>)
    ensures (forall x :: x in ids ==> ParseInt(x).None?) ==> MaxNumericId(ids) == 0
  {
    MaxNumericIdAttained(ids);
  }

  lemma {:induction false} EmptyIsNotNumeric()
    ensures ParseInt("").None?
  {
    assert LeadCount("") == 0;
  }

  /** An empty id leaves the running maximum where it is. */
  lemma EmptyIdIgnored(m: nat)
    ensures MaxStep(m, "") == m
  {
    EmptyIsNotNumeric();
  }

  /** The id the next tag receives: one past the running maximum, as decimal text. */
  function NextNumericId(ids: seq<string>): string {
    IntToString(MaxNumericId(ids) + 1)
  }

  /** The next id is a positive integer above every numeric id, and "1" when there is none. */
  lemma {:induction false} NextNumericIdAbove(ids: seq<string>)
    ensures ParseInt(NextNumericId(ids)) == Some(MaxNumericId(ids) + 1)
    ensures forall x :: x in ids && ParseInt(x).Some? ==> ParseInt(x).value < MaxNumericId(ids) + 1
    ensures (forall x :: x in ids ==> ParseInt(x).None?) ==> NextNumericId(ids) == "1"
  {
    IntToStringRoundTrip(MaxNumericId(ids) + 1);
    forall x | x in ids && ParseInt(x).Some? ensures ParseInt(x).value < MaxNumericId(ids) + 1 {
      MaxNumericIdBound(ids, x);
    }
    NoNumericMeansZero(ids);
  }

  /** get_next_span_id: one more than the largest numeric span_id of the document. */
  method NextSpanId(tags: seq<Tag>, doc: DocId) returns (r: string)
    ensures r == NextNumericId(SpanIdsOf(tags, doc))
    ensures ParseInt(r).Some? && ParseInt(r).value >= 1
    ensures forall t :: t in tags && t.document == doc && ParseInt(t.spanId).Some? ==>
              ParseInt(t.spanId).value < ParseInt(r).value
    ensures (forall t :: t in tags && t.document == doc ==> ParseInt(t.spanId).None?) ==> r == "1"
  {
    var maxSpanId: nat := 0;
    for i := 0 to |tags|
      invariant maxSpanId == MaxNumericId(SpanIdsOf(tags[..i], doc))
    {
      var tag := tags[i];
      SpanIdsOfStep(tags, i, doc);
      if tag.document == doc {
        if tag.spanId != "" {
          var spanNum := ParseInt(tag.spanId);
          if spanNum.Some? && spanNum.value > maxSpanId {
            maxSpanId := spanNum.value;
          }
        } else {
          EmptyIdIgnored(maxSpanId);
        }
      }
    }
    assert tags[..|tags|] == tags;
    r := IntToString(maxSpanId + 1);
    assert r == NextNumericId(SpanIdsOf(tags, doc));
    NextSpanIdAbove(tags, doc, r);
  }


  /** get_next_entity_id: one more than the largest numeric entity_id of the document. */
  method NextEntityId(tags: seq<Tag>, doc: DocId) returns (r: string)
    ensures r == NextNumericId(EntityIdsOf(tags, doc))
    ensures ParseInt(r).Some? && ParseInt(r).value >= 1
    ensures forall t :: t in tags && t.document == doc && ParseInt(t.entityId).Some? ==>
              ParseInt(t.entityId).value < ParseInt(r).value
    ensures (forall t :: t in tags && t.document == doc ==> ParseInt(t.entityId).None?) ==> r == "1"
  {
    var maxEntityId: nat := 0;
    for i := 0 to |tags|
      invariant maxEntityId == MaxNumericId(EntityIdsOf(tags[..i], doc))
    {
      var tag := tags[i];
      EntityIdsOfStep(tags, i, doc);
      if tag.document == doc {
        if tag.entityId != "" {
          var entityNum := ParseInt(tag.entityId);
          if entityNum.Some? && entityNum.value > maxEntityId {
            maxEntityId := entityNum.value;
          }
        } else {
          EmptyIdIgnored(maxEntityId);
        }
      }
    }
    assert tags[..|tags|] == tags;
    r := IntToString(maxEntityId + 1);
    assert r == NextNumericId(EntityIdsOf(tags, doc));
    NextEntityIdAbove(tags, doc, r);
  }


  // ---------------------------------------------------------------------------
  // Metadata conversion
  // ---------------------------------------------------------------------------

  /** sanitize_metadata_field: None becomes the default, anything else its `str`. */
  function SanitizeMetadataField(value: Value, default: string := ""): (r: string)
    ensures value.VNone? ==> r == default
    ensures value.VStr? ==> r == value.s
    ensures value.VInt? ==> r == IntToString(value.i) && ParseInt(r) == Some(value.i)
    ensures value.VBool? ==> r == (if value.b then "True" else "False")
  {
    if value.VNone? then default
    else if value.VInt? then IntToStringRoundTrip(value.i); PyStr(value)
    else PyStr(value)
  }

  /** `s.replace(c, '')`. */
  function RemoveChar(s: string, c: char): (r: string)
    ensures forall x :: x in r <==> x in s && x != c
    ensures c !in s ==> r == s
  {
    if |s| == 0 then ""
    else (if s[0] == c then "" else [s[0]]) + RemoveChar(s[1..], c)
  }

  function CountChar(s: string, c: char): (n: nat)
    ensures c !in s ==> n == 0
  {
    if |s| == 0 then 0 else (if s[0] == c then 1 else 0) + CountChar(s[1..], c)
  }

  /** The part of `s` before its first '.'. */
  function IntegerPart(s: string): (r: string)
    ensures |r| <= |s| && r == s[..|r|]
    ensures forall x :: x in r ==> x in s && x != '.'
    ensures '.' !in s ==> r == s
  {
    if |s| == 0 || s[0] == '.' then ""
    else [s[0]] + IntegerPart(s[1..])
  }

  /**
   * parse_numeric_field: an int (or bool) is returned as an int; a string
   * that is digits with at most one '.' yields `int(float(value))`; any
   * other value yields the default.
   */
  function ParseNumericField(value: Value, default: int := 0): (r: int)
    ensures value.VInt? ==> r == value.i
    ensures value.VBool? ==> r == (if value.b then 1 else 0)
    ensures value.VNone? ==> r == default
    ensures value.VStr? && |value.s| > 0 && AllDigits(value.s) ==> r == DigitsValue(value.s)
    ensures value.VStr? && (exists c :: c in value.s && !IsDigit(c) && c != '.') ==> r == default
    ensures value == VStr("") ==> r == default
  {
    match value
    case VInt(i) => i
    case VBool(b) => if b then 1 else 0
    case VNone => default
    case VStr(s) =>
      var digits := RemoveChar(s, '.');
      if |digits| > 0 && AllDigits(digits) then
        if CountChar(s, '.') <= 1 then
          var whole := IntegerPart(s);
          assert AllDigits(whole) by {
            forall i | 0 <= i < |whole| ensures IsDigit(whole[i]) {
              assert whole[i] in digits;
              var k :| 0 <= k < |digits| && digits[k] == whole[i];
            }
          }
          DigitsValue(whole)
        else default
      else
        assert (exists c :: c in s && !IsDigit(c) && c != '.') ==> !AllDigits(digits) by {
          if c :| c in s && !IsDigit(c) && c != '.' {
            assert c in digits;
          }
        }
        default
  }

  /** A non-negative count stored with `str` is read back unchanged. */
  lemma {:induction false} NumericFieldRoundTrip(n: nat, default: int)
    ensures ParseNumericField(VStr(PyStr(VInt(n))), default) == n
  {
    NatToStringValue(n);
  }

  /** A negative count stored with `str` is read back as the default. */
  lemma {:induction false} NegativeNumericFieldIsDefault(n: int, default: int)
    requires n < 0
    ensures ParseNumericField(VStr(PyStr(VInt(n))), default) == default
  {
    var s := PyStr(VInt(n));
    assert s[0] == '-' && s[0] in s;
  }

  // ---------------------------------------------------------------------------
  // Add-tag validation
  // ---------------------------------------------------------------------------

  datatype ValidationError =
    | MissingField(field: string)
    | NegativeOffset
    | StartNotBeforeEnd
    | OffsetNotInteger

  /** The message the service returns for each failure. */
  function ValidationMessage(e: ValidationError): string {
    match e
    case MissingField(f) => f + "은(는) 필수 필드입니다."
    case NegativeOffset => "오프셋은 음수가 될 수 없습니다."
    case StartNotBeforeEnd => "시작 오프셋은 끝 오프셋보다 작아야 합니다."
    case OffsetNotInteger => "오프셋은 정수여야 합니다."
  }

  const RequiredFields: seq<string> := ["document_id", "pii_category", "span_text", "start_offset", "end_offset"]

  /** The field is a key of the request and its value is truthy. */
  predicate Present(data: Fields, field: string) {
    field in data && Truthy(data[field])
  }

  /** The first of `fields` that is absent or falsy. */
  function FirstMissing(data: Fields, fields: seq<string>): (r: Option<string>)
    ensures r.None? <==> forall f :: f in fields ==> Present(data, f)
    ensures r.Some? ==> exists i :: 0 <= i < |fields| && fields[i] == r.value && !Present(data, fields[i]) &&
                                   forall j :: 0 <= j < i ==> Present(data, fields[j])
  {
    if |fields| == 0 then None
    else if !Present(data, fields[0]) then Some(fields[0])
    else
      var r := FirstMissing(data, fields[1..]);
      assert forall f :: f in fields ==> f == fields[0] || f in fields[1..];
      if r.Some? then
        assert exists i :: 0 <= i < |fields| && fields[i] == r.value && !Present(data, fields[i]) &&
                           forall j :: 0 <= j < i ==> Present(data, fields[j]) by {
          var i :| 0 <= i < |fields[1..]| && fields[1..][i] == r.value && !Present(data, fields[1..][i]) &&
                   forall j :: 0 <= j < i ==> Present(data, fields[1..][j]);
          assert fields[i + 1] == r.value;
          forall j | 0 <= j < i + 1 ensures Present(data, fields[j]) {
            if j > 0 { assert fields[j] == fields[1..][j - 1]; }
          }
        }
        r
      else r
  }

  /** The offset checks, once both offsets went through `int()`. */
  function OffsetError(start: Option<int>, end: Option<int>): Option<ValidationError> {
    if start.None? || end.None? then Some(OffsetNotInteger)
    else if start.value < 0 || end.value < 0 then Some(NegativeOffset)
    else if start.value >= end.value then Some(StartNotBeforeEnd)
    else None
  }

  /** Everything required is there and the offsets are integers with 0 <= start < end. */
  predicate ValidTagData(data: Fields) {
    (forall f :: f in RequiredFields ==> Present(data, f)) &&
    var s := PyInt(Get(data, "start_offset", VNone));
    var e := PyInt(Get(data, "end_offset", VNone));
    s.Some? && e.Some? && 0 <= s.value < e.value
  }

  /** What validate_pii_tag_data reports; None stands for `(True, None)`. */
  function Validation(data: Fields): (r: Option<ValidationError>)
    ensures r.None? <==> ValidTagData(data)
    ensures r.Some? && r.value.MissingField? ==> FirstMissing(data, RequiredFields) == Some(r.value.field)
    ensures FirstMissing(data, RequiredFields).None? ==>
              r == OffsetError(PyInt(Get(data, "start_offset", VNone)), PyInt(Get(data, "end_offset", VNone)))
  {
    match FirstMissing(data, RequiredFields)
    case Some(f) => Some(MissingField(f))
    case None =>
      assert "start_offset" in RequiredFields && "end_offset" in RequiredFields;
      OffsetError(PyInt(data["start_offset"]), PyInt(data["end_offset"]))
  }

  /** validate_pii_tag_data: required fields in order, then integer offsets with start < end. */
  method ValidatePiiTagData(data: Fields) returns (isValid: bool, error: Option<ValidationError>)
    ensures error == Validation(data)
    ensures isValid <==> error.None?
  {
    var i := 0;
    while i < |RequiredFields|
      invariant 0 <= i <= |RequiredFields|
      invariant FirstMissing(data, RequiredFields) == FirstMissing(data, RequiredFields[i..])
    {
      var field := RequiredFields[i];
      if field !in data || !Truthy(data[field]) {
        return false, Some(MissingField(field));
      }
      assert RequiredFields[i..][1..] == RequiredFields[i + 1..];
      i := i + 1;
    }
    assert "start_offset" in RequiredFields && "end_offset" in RequiredFields;
    var startOffset := PyInt(data["start_offset"]);
    var endOffset := PyInt(data["end_offset"]);
    if startOffset.None? || endOffset.None? {
      return false, Some(OffsetNotInteger);
    }
    if startOffset.value < 0 || endOffset.value < 0 {
      return false, Some(NegativeOffset);
    }
    if startOffset.value >= endOffset.value {
      return false, Some(StartNotBeforeEnd);
    }
    return true, None;
  }

  /** An offset of 0 is falsy, so a tag starting at position 0 is reported as missing its start. */
  lemma {:induction false} ZeroStartIsMissing(data: Fields)
    requires Present(data, "document_id") && Present(data, "pii_category") && Present(data, "span_text")
    requires "start_offset" in data && data["start_offset"] == VInt(0)
    ensures Validation(data) == Some(MissingField("start_offset"))
  {
    var r := FirstMissing(data, RequiredFields);
    assert !Present(data, RequiredFields[3]);
    assert Present(data, RequiredFields[0]) && Present(data, RequiredFields[1]) && Present(data, RequiredFields[2]);
  }
}
