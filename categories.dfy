/**
 * The command that seeds the PII categories from a list of entries: each
 * entry's value is looked up and, when no category has it yet, created with
 * the entry's background colour and a generated description.
 */
module CategoryLoader {
  import opened Model

  /** One entry of the category list: the category value and its background colour. */
  datatype CategoryEntry = CategoryEntry(value: string, background: string)

  /** The description a seeded category gets: its value followed by "관련 개인정보" ("related personal information"). */
  function Description(value: string): (r: string)
    ensures |r| > |value| && r[..|value|] == value
  {
    value + " 관련 개인정보"
  }

  /**
   * get_or_create on one entry: the categories afterwards, and whether a
   * new one was created. An existing category keeps its colour and
   * description.
   */
  function GetOrCreate(cats: map<string, Category>, entry: CategoryEntry): (r: (map<string, Category>, bool))
    ensures r.1 <==> entry.value !in cats
    ensures r.0.Keys == cats.Keys + {entry.value}
    ensures forall k :: k in cats ==> r.0[k] == cats[k]
    ensures entry.value !in cats ==> r.0[entry.value] == Category(entry.background, Description(entry.value))
  {
    if entry.value in cats then (cats, false)
    else (cats[entry.value := Category(entry.background, Description(entry.value))], true)
  }

  /** The categories after the entries, in order. */
  function Seeded(cats: map<string, Category>, entries: seq<CategoryEntry>): map<string, Category> {
    if |entries| == 0 then cats
    else GetOrCreate(Seeded(cats, entries[..|entries| - 1]), entries[|entries| - 1]).0
  }

  /** How many of the entries created a category. */
  function CreatedCount(cats: map<string, Category>, entries: seq<CategoryEntry>): nat {
    if |entries| == 0 then 0
    else
      var prior := entries[..|entries| - 1];
      CreatedCount(cats, prior) + (if GetOrCreate(Seeded(cats, prior), entries[|entries| - 1]).1 then 1 else 0)
  }

  /** A value has a category afterwards exactly when it had one before or some entry names it. */
  lemma {:induction false} SeededKeys(cats: map<string, Category>, entries: seq<CategoryEntry>, k: string)
    ensures k in Seeded(cats, entries) <==> k in cats || exists i :: 0 <= i < |entries| && entries[i].value == k
  {
    if |entries| > 0 {
      var prior := entries[..|entries| - 1];
      SeededKeys(cats, prior, k);
      if exists i :: 0 <= i < |entries| && entries[i].value == k {
        var i :| 0 <= i < |entries| && entries[i].value == k;
        if i < |prior| {
          assert prior[i].value == k;
        }
      }
      if exists i :: 0 <= i < |prior| && prior[i].value == k {
        var i :| 0 <= i < |prior| && prior[i].value == k;
        assert entries[i].value == k;
      }
    }
  }

  /** What a prefix of the entries left in place stays in place after the rest. */
  lemma {:induction false} SeededPrefix(cats: map<string, Category>, entries: seq<CategoryEntry>, j: nat, k: string)
    requires j <= |entries| && k in Seeded(cats, entries[..j])
    ensures k in Seeded(cats, entries) && Seeded(cats, entries)[k] == Seeded(cats, entries[..j])[k]
    decreases |entries|
  {
    if j < |entries| {
      var prior := entries[..|entries| - 1];
      assert prior[..j] == entries[..j];
      SeededPrefix(cats, prior, j, k);
    } else {
      assert entries[..j] == entries;
    }
  }

  /** A category that existed before the run is left exactly as it was. */
  lemma {:induction false} SeededKeepsExisting(cats: map<string, Category>, entries: seq<CategoryEntry>, k: string)
    requires k in cats
    ensures k in Seeded(cats, entries) && Seeded(cats, entries)[k] == cats[k]
  {
    assert entries[..0] == [];
    SeededPrefix(cats, entries, 0, k);
  }

  /**
   * A new category takes the colour of the first entry that names it, and
   * the generated description; later entries with the same value change
   * nothing.
   */
  lemma {:induction false} SeededNew(cats: map<string, Category>, entries: seq<CategoryEntry>, i: nat)
    requires i < |entries| && entries[i].value !in cats
    requires forall j :: 0 <= j < i ==> entries[j].value != entries[i].value
    ensures entries[i].value in Seeded(cats, entries) &&
            Seeded(cats, entries)[entries[i].value] ==
            Category(entries[i].background, Description(entries[i].value))
  {
    var k := entries[i].value;
    var before := entries[..i];
    SeededKeys(cats, before, k);
    assert entries[..i + 1][..i] == before;
    SeededPrefix(cats, entries, i + 1, k);
  }

  /** The count the run reports is the number of categories it added. */
  lemma {:induction false} CreatedCountIsNew(cats: map<string, Category>, entries: seq<CategoryEntry>)
    ensures cats.Keys <= Seeded(cats, entries).Keys
    ensures CreatedCount(cats, entries) == |Seeded(cats, entries).Keys| - |cats.Keys|
  {
    if |entries| > 0 {
      var prior := entries[..|entries| - 1];
      CreatedCountIsNew(cats, prior);
      var before := Seeded(cats, prior);
      var e := entries[|entries| - 1];
      if e.value !in before {
        assert |before.Keys + {e.value}| == |before.Keys| + 1;
      } else {
        assert before.Keys + {e.value} == before.Keys;
      }
    }
  }

  /** Entries whose values all have categories change nothing and create nothing. */
  lemma {:induction false} SeededNothingNew(cats: map<string, Category>, entries: seq<CategoryEntry>)
    requires forall i :: 0 <= i < |entries| ==> entries[i].value in cats
    ensures Seeded(cats, entries) == cats && CreatedCount(cats, entries) == 0
  {
    if |entries| > 0 {
      SeededNothingNew(cats, entries[..|entries| - 1]);
    }
  }

  /** Running the command a second time with the same entries changes nothing and reports zero. */
  lemma {:induction false} SeededIdempotent(cats: map<string, Category>, entries: seq<CategoryEntry>)
    ensures Seeded(Seeded(cats, entries), entries) == Seeded(cats, entries)
    ensures CreatedCount(Seeded(cats, entries), entries) == 0
  {
    forall i | 0 <= i < |entries| ensures entries[i].value in Seeded(cats, entries) {
      SeededKeys(cats, entries, entries[i].value);
    }
    SeededNothingNew(Seeded(cats, entries), entries);
  }

  lemma {:induction false} SeededSnoc(cats: map<string, Category>, entries: seq<CategoryEntry>, i: nat)
    requires i < |entries|
    ensures Seeded(cats, entries[..i + 1]) == GetOrCreate(Seeded(cats, entries[..i]), entries[i]).0
    ensures CreatedCount(cats, entries[..i + 1]) ==
            CreatedCount(cats, entries[..i]) + (if GetOrCreate(Seeded(cats, entries[..i]), entries[i]).1 then 1 else 0)
  {
    assert entries[..i + 1][..i] == entries[..i];
  }

  /** load_pii_categories: get_or_create for each entry, counting the categories created. */
  method LoadPiiCategories(store: Store, entries: seq<CategoryEntry>) returns (createdCount: nat)
    requires store.Valid()
    modifies store`categories
    ensures store.categories == Seeded(old(store.categories), entries)
    ensures createdCount == CreatedCount(old(store.categories), entries)
    ensures store.docs == old(store.docs) && store.tags == old(store.tags)
    ensures store.nextDocId == old(store.nextDocId) && store.nextTagId == old(store.nextTagId)
    ensures store.Valid()
  {
    ghost var cats0 := store.categories;
    createdCount := 0;
    for i := 0 to |entries|
      invariant store.categories == Seeded(cats0, entries[..i])
      invariant createdCount == CreatedCount(cats0, entries[..i])
      invariant store.docs == old(store.docs) && store.tags == old(store.tags)
      invariant store.nextDocId == old(store.nextDocId) && store.nextTagId == old(store.nextTagId)
      invariant store.Valid()
    {
      SeededSnoc(cats0, entries, i);
      var value := entries[i].value;
      var backgroundColor := entries[i].background;
      var created := value !in store.categories;
      if created {
        TagsWellFormedMono(store.tags, store.docs.Keys, store.docs.Keys, store.categories.Keys,
                           store.categories.Keys + {value}, store.nextTagId, store.nextTagId);
        store.categories := store.categories[value := Category(backgroundColor, Description(value))];
        createdCount := createdCount + 1;
      }
    }
    assert entries[..|entries|] == entries;
  }
}
