/** Checklist definitions: building one from an administrator's input and reading
    one back from its stored form. */
module ChecklistDefinition {
  import opened Wrappers
  import opened Text

  const MAX_ITEMS := 500
  const MAX_SECTIONS := 20
  const MAX_SECTION_ITEMS := 50
  const MAX_TITLE := 150
  const MAX_LABEL := 300

  datatype Json =
    | JNull
    | JBool(flag: bool)
    | JNumber(number: int)
    | JString(text: string)
    | JArray(elements: seq<Json>)
    | JObject(fields: map<string, Json>)

  datatype Item = Item(id: string, prompt: string, required: bool)

  datatype Section = Section(id: string, title: string, items: seq<Item>)

  type Definition = seq<Section>

  // ---------------------------------------------------------------- the ids of a definition

  function ItemIds(items: seq<Item>): seq<string> {
    if items == [] then [] else ItemIds(items[..|items| - 1]) + [items[|items| - 1].id]
  }

  function SectionIds(section: Section): seq<string> {
    [section.id] + ItemIds(section.items)
  }

  /** All ids in document order. */
  function IdsOf(sections: Definition): seq<string> {
    if sections == [] then [] else IdsOf(sections[..|sections| - 1]) + SectionIds(sections[|sections| - 1])
  }

  function TotalItems(sections: Definition): nat {
    if sections == [] then 0
    else TotalItems(sections[..|sections| - 1]) + |sections[|sections| - 1].items|
  }

  predicate Distinct(ids: seq<string>) {
    forall i, j :: 0 <= i < j < |ids| ==> ids[i] != ids[j]
  }

  function Elements(ids: seq<string>): set<string> {
    set id | id in ids
  }

  lemma DistinctAppend(ids: seq<string>, id: string)
    ensures Distinct(ids + [id]) <==> Distinct(ids) && id !in ids
    ensures Elements(ids + [id]) == Elements(ids) + {id}
  {
    var longer := ids + [id];
    if Distinct(longer) {
      forall i, j | 0 <= i < j < |ids| ensures ids[i] != ids[j] {
        assert longer[i] != longer[j];
      }
      forall i | 0 <= i < |ids| ensures ids[i] != id {
        assert longer[i] != longer[|ids|];
      }
    }
  }

  lemma DistinctPrefix(ids: seq<string>, more: seq<string>)
    requires Distinct(ids + more)
    ensures Distinct(ids)
  {
    forall i, j | 0 <= i < j < |ids| ensures ids[i] != ids[j] {
      assert (ids + more)[i] != (ids + more)[j];
    }
  }

  lemma RepeatedPrefix(before: seq<string>, prefix: seq<string>, ids: seq<string>)
    requires !Distinct(before + prefix) && prefix <= ids
    ensures !Distinct(before + ids)
  {
    assert before + ids == (before + prefix) + ids[|prefix|..];
    if Distinct(before + ids) {
      DistinctPrefix(before + prefix, ids[|prefix|..]);
    }
  }

  lemma {:induction false} IdsOfGrow(sections: Definition, n: nat)
    requires n <= |sections|
    ensures IdsOf(sections[..n]) <= IdsOf(sections)
  {
    if n == |sections| {
      assert sections[..n] == sections;
    } else {
      IdsOfGrow(sections[..|sections| - 1], n);
      assert sections[..|sections| - 1][..n] == sections[..n];
    }
  }

  lemma {:induction false} ItemIdsGrow(items: seq<Item>, n: nat)
    requires n <= |items|
    ensures ItemIds(items[..n]) <= ItemIds(items)
  {
    if n == |items| {
      assert items[..n] == items;
    } else {
      ItemIdsGrow(items[..|items| - 1], n);
      assert items[..|items| - 1][..n] == items[..n];
    }
  }

  lemma {:induction false} TotalItemsGrows(sections: Definition, n: nat)
    requires n <= |sections|
    ensures TotalItems(sections[..n]) <= TotalItems(sections)
  {
    if n < |sections| {
      var front := sections[..|sections| - 1];
      TotalItemsGrows(front, n);
      assert front[..n] == sections[..n];
    } else {
      assert sections[..n] == sections;
    }
  }

  // ---------------------------------------------------------------- the stored form

  /** A text that is kept after trimming. */
  predicate TextFits(value: Json, maximum: nat) {
    value.JString? && 1 <= |Trim(value.text)| <= maximum
  }

  predicate Has(value: Json, key: string) {
    value.JObject? && key in value.fields
  }

  predicate ItemFits(value: Json) {
    && value.JObject? && value.fields.Keys <= {"id", "label", "required", "answerType"}
    && Has(value, "id") && value.fields["id"].JString? && IsUuidV4(value.fields["id"].text)
    && Has(value, "label") && TextFits(value.fields["label"], MAX_LABEL)
    && Has(value, "required") && value.fields["required"].JBool?
    && Has(value, "answerType") && value.fields["answerType"] == JString("NORMAL_ABNORMAL")
  }

  predicate ItemsFit(values: seq<Json>) {
    forall j {:trigger ItemFits(values[j])} :: 0 <= j < |values| ==> ItemFits(values[j])
  }

  predicate SectionHeadFits(value: Json) {
    && value.JObject? && value.fields.Keys <= {"id", "title", "items"}
    && Has(value, "id") && value.fields["id"].JString? && IsUuidV4(value.fields["id"].text)
    && Has(value, "title") && TextFits(value.fields["title"], MAX_TITLE)
    && Has(value, "items") && value.fields["items"].JArray?
    && 1 <= |value.fields["items"].elements| <= MAX_SECTION_ITEMS
  }

  predicate SectionFits(value: Json) {
    SectionHeadFits(value) && ItemsFit(value.fields["items"].elements)
  }

  predicate RootFits(value: Json) {
    && value.JObject? && value.fields.Keys <= {"schemaVersion", "sections"}
    && Has(value, "schemaVersion") && value.fields["schemaVersion"] == JNumber(1)
    && Has(value, "sections") && value.fields["sections"].JArray?
    && 1 <= |value.fields["sections"].elements| <= MAX_SECTIONS
  }

  predicate SectionsFit(values: seq<Json>) {
    forall i {:trigger SectionFits(values[i])} :: 0 <= i < |values| ==> SectionFits(values[i])
  }

  predicate Fits(value: Json) {
    && RootFits(value)
    && SectionsFit(value.fields["sections"].elements)
  }

  function ReadItem(value: Json): Item
    requires ItemFits(value)
  {
    Item(Lower(value.fields["id"].text), Trim(value.fields["label"].text), value.fields["required"].flag)
  }

  function ReadItems(values: seq<Json>): seq<Item>
    requires ItemsFit(values)
  {
    seq(|values|, j requires 0 <= j < |values| => ReadItem(values[j]))
  }

  function ReadSection(value: Json): Section
    requires SectionFits(value)
  {
    Section(Lower(value.fields["id"].text), Trim(value.fields["title"].text),
            ReadItems(value.fields["items"].elements))
  }

  function ReadSections(values: seq<Json>): Definition
    requires SectionsFit(values)
  {
    seq(|values|, i requires 0 <= i < |values| => ReadSection(values[i]))
  }

  /** What a stored value means: a definition if every part fits, there are not
      too many items and no id is used twice; nothing otherwise. */
  function Parse(value: Json): Option<Definition> {
    if !Fits(value) then None
    else
      var sections := ReadSections(value.fields["sections"].elements);
      if TotalItems(sections) <= MAX_ITEMS && Distinct(IdsOf(sections)) then Some(sections) else None
  }

  function ItemToJson(item: Item): Json {
    JObject(map["id" := JString(item.id), "label" := JString(item.prompt), "required" := JBool(item.required),
                "answerType" := JString("NORMAL_ABNORMAL")])
  }

  function SectionToJson(section: Section): Json {
    JObject(map["id" := JString(section.id), "title" := JString(section.title),
                "items" := JArray(seq(|section.items|, j requires 0 <= j < |section.items| =>
                                    ItemToJson(section.items[j])))])
  }

  function SectionsToJson(sections: Definition): seq<Json> {
    seq(|sections|, i requires 0 <= i < |sections| => SectionToJson(sections[i]))
  }

  function ToJson(sections: Definition): Json {
    JObject(map["schemaVersion" := JNumber(1), "sections" := JArray(SectionsToJson(sections))])
  }

  predicate TextCanonical(text: string, maximum: nat) {
    Trimmed(text) && 1 <= |text| <= maximum
  }

  predicate IdCanonical(id: string) {
    IsUuidV4(id) && Lower(id) == id
  }

  predicate SectionCanonical(section: Section) {
    && IdCanonical(section.id) && TextCanonical(section.title, MAX_TITLE)
    && 1 <= |section.items| <= MAX_SECTION_ITEMS
    && forall j :: 0 <= j < |section.items| ==>
         IdCanonical(section.items[j].id) && TextCanonical(section.items[j].prompt, MAX_LABEL)
  }

  /** Within the limits, normalized, and without a repeated id. */
  predicate Canonical(sections: Definition) {
    && 1 <= |sections| <= MAX_SECTIONS && TotalItems(sections) <= MAX_ITEMS && Distinct(IdsOf(sections))
    && forall i :: 0 <= i < |sections| ==> SectionCanonical(sections[i])
  }

  lemma SectionReadsBack(section: Section)
    requires SectionCanonical(section)
    ensures SectionFits(SectionToJson(section)) && ReadSection(SectionToJson(section)) == section
  {
    var values := SectionToJson(section).fields["items"].elements;
    forall j | 0 <= j < |values| ensures ItemFits(values[j]) && ReadItem(values[j]) == section.items[j] {
      TrimmedStays(section.items[j].prompt);
    }
    TrimmedStays(section.title);
    assert ReadItems(values) == section.items;
  }

  lemma SectionsReadBack(sections: Definition)
    requires forall i :: 0 <= i < |sections| ==> SectionCanonical(sections[i])
    ensures SectionsFit(SectionsToJson(sections)) && ReadSections(SectionsToJson(sections)) == sections
  {
    var values := SectionsToJson(sections);
    forall i | 0 <= i < |values| ensures SectionFits(values[i]) && ReadSection(values[i]) == sections[i] {
      SectionReadsBack(sections[i]);
    }
  }

  /** Whatever is canonical reads back unchanged. */
  lemma RoundTrip(sections: Definition)
    requires Canonical(sections)
    ensures Parse(ToJson(sections)) == Some(sections)
  {
    SectionsReadBack(sections);
  }

  lemma ReadIsCanonical(value: Json)
    requires SectionFits(value)
    ensures SectionCanonical(ReadSection(value))
  {
    TrimTrims(value.fields["title"].text);
    LowerKeepsUuid(value.fields["id"].text);
    var values := value.fields["items"].elements;
    forall j | 0 <= j < |values|
      ensures IdCanonical(ReadItem(values[j]).id) && TextCanonical(ReadItem(values[j]).prompt, MAX_LABEL)
    {
      assert ItemFits(values[j]);
      TrimTrims(values[j].fields["label"].text);
      LowerKeepsUuid(values[j].fields["id"].text);
    }
  }

  /** Reading only ever yields canonical definitions, and yields every one of them. */
  lemma ParseYieldsCanonical(sections: Definition)
    ensures Canonical(sections) <==> exists value :: Parse(value) == Some(sections)
  {
    if Canonical(sections) {
      RoundTrip(sections);
    }
    if value :| Parse(value) == Some(sections) {
      forall i | 0 <= i < |sections| ensures SectionCanonical(sections[i]) {
        ReadIsCanonical(value.fields["sections"].elements[i]);
      }
    }
  }

  // ---------------------------------------------------------------- reading with loops

  /** The ids read from the first n values. */
  function ReadItemIds(values: seq<Json>, n: nat): seq<string>
    requires n <= |values| && ItemsFit(values[..n])
  {
    ItemIds(ReadItems(values[..n]))
  }

  lemma ReadItemStep(values: seq<Json>, n: nat)
    requires n < |values| && ItemsFit(values[..n]) && ItemFits(values[n])
    ensures ItemsFit(values[..n + 1])
    ensures ReadItems(values[..n + 1]) == ReadItems(values[..n]) + [ReadItem(values[n])]
    ensures ReadItemIds(values, n + 1) == ReadItemIds(values, n) + [ReadItem(values[n]).id]
  {
    var items := ReadItems(values[..n + 1]);
    assert items == ReadItems(values[..n]) + [ReadItem(values[n])];
    assert items[..n] == ReadItems(values[..n]);
  }

  /** Ids that repeat among the first values repeat among all. */
  lemma RepeatedItemIds(before: seq<string>, values: seq<Json>, n: nat)
    requires n <= |values| && ItemsFit(values)
    requires ItemsFit(values[..n]) && !Distinct(before + ReadItemIds(values, n))
    ensures !Distinct(before + ItemIds(ReadItems(values)))
  {
    ReadPrefix(values, n);
    ItemIdsGrow(ReadItems(values), n);
    RepeatedPrefix(before, ReadItemIds(values, n), ItemIds(ReadItems(values)));
  }

  lemma ReadPrefix(values: seq<Json>, n: nat)
    requires n <= |values| && ItemsFit(values) && ItemsFit(values[..n])
    ensures ReadItems(values)[..n] == ReadItems(values[..n])
  {
  }

  /** Claims an id that was read: the ids used so far are `before`. */
  method ClaimRead(id: string, used: set<string>, ghost before: seq<string>)
    returns (ok: bool, nowUsed: set<string>)
    requires Distinct(before) && used == Elements(before)
    ensures ok <==> Distinct(before + [id])
    ensures ok ==> nowUsed == Elements(before + [id])
  {
    DistinctAppend(before, id);
    return id !in used, used + {id};
  }

  method ParseItems(values: seq<Json>, used: set<string>, ghost before: seq<string>)
    returns (r: Option<seq<Item>>, nowUsed: set<string>)
    requires Distinct(before) && used == Elements(before)
    ensures r.Some? <==> ItemsFit(values) && Distinct(before + ItemIds(ReadItems(values)))
    ensures r.Some? ==> r.value == ReadItems(values) && nowUsed == Elements(before + ItemIds(r.value))
  {
    var items: seq<Item> := [];
    nowUsed := used;
    var j := 0;
    assert values[..0] == [] && before + [] == before;
    while j < |values|
      invariant 0 <= j <= |values| && ItemsFit(values[..j]) && items == ReadItems(values[..j])
      invariant Distinct(before + ReadItemIds(values, j)) && nowUsed == Elements(before + ReadItemIds(values, j))
    {
      if !ItemFits(values[j]) {
        return None, used;
      }
      ReadItemStep(values, j);
      ghost var ids, id := before + ReadItemIds(values, j), ReadItem(values[j]).id;
      assert before + ReadItemIds(values, j + 1) == ids + [id];
      var ok;
      ok, nowUsed := ClaimRead(ReadItem(values[j]).id, nowUsed, ids);
      if !ok {
        if ItemsFit(values) {
          RepeatedItemIds(before, values, j + 1);
        }
        return None, used;
      }
      items := items + [ReadItem(values[j])];
      j := j + 1;
    }
    assert values[..j] == values;
    return Some(items), nowUsed;
  }

  /** Ids that repeat within the head of a section repeat within the section. */
  lemma RepeatedHeadId(before: seq<string>, id: string, more: seq<string>)
    requires !Distinct(before + [id])
    ensures !Distinct(before + ([id] + more))
  {
    RepeatedPrefix(before, [id], [id] + more);
  }

  /** The claims and the count of one section whose own fields are in order. */
  method ParseMembers(id: string, values: seq<Json>, used: set<string>, total: nat, ghost before: seq<string>)
    returns (r: Option<seq<Item>>, nowUsed: set<string>)
    requires Distinct(before) && used == Elements(before)
    ensures r.Some? <==> && total + |values| <= MAX_ITEMS && ItemsFit(values)
                         && Distinct(before + ([id] + ItemIds(ReadItems(values))))
    ensures r.Some? ==> r.value == ReadItems(values) && nowUsed == Elements(before + ([id] + ItemIds(r.value)))
  {
    var ok;
    ok, nowUsed := ClaimRead(id, used, before);
    if !ok {
      if ItemsFit(values) {
        RepeatedHeadId(before, id, ItemIds(ReadItems(values)));
      }
      return None, used;
    }
    if total + |values| > MAX_ITEMS {
      return None, used;
    }
    r, nowUsed := ParseItems(values, nowUsed, before + [id]);
    if ItemsFit(values) {
      assert (before + [id]) + ItemIds(ReadItems(values)) == before + ([id] + ItemIds(ReadItems(values)));
    }
  }

  method ParseSection(value: Json, used: set<string>, total: nat, ghost before: seq<string>)
    returns (r: Option<Section>, nowUsed: set<string>)
    requires Distinct(before) && used == Elements(before)
    ensures r.Some? <==> && SectionFits(value) && total + |value.fields["items"].elements| <= MAX_ITEMS
                         && Distinct(before + SectionIds(ReadSection(value)))
    ensures r.Some? ==> r.value == ReadSection(value) && nowUsed == Elements(before + SectionIds(r.value))
  {
    if !SectionHeadFits(value) {
      return None, used;
    }
    var id, title := Lower(value.fields["id"].text), Trim(value.fields["title"].text);
    var items;
    items, nowUsed := ParseMembers(id, value.fields["items"].elements, used, total, before);
    if items.None? {
      return None, used;
    }
    return Some(Section(id, title, items.value)), nowUsed;
  }

  function ReadIds(values: seq<Json>, n: nat): seq<string>
    requires n <= |values| && SectionsFit(values[..n])
  {
    IdsOf(ReadSections(values[..n]))
  }

  function ReadTotal(values: seq<Json>, n: nat): nat
    requires n <= |values| && SectionsFit(values[..n])
  {
    TotalItems(ReadSections(values[..n]))
  }

  lemma ReadSectionStep(values: seq<Json>, n: nat)
    requires n < |values| && SectionsFit(values[..n]) && SectionFits(values[n])
    ensures SectionsFit(values[..n + 1])
    ensures ReadSections(values[..n + 1]) == ReadSections(values[..n]) + [ReadSection(values[n])]
    ensures ReadIds(values, n + 1) == ReadIds(values, n) + SectionIds(ReadSection(values[n]))
    ensures ReadTotal(values, n + 1) == ReadTotal(values, n) + |values[n].fields["items"].elements|
  {
    var sections := ReadSections(values[..n + 1]);
    assert sections == ReadSections(values[..n]) + [ReadSection(values[n])];
    assert sections[..n] == ReadSections(values[..n]);
  }

  /** What is wrong with the first sections is wrong with all of them. */
  lemma BadPrefix(values: seq<Json>, n: nat)
    requires n <= |values| && SectionsFit(values) && SectionsFit(values[..n])
    requires !(Distinct(ReadIds(values, n)) && ReadTotal(values, n) <= MAX_ITEMS)
    ensures !(Distinct(IdsOf(ReadSections(values))) && TotalItems(ReadSections(values)) <= MAX_ITEMS)
  {
    var sections := ReadSections(values);
    assert sections[..n] == ReadSections(values[..n]);
    IdsOfGrow(sections, n);
    TotalItemsGrows(sections, n);
    if !Distinct(ReadIds(values, n)) {
      assert [] + ReadIds(values, n) == ReadIds(values, n) && [] + IdsOf(sections) == IdsOf(sections);
      RepeatedPrefix([], ReadIds(values, n), IdsOf(sections));
    }
  }

  /** Reads a stored value section by section and item by item, with one set of
      used ids and one running total. */
  method ParseChecklistDefinition(value: Json) returns (r: Option<Definition>)
    ensures r == Parse(value)
  {
    if !RootFits(value) {
      return None;
    }
    var values := value.fields["sections"].elements;
    var sections: Definition, used: set<string>, total := [], {}, 0;
    var i := 0;
    while i < |values|
      invariant 0 <= i <= |values| && SectionsFit(values[..i]) && sections == ReadSections(values[..i])
      invariant Distinct(ReadIds(values, i)) && used == Elements(ReadIds(values, i))
      invariant total == ReadTotal(values, i) <= MAX_ITEMS
    {
      var section, nowUsed := ParseSection(values[i], used, total, ReadIds(values, i));
      if SectionFits(values[i]) {
        ReadSectionStep(values, i);
      }
      if section.None? {
        if SectionsFit(values) {
          BadPrefix(values, i + 1);
        }
        return None;
      }
      sections := sections + [section.value];
      used := nowUsed;
      total := total + |section.value.items|;
      i := i + 1;
    }
    assert values[..i] == values;
    return Some(sections);
  }
}
