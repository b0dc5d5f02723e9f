/** Which stored values are checklist definitions, and of which, as a relation between the
    two rather than a way of reading. */
module StoredDefinitions {
  import opened Wrappers
  import opened Text
  import opened ChecklistDefinition

  /** A text that says this, perhaps with space around it. */
  predicate SaysText(value: Json, text: string) {
    value.JString? && Trim(value.text) == text
  }

  /** The letter itself, or its capital. */
  predicate SaysLetter(said: char, c: char) {
    said == c || ('A' <= said <= 'Z' && c as int == said as int - 'A' as int + 'a' as int)
  }

  /** An id in either letter case. */
  predicate SaysId(value: Json, id: string) {
    && value.JString? && |value.text| == |id|
    && forall i :: 0 <= i < |id| ==> SaysLetter(value.text[i], id[i])
  }

  predicate StoresItem(value: Json, item: Item) {
    && value.JObject? && value.fields.Keys == {"id", "label", "required", "answerType"}
    && SaysId(value.fields["id"], item.id) && SaysText(value.fields["label"], item.prompt)
    && value.fields["required"] == JBool(item.required)
    && value.fields["answerType"] == JString("NORMAL_ABNORMAL")
  }

  predicate StoresItems(values: seq<Json>, items: seq<Item>) {
    |values| == |items| && forall j :: 0 <= j < |items| ==> StoresItem(values[j], items[j])
  }

  predicate StoresSection(value: Json, section: Section) {
    && value.JObject? && value.fields.Keys == {"id", "title", "items"}
    && SaysId(value.fields["id"], section.id) && SaysText(value.fields["title"], section.title)
    && value.fields["items"].JArray? && StoresItems(value.fields["items"].elements, section.items)
  }

  predicate StoresSections(values: seq<Json>, sections: Definition) {
    |values| == |sections| && forall i :: 0 <= i < |sections| ==> StoresSection(values[i], sections[i])
  }

  /** The stored value is an object of version 1 with these sections and nothing else. */
  predicate Stores(value: Json, sections: Definition) {
    && value.JObject? && value.fields.Keys == {"schemaVersion", "sections"}
    && value.fields["schemaVersion"] == JNumber(1)
    && value.fields["sections"].JArray? && StoresSections(value.fields["sections"].elements, sections)
  }

  lemma LowerIs(value: Json, id: string)
    requires value.JString? && Lower(value.text) == id
    ensures SaysId(value, id)
  {
  }

  lemma SaidIdIsLower(value: Json, id: string)
    requires SaysId(value, id) && Lower(id) == id
    ensures Lower(value.text) == id
  {
    forall i | 0 <= i < |id| ensures Lower(value.text)[i] == id[i] {
      assert Lower(id)[i] == id[i];
    }
  }

  lemma ItemStored(value: Json, item: Item)
    requires IdCanonical(item.id) && TextCanonical(item.prompt, MAX_LABEL)
    ensures StoresItem(value, item) <==> ItemFits(value) && ReadItem(value) == item
  {
    if ItemFits(value) && ReadItem(value) == item {
      LowerIs(value.fields["id"], item.id);
    }
    if StoresItem(value, item) {
      SaidIdIsLower(value.fields["id"], item.id);
      LowerKeepsUuid(value.fields["id"].text);
    }
  }

  lemma ItemsStored(values: seq<Json>, items: seq<Item>)
    requires forall j :: 0 <= j < |items| ==> IdCanonical(items[j].id) && TextCanonical(items[j].prompt, MAX_LABEL)
    ensures StoresItems(values, items) <==> ItemsFit(values) && ReadItems(values) == items
  {
    if |values| == |items| {
      forall j | 0 <= j < |items|
        ensures StoresItem(values[j], items[j]) <==> ItemFits(values[j]) && ReadItem(values[j]) == items[j]
      {
        ItemStored(values[j], items[j]);
      }
      if StoresItems(values, items) {
        assert ReadItems(values) == items;
      }
      if ItemsFit(values) && ReadItems(values) == items {
        forall j | 0 <= j < |items| ensures StoresItem(values[j], items[j]) {
          assert ReadItems(values)[j] == items[j] && ItemFits(values[j]);
        }
      }
    }
  }

  lemma SectionStored(value: Json, section: Section)
    requires SectionCanonical(section)
    ensures StoresSection(value, section) <==> SectionFits(value) && ReadSection(value) == section
  {
    if SectionFits(value) && ReadSection(value) == section {
      LowerIs(value.fields["id"], section.id);
      ItemsStored(value.fields["items"].elements, section.items);
    }
    if StoresSection(value, section) {
      SaidIdIsLower(value.fields["id"], section.id);
      LowerKeepsUuid(value.fields["id"].text);
      ItemsStored(value.fields["items"].elements, section.items);
    }
  }

  lemma SectionsStored(values: seq<Json>, sections: Definition)
    requires forall i :: 0 <= i < |sections| ==> SectionCanonical(sections[i])
    ensures StoresSections(values, sections) <==> SectionsFit(values) && ReadSections(values) == sections
  {
    if |values| == |sections| {
      forall i | 0 <= i < |sections|
        ensures StoresSection(values[i], sections[i])
                <==> SectionFits(values[i]) && ReadSection(values[i]) == sections[i]
      {
        SectionStored(values[i], sections[i]);
      }
      if StoresSections(values, sections) {
        assert ReadSections(values) == sections;
      }
      if SectionsFit(values) && ReadSections(values) == sections {
        forall i | 0 <= i < |sections| ensures StoresSection(values[i], sections[i]) {
          assert ReadSections(values)[i] == sections[i] && SectionFits(values[i]);
        }
      }
    }
  }

  lemma RootHolds(value: Json)
    requires RootFits(value)
    ensures value.JObject? && value.fields.Keys == {"schemaVersion", "sections"}
    ensures value.fields["schemaVersion"] == JNumber(1) && value.fields["sections"].JArray?
  {
  }

  lemma ParsedStores(value: Json, sections: Definition)
    requires Parse(value) == Some(sections)
    ensures Stores(value, sections) && Canonical(sections)
  {
    assert Canonical(sections) by {
      ParseYieldsCanonical(sections);
    }
    RootHolds(value);
    SectionsStored(value.fields["sections"].elements, sections);
  }

  lemma StoredParses(value: Json, sections: Definition)
    requires Stores(value, sections) && Canonical(sections)
    ensures Parse(value) == Some(sections)
  {
    SectionsStored(value.fields["sections"].elements, sections);
  }

  /** A stored value means a definition exactly if it stores its sections and they are
      canonical; what else it may hold, it means nothing. */
  lemma ParseIff(value: Json, sections: Definition)
    ensures Parse(value) == Some(sections) <==> Stores(value, sections) && Canonical(sections)
  {
    if Stores(value, sections) && Canonical(sections) {
      StoredParses(value, sections);
    } else if Parse(value) == Some(sections) {
      ParsedStores(value, sections);
    }
  }

  // ---------------------------------------------------------------- the ids and the items of a definition

  lemma {:induction false} ItemIdsMean(items: seq<Item>)
    ensures |ItemIds(items)| == |items| && forall j :: 0 <= j < |items| ==> ItemIds(items)[j] == items[j].id
  {
    if items != [] {
      ItemIdsMean(items[..|items| - 1]);
    }
  }

  /** The ids of a section are its own and then those of its items, in order. */
  lemma SectionIdsMean(section: Section)
    ensures var ids := IdsOf([section]);
            && |ids| == 1 + |section.items| && ids[0] == section.id
            && forall j :: 0 <= j < |section.items| ==> ids[j + 1] == section.items[j].id
    ensures TotalItems([section]) == |section.items|
  {
    ItemIdsMean(section.items);
    assert [section][..0] == [];
    assert IdsOf([section]) == [] + SectionIds(section);
  }

  lemma LastStep(front: Definition, last: Section)
    ensures IdsOf(front + [last]) == IdsOf(front) + SectionIds(last)
    ensures TotalItems(front + [last]) == TotalItems(front) + |last.items|
  {
    assert (front + [last])[..|front|] == front;
  }

  lemma Regrouped(a: seq<string>, b: seq<string>, c: seq<string>)
    ensures (a + b) + c == a + (b + c)
  {
  }

  /** The ids of a definition are those of its parts one after the other. */
  lemma {:induction false} IdsTogether(first: Definition, second: Definition)
    ensures IdsOf(first + second) == IdsOf(first) + IdsOf(second)
  {
    if second == [] {
      assert first + second == first;
    } else {
      var front, last := second[..|second| - 1], second[|second| - 1];
      IdsTogether(first, front);
      LastStep(first + front, last);
      assert first + second == (first + front) + [last];
      Regrouped(IdsOf(first), IdsOf(front), SectionIds(last));
    }
  }

  /** And its items are theirs together. */
  lemma {:induction false} ItemsTogether(first: Definition, second: Definition)
    ensures TotalItems(first + second) == TotalItems(first) + TotalItems(second)
  {
    if second == [] {
      assert first + second == first;
    } else {
      var front, last := second[..|second| - 1], second[|second| - 1];
      ItemsTogether(first, front);
      LastStep(first + front, last);
      assert first + second == (first + front) + [last];
    }
  }
}
