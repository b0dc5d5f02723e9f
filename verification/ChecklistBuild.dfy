/** Building a checklist definition from an administrator's sections. */
module ChecklistBuild {
  import opened Wrappers
  import opened Text
  import opened ChecklistDefinition

  datatype ItemInput = ItemInput(id: Option<string>, prompt: string, required: bool)

  datatype SectionInput = SectionInput(id: Option<string>, title: string, items: seq<ItemInput>)

  /** `OutOfDraws` is not an answer of the program: it stands for a build that
      needs more random ids than the ones at hand. */
  datatype BuildError = TooLarge | InvalidSectionId | InvalidItemId | DuplicateId | OutOfDraws

  // ---------------------------------------------------------------- supplied ids

  function Given(id: Option<string>): seq<string> {
    if id.Some? then [Lower(id.value)] else []
  }

  function ItemsGiven(items: seq<ItemInput>): seq<string> {
    if items == [] then [] else ItemsGiven(items[..|items| - 1]) + Given(items[|items| - 1].id)
  }

  function SectionGiven(section: SectionInput): seq<string> {
    Given(section.id) + ItemsGiven(section.items)
  }

  /** The ids the administrator supplied, in document order. */
  function AllGiven(sections: seq<SectionInput>): seq<string> {
    if sections == [] then [] else AllGiven(sections[..|sections| - 1]) + SectionGiven(sections[|sections| - 1])
  }

  function InputItems(sections: seq<SectionInput>): nat {
    if sections == [] then 0
    else InputItems(sections[..|sections| - 1]) + |sections[|sections| - 1].items|
  }

  lemma {:induction false} ItemsGivenGrow(items: seq<ItemInput>, n: nat)
    requires n <= |items|
    ensures ItemsGiven(items[..n]) <= ItemsGiven(items)
  {
    if n == |items| {
      assert items[..n] == items;
    } else {
      ItemsGivenGrow(items[..|items| - 1], n);
      assert items[..|items| - 1][..n] == items[..n];
    }
  }

  lemma {:induction false} AllGivenGrow(sections: seq<SectionInput>, n: nat)
    requires n <= |sections|
    ensures AllGiven(sections[..n]) <= AllGiven(sections)
  {
    if n == |sections| {
      assert sections[..n] == sections;
    } else {
      AllGivenGrow(sections[..|sections| - 1], n);
      assert sections[..|sections| - 1][..n] == sections[..n];
    }
  }

  lemma RepeatedStart(prefix: seq<string>, ids: seq<string>)
    requires !Distinct(prefix) && prefix <= ids
    ensures !Distinct(ids)
  {
    var i, j :| 0 <= i < j < |prefix| && prefix[i] == prefix[j];
    assert ids[i] == ids[j];
  }

  // ---------------------------------------------------------------- the definition being replaced

  function FindSection(current: Definition, id: string): Option<Section> {
    if current == [] then None
    else if Lower(current[|current| - 1].id) == id then Some(current[|current| - 1])
    else FindSection(current[..|current| - 1], id)
  }

  function ItemIdSet(section: Section): set<string> {
    set item | item in section.items :: Lower(item.id)
  }

  /** Every id of the definition being replaced. */
  function Reserved(current: Definition): set<string> {
    if current == [] then {}
    else
      var last := current[|current| - 1];
      Reserved(current[..|current| - 1]) + {Lower(last.id)} + ItemIdSet(last)
  }

  lemma {:induction false} FoundIsReserved(current: Definition, id: string)
    ensures FindSection(current, id).Some? ==>
              id in Reserved(current) && ItemIdSet(FindSection(current, id).value) <= Reserved(current)
  {
    if current != [] && Lower(current[|current| - 1].id) != id {
      FoundIsReserved(current[..|current| - 1], id);
    }
  }

  function Original(section: SectionInput, current: Definition): Option<Section> {
    if section.id.Some? && section.id.value != "" then FindSection(current, Lower(section.id.value)) else None
  }

  function OriginalIds(original: Option<Section>): set<string> {
    if original.Some? then ItemIdSet(original.value) else {}
  }

  predicate ItemIdValid(id: Option<string>, originals: set<string>) {
    id.Some? ==> id.value != "" && Lower(id.value) in originals
  }

  predicate ItemIdsValid(items: seq<ItemInput>, originals: set<string>) {
    forall j :: 0 <= j < |items| ==> ItemIdValid(items[j].id, originals)
  }

  /** Supplied ids name a section of the current definition and items of that section. */
  predicate SectionIdsValid(section: SectionInput, current: Definition) {
    && (section.id.Some? ==> Original(section, current).Some?)
    && ItemIdsValid(section.items, OriginalIds(Original(section, current)))
  }

  /** A section is supplied under an id that no section of the current definition has, in
      whatever letter case. */
  predicate UnknownSection(section: SectionInput, current: Definition) {
    && section.id.Some?
    && (section.id.value == "" || forall s :: s in current ==> Lower(s.id) != Lower(section.id.value))
  }

  lemma {:induction false} FindSectionMeans(current: Definition, id: string)
    ensures FindSection(current, id).None? <==> forall s :: s in current ==> Lower(s.id) != id
    ensures FindSection(current, id).Some? ==>
              FindSection(current, id).value in current && Lower(FindSection(current, id).value.id) == id
  {
    if current != [] {
      assert current == current[..|current| - 1] + [current[|current| - 1]];
      FindSectionMeans(current[..|current| - 1], id);
    }
  }

  lemma UnknownSectionIff(section: SectionInput, current: Definition)
    ensures UnknownSection(section, current) <==> section.id.Some? && Original(section, current).None?
  {
    if section.id.Some? {
      FindSectionMeans(current, Lower(section.id.value));
    }
  }

  /** Reserved are the ids of the current sections and of their items. */
  lemma {:induction false} ReservedMeans(current: Definition, id: string)
    ensures id in Reserved(current)
            <==> exists s :: && s in current
                             && (Lower(s.id) == id || exists item :: item in s.items && Lower(item.id) == id)
  {
    if current != [] {
      assert current == current[..|current| - 1] + [current[|current| - 1]];
      ReservedMeans(current[..|current| - 1], id);
    }
  }

  /** The first section with a wrong id, its own or one of its items'. */
  predicate FirstUnknownSection(sections: seq<SectionInput>, current: Definition, i: nat) {
    && i < |sections| && UnknownSection(sections[i], current)
    && forall j :: 0 <= j < i ==> SectionIdsValid(sections[j], current)
  }

  predicate FirstUnknownItem(sections: seq<SectionInput>, current: Definition, i: nat) {
    && i < |sections| && !UnknownSection(sections[i], current)
    && !ItemIdsValid(sections[i].items, OriginalIds(Original(sections[i], current)))
    && forall j :: 0 <= j < i ==> SectionIdsValid(sections[j], current)
  }

  /** What a refusal of the sections is about. */
  ghost predicate RefusedFor(sections: seq<SectionInput>, current: Definition, error: BuildError) {
    match error
    case InvalidSectionId => exists i: nat :: FirstUnknownSection(sections, current, i)
    case InvalidItemId => exists i: nat :: FirstUnknownItem(sections, current, i)
    case DuplicateId => !Distinct(AllGiven(sections))
    case OutOfDraws => true
    case TooLarge => false
  }

  predicate IdsValid(sections: seq<SectionInput>, current: Definition) {
    forall i :: 0 <= i < |sections| ==> SectionIdsValid(sections[i], current)
  }

  // ---------------------------------------------------------------- what is built

  /** A supplied id is kept, and a new one is drawn outside the current definition. */
  predicate IdFrom(supplied: Option<string>, id: string, reserved: set<string>, draws: seq<string>) {
    if supplied.Some? then id == Lower(supplied.value) else id in draws && id !in reserved
  }

  predicate ItemBuilt(input: ItemInput, item: Item, reserved: set<string>, draws: seq<string>) {
    IdFrom(input.id, item.id, reserved, draws) && item.prompt == Trim(input.prompt) && item.required == input.required
  }

  predicate ItemsBuilt(inputs: seq<ItemInput>, items: seq<Item>, reserved: set<string>, draws: seq<string>) {
    |items| == |inputs| && forall j :: 0 <= j < |items| ==> ItemBuilt(inputs[j], items[j], reserved, draws)
  }

  predicate SectionBuilt(input: SectionInput, section: Section, reserved: set<string>, draws: seq<string>) {
    && IdFrom(input.id, section.id, reserved, draws) && section.title == Trim(input.title)
    && ItemsBuilt(input.items, section.items, reserved, draws)
  }

  predicate Built(inputs: seq<SectionInput>, sections: Definition, reserved: set<string>, draws: seq<string>) {
    |sections| == |inputs| && forall i :: 0 <= i < |sections| ==> SectionBuilt(inputs[i], sections[i], reserved, draws)
  }

  // ---------------------------------------------------------------- allocating and claiming ids

  /** The ids claimed so far, the reserved ones, and the random ids still to come. */
  class IdPool {
    const reserved: set<string>
    const draws: seq<string>
    var at: nat
    var used: set<string>
    ghost var claimed: seq<string>
    ghost var given: seq<string>

    constructor (reserved: set<string>, draws: seq<string>)
      ensures this.reserved == reserved && this.draws == draws
      ensures Valid() && claimed == [] && given == []
    {
      this.reserved, this.draws, this.at, this.used := reserved, draws, 0, {};
      this.claimed, this.given := [], [];
    }

    /** Claimed ids are distinct; exactly the supplied ones among them are
        reserved; and the random ids passed over were taken. */
    ghost predicate Valid()
      reads this
    {
      && at <= |draws|
      && Distinct(claimed) && used == Elements(claimed)
      && Distinct(given) && used * reserved == Elements(given)
      && Elements(draws[..at]) <= reserved + used
    }

    /** Every random id at hand has been reserved or used. */
    ghost predicate Exhausted(claims: nat)
      reads this
    {
      Elements(draws) <= reserved + used && |used| <= claims
    }

    method AllocateId() returns (id: Option<string>)
      requires Valid()
      modifies this`at
      ensures at <= |draws|
      ensures id.Some? ==> id.value in draws && id.value !in reserved && id.value !in used
      ensures id.Some? ==> Elements(draws[..at]) <= reserved + used + {id.value}
      ensures id.None? ==> Elements(draws) <= reserved + used
    {
      while at < |draws|
        invariant at <= |draws| && Elements(draws[..at]) <= reserved + used
      {
        var candidate := draws[at];
        at := at + 1;
        assert draws[..at] == draws[..at - 1] + [candidate];
        if candidate !in reserved && candidate !in used {
          return Some(candidate);
        }
      }
      assert draws[..at] == draws;
      return None;
    }

    /** Claims the supplied id, or else an allocated one. */
    method ClaimId(supplied: Option<string>) returns (r: Result<string, BuildError>)
      requires Valid()
      requires supplied.Some? ==> Lower(supplied.value) in reserved
      modifies this
      ensures r.Ok? ==> && Valid() && claimed == old(claimed) + [r.value] && given == old(given) + Given(supplied)
                        && IdFrom(supplied, r.value, reserved, draws)
      ensures r.Err? ==> r.error == DuplicateId || r.error == OutOfDraws
      ensures r == Err(DuplicateId) ==> !Distinct(old(given) + Given(supplied))
      ensures r == Err(OutOfDraws) ==> Exhausted(|old(claimed)|)
    {
      var id;
      if supplied.Some? {
        id := Lower(supplied.value);
        DistinctAppend(given, id);
      } else {
        var drawn := AllocateId();
        if drawn.None? {
          ElementsCount(claimed);
          return Err(OutOfDraws);
        }
        id := drawn.value;
        assert given + [] == given;
      }
      DistinctAppend(claimed, id);
      if id in used {
        return Err(DuplicateId);
      }
      used := used + {id};
      claimed, given := claimed + [id], given + Given(supplied);
      return Ok(id);
    }
  }

  lemma {:induction false} ElementsCount(ids: seq<string>)
    ensures |Elements(ids)| <= |ids|
  {
    if ids != [] {
      var front, last := ids[..|ids| - 1], ids[|ids| - 1];
      ElementsCount(front);
      assert ids == front + [last];
      assert Elements(ids) == Elements(front) + {last};
    }
  }

  lemma ItemsGivenStep(items: seq<ItemInput>, j: nat)
    requires j < |items|
    ensures ItemsGiven(items[..j + 1]) == ItemsGiven(items[..j]) + Given(items[j].id)
  {
    assert items[..j + 1][..j] == items[..j];
  }

  lemma Regrouped(a: seq<string>, b: seq<string>, c: seq<string>)
    ensures (a + b) + c == a + (b + c)
  {
  }

  lemma ItemIdsStep(items: seq<Item>, item: Item)
    ensures ItemIds(items + [item]) == ItemIds(items) + [item.id]
  {
    assert (items + [item])[..|items|] == items;
  }

  method BuildItem(pool: IdPool, input: ItemInput, originals: set<string>) returns (r: Result<Item, BuildError>)
    requires pool.Valid() && originals <= pool.reserved
    modifies pool
    ensures r.Ok? ==> && pool.Valid() && pool.claimed == old(pool.claimed) + [r.value.id]
                      && pool.given == old(pool.given) + Given(input.id)
                      && ItemBuilt(input, r.value, pool.reserved, pool.draws) && ItemIdValid(input.id, originals)
    ensures r.Err? ==> r.error == InvalidItemId || r.error == DuplicateId || r.error == OutOfDraws
    ensures r == Err(InvalidItemId) ==> !ItemIdValid(input.id, originals)
    ensures r == Err(DuplicateId) ==> !Distinct(old(pool.given) + Given(input.id))
    ensures r == Err(OutOfDraws) ==> pool.Exhausted(|old(pool.claimed)|)
  {
    if input.id.Some? && (input.id.value == "" || Lower(input.id.value) !in originals) {
      return Err(InvalidItemId);
    }
    var id := pool.ClaimId(input.id);
    if id.Err? {
      return Err(id.error);
    }
    return Ok(Item(id.value, Trim(input.prompt), input.required));
  }

  predicate ItemDone(input: ItemInput, item: Item, pool: IdPool, originals: set<string>) {
    ItemBuilt(input, item, pool.reserved, pool.draws) && ItemIdValid(input.id, originals)
  }

  /** The first items are built from the first inputs. */
  predicate ItemsUpTo(inputs: seq<ItemInput>, items: seq<Item>, pool: IdPool, originals: set<string>) {
    && |items| <= |inputs|
    && forall k {:trigger ItemDone(inputs[k], items[k], pool, originals)} :: 0 <= k < |items| ==>
         ItemDone(inputs[k], items[k], pool, originals)
  }

  lemma ItemStep(inputs: seq<ItemInput>, items: seq<Item>, item: Item, pool: IdPool, originals: set<string>)
    requires ItemsUpTo(inputs, items, pool, originals) && |items| < |inputs|
    requires ItemDone(inputs[|items|], item, pool, originals)
    ensures ItemsUpTo(inputs, items + [item], pool, originals)
  {
    var longer := items + [item];
    forall k | 0 <= k < |longer| ensures ItemDone(inputs[k], longer[k], pool, originals) {
      if k < |items| {
        assert ItemDone(inputs[k], items[k], pool, originals);
      }
    }
  }

  lemma ItemsDone(inputs: seq<ItemInput>, items: seq<Item>, pool: IdPool, originals: set<string>)
    requires |items| == |inputs| && ItemsUpTo(inputs, items, pool, originals)
    ensures ItemsBuilt(inputs, items, pool.reserved, pool.draws) && ItemIdsValid(inputs, originals)
  {
    forall k | 0 <= k < |inputs|
      ensures ItemBuilt(inputs[k], items[k], pool.reserved, pool.draws) && ItemIdValid(inputs[k].id, originals)
    {
      assert ItemDone(inputs[k], items[k], pool, originals);
    }
  }

  /** Builds the items of one section. */
  method BuildItems(pool: IdPool, inputs: seq<ItemInput>, originals: set<string>)
    returns (r: Result<seq<Item>, BuildError>)
    requires pool.Valid() && originals <= pool.reserved
    modifies pool
    ensures r.Ok? ==> && pool.Valid() && pool.claimed == old(pool.claimed) + ItemIds(r.value)
                      && pool.given == old(pool.given) + ItemsGiven(inputs)
                      && ItemsBuilt(inputs, r.value, pool.reserved, pool.draws) && ItemIdsValid(inputs, originals)
    ensures r.Err? ==> r.error == InvalidItemId || r.error == DuplicateId || r.error == OutOfDraws
    ensures r == Err(InvalidItemId) ==> !ItemIdsValid(inputs, originals)
    ensures r == Err(DuplicateId) ==> !Distinct(old(pool.given) + ItemsGiven(inputs))
    ensures r == Err(OutOfDraws) ==> pool.Exhausted(|old(pool.claimed)| + |inputs|)
  {
    var items: seq<Item> := [];
    ghost var claimed, given := pool.claimed, pool.given;
    var j := 0;
    while j < |inputs|
      invariant 0 <= j <= |inputs| && |items| == j && pool.Valid()
      invariant ItemsUpTo(inputs, items, pool, originals)
      invariant pool.claimed == claimed + ItemIds(items) && |pool.claimed| == |claimed| + j
      invariant pool.given == given + ItemsGiven(inputs[..j])
    {
      ItemsGivenStep(inputs, j);
      Regrouped(given, ItemsGiven(inputs[..j]), Given(inputs[j].id));
      var item := BuildItem(pool, inputs[j], originals);
      if item.Err? {
        if item.error == DuplicateId {
          ItemsGivenGrow(inputs, j + 1);
          RepeatedPrefix(given, ItemsGiven(inputs[..j + 1]), ItemsGiven(inputs));
        }
        return Err(item.error);
      }
      ItemIdsStep(items, item.value);
      Regrouped(claimed, ItemIds(items), [item.value.id]);
      ItemStep(inputs, items, item.value, pool, originals);
      items := items + [item.value];
      j := j + 1;
    }
    assert inputs[..j] == inputs;
    ItemsDone(inputs, items, pool, originals);
    return Ok(items);
  }

  lemma AllGivenStep(inputs: seq<SectionInput>, i: nat)
    requires i < |inputs|
    ensures AllGiven(inputs[..i + 1]) == AllGiven(inputs[..i]) + SectionGiven(inputs[i])
    ensures InputItems(inputs[..i + 1]) == InputItems(inputs[..i]) + |inputs[i].items|
  {
    assert inputs[..i + 1][..i] == inputs[..i];
  }

  lemma IdsOfStep(sections: Definition, section: Section)
    ensures IdsOf(sections + [section]) == IdsOf(sections) + SectionIds(section)
    ensures TotalItems(sections + [section]) == TotalItems(sections) + |section.items|
  {
    assert (sections + [section])[..|sections|] == sections;
  }

  lemma {:induction false} ItemIdsCount(items: seq<Item>)
    ensures |ItemIds(items)| == |items|
  {
    if items != [] {
      ItemIdsCount(items[..|items| - 1]);
    }
  }

  lemma {:induction false} InputItemsGrow(inputs: seq<SectionInput>, n: nat)
    requires n <= |inputs|
    ensures InputItems(inputs[..n]) <= InputItems(inputs)
  {
    if n == |inputs| {
      assert inputs[..n] == inputs;
    } else {
      InputItemsGrow(inputs[..|inputs| - 1], n);
      assert inputs[..|inputs| - 1][..n] == inputs[..n];
    }
  }

  method BuildSection(pool: IdPool, input: SectionInput, current: Definition) returns (r: Result<Section, BuildError>)
    requires pool.Valid() && pool.reserved == Reserved(current)
    modifies pool
    ensures r.Ok? ==> && pool.Valid() && pool.claimed == old(pool.claimed) + SectionIds(r.value)
                      && pool.given == old(pool.given) + SectionGiven(input)
                      && SectionBuilt(input, r.value, pool.reserved, pool.draws) && SectionIdsValid(input, current)
    ensures r.Err? ==> r.error == InvalidSectionId || r.error == InvalidItemId || r.error == DuplicateId
                       || r.error == OutOfDraws
    ensures r == Err(InvalidSectionId) <==> UnknownSection(input, current)
    ensures r == Err(InvalidItemId) ==> !ItemIdsValid(input.items, OriginalIds(Original(input, current)))
    ensures r == Err(DuplicateId) ==> !Distinct(old(pool.given) + SectionGiven(input))
    ensures r == Err(OutOfDraws) ==> pool.Exhausted(|old(pool.claimed)| + 1 + |input.items|)
  {
    ghost var claimed, given := pool.claimed, pool.given;
    var original := Original(input, current);
    UnknownSectionIff(input, current);
    if input.id.Some? && original.None? {
      return Err(InvalidSectionId);
    }
    if input.id.Some? {
      FoundIsReserved(current, Lower(input.id.value));
      FoundHasId(current, Lower(input.id.value));
    }
    var id := pool.ClaimId(input.id);
    if id.Err? {
      if id.error == DuplicateId {
        Regrouped(given, Given(input.id), ItemsGiven(input.items));
        RepeatedPrefix(given, Given(input.id), SectionGiven(input));
      }
      return Err(id.error);
    }
    var items := BuildItems(pool, input.items, OriginalIds(original));
    Regrouped(given, Given(input.id), ItemsGiven(input.items));
    if items.Err? {
      return Err(items.error);
    }
    Regrouped(claimed, [id.value], ItemIds(items.value));
    return Ok(Section(id.value, Trim(input.title), items.value));
  }

  lemma {:induction false} FoundHasId(current: Definition, id: string)
    ensures FindSection(current, id).Some? ==> Lower(FindSection(current, id).value.id) == id
  {
    if current != [] && Lower(current[|current| - 1].id) != id {
      FoundHasId(current[..|current| - 1], id);
    }
  }

  predicate SectionDone(input: SectionInput, section: Section, pool: IdPool, current: Definition) {
    SectionBuilt(input, section, pool.reserved, pool.draws) && SectionIdsValid(input, current)
  }

  /** The first sections are built from the first inputs. */
  predicate DoneUpTo(inputs: seq<SectionInput>, sections: Definition, pool: IdPool, current: Definition) {
    && |sections| <= |inputs|
    && forall k {:trigger SectionDone(inputs[k], sections[k], pool, current)} :: 0 <= k < |sections| ==>
         SectionDone(inputs[k], sections[k], pool, current)
  }

  lemma DoneStep(inputs: seq<SectionInput>, sections: Definition, section: Section, pool: IdPool,
                 current: Definition)
    requires DoneUpTo(inputs, sections, pool, current) && |sections| < |inputs|
    requires SectionDone(inputs[|sections|], section, pool, current)
    ensures DoneUpTo(inputs, sections + [section], pool, current)
  {
    var longer := sections + [section];
    forall k | 0 <= k < |longer| ensures SectionDone(inputs[k], longer[k], pool, current) {
      if k < |sections| {
        assert SectionDone(inputs[k], sections[k], pool, current);
      }
    }
  }

  lemma DoneValid(inputs: seq<SectionInput>, sections: Definition, pool: IdPool, current: Definition)
    requires DoneUpTo(inputs, sections, pool, current)
    ensures forall j :: 0 <= j < |sections| ==> SectionIdsValid(inputs[j], current)
  {
    forall j | 0 <= j < |sections| ensures SectionIdsValid(inputs[j], current) {
      assert SectionDone(inputs[j], sections[j], pool, current);
    }
  }

  lemma SectionsDone(inputs: seq<SectionInput>, sections: Definition, pool: IdPool, current: Definition)
    requires |sections| == |inputs| && DoneUpTo(inputs, sections, pool, current)
    ensures Built(inputs, sections, pool.reserved, pool.draws) && IdsValid(inputs, current)
  {
    forall k | 0 <= k < |inputs|
      ensures SectionBuilt(inputs[k], sections[k], pool.reserved, pool.draws) && SectionIdsValid(inputs[k], current)
    {
      assert SectionDone(inputs[k], sections[k], pool, current);
    }
  }

  lemma {:induction false} IdsCount(sections: Definition)
    ensures |IdsOf(sections)| == |sections| + TotalItems(sections)
  {
    if sections != [] {
      IdsCount(sections[..|sections| - 1]);
      ItemIdsCount(sections[|sections| - 1].items);
    }
  }

  lemma {:induction false} DoneTotal(inputs: seq<SectionInput>, sections: Definition, pool: IdPool,
                                     current: Definition)
    requires |sections| == |inputs| && DoneUpTo(inputs, sections, pool, current)
    ensures TotalItems(sections) == InputItems(inputs)
  {
    if inputs != [] {
      var n := |inputs| - 1;
      forall k | 0 <= k < n ensures SectionDone(inputs[..n][k], sections[..n][k], pool, current) {
        assert SectionDone(inputs[k], sections[k], pool, current);
      }
      DoneTotal(inputs[..n], sections[..n], pool, current);
      assert SectionDone(inputs[n], sections[n], pool, current);
    }
  }

  /** The ids claimed for the first sections, and what that leaves for the next. */
  lemma BuiltCounts(inputs: seq<SectionInput>, sections: Definition, pool: IdPool, current: Definition)
    requires DoneUpTo(inputs, sections, pool, current)
    ensures |sections| == |inputs| ==> TotalItems(sections) == InputItems(inputs)
    ensures |sections| < |inputs| ==>
              |IdsOf(sections)| + 1 + |inputs[|sections|].items| <= |inputs| + InputItems(inputs)
  {
    var n := |sections|;
    forall k | 0 <= k < n ensures SectionDone(inputs[..n][k], sections[k], pool, current) {
      assert SectionDone(inputs[k], sections[k], pool, current);
    }
    DoneTotal(inputs[..n], sections, pool, current);
    IdsCount(sections);
    if n == |inputs| {
      assert inputs[..n] == inputs;
    } else {
      AllGivenStep(inputs, n);
      InputItemsGrow(inputs, n + 1);
    }
  }

  lemma RepeatedSections(inputs: seq<SectionInput>, i: nat)
    requires i <= |inputs| && !Distinct(AllGiven(inputs[..i]))
    ensures !Distinct(AllGiven(inputs))
  {
    AllGivenGrow(inputs, i);
    RepeatedStart(AllGiven(inputs[..i]), AllGiven(inputs));
  }

  lemma RefusedAt(inputs: seq<SectionInput>, current: Definition, i: nat, error: BuildError)
    requires i < |inputs| && forall j :: 0 <= j < i ==> SectionIdsValid(inputs[j], current)
    requires match error
             case InvalidSectionId => UnknownSection(inputs[i], current)
             case InvalidItemId =>
               && !UnknownSection(inputs[i], current)
               && !ItemIdsValid(inputs[i].items, OriginalIds(Original(inputs[i], current)))
             case DuplicateId => !Distinct(AllGiven(inputs[..i]) + SectionGiven(inputs[i]))
             case OutOfDraws => true
             case TooLarge => false
    ensures RefusedFor(inputs, current, error)
  {
    match error
    case InvalidSectionId => assert FirstUnknownSection(inputs, current, i);
    case InvalidItemId => assert FirstUnknownItem(inputs, current, i);
    case DuplicateId =>
      AllGivenStep(inputs, i);
      RepeatedSections(inputs, i + 1);
    case OutOfDraws =>
  }

  /** The first sections are built, and their ids are the claimed ones. */
  ghost predicate Building(inputs: seq<SectionInput>, sections: Definition, pool: IdPool, current: Definition)
    reads pool
  {
    && |sections| <= |inputs| && pool.Valid() && pool.reserved == Reserved(current)
    && DoneUpTo(inputs, sections, pool, current)
    && pool.claimed == IdsOf(sections) && pool.given == AllGiven(inputs[..|sections|])
  }

  /** Builds the next section. */
  method AddSection(pool: IdPool, inputs: seq<SectionInput>, sections: Definition, current: Definition)
    returns (r: Result<Definition, BuildError>)
    requires Building(inputs, sections, pool, current) && |sections| < |inputs|
    modifies pool
    ensures r.Ok? ==> Building(inputs, r.value, pool, current) && |r.value| == |sections| + 1
    ensures r.Err? ==> RefusedFor(inputs, current, r.error)
    ensures r == Err(OutOfDraws) ==> pool.Exhausted(|inputs| + InputItems(inputs))
  {
    var i := |sections|;
    AllGivenStep(inputs, i);
    BuiltCounts(inputs, sections, pool, current);
    DoneValid(inputs, sections, pool, current);
    var section := BuildSection(pool, inputs[i], current);
    if section.Err? {
      RefusedAt(inputs, current, i, section.error);
      return Err(section.error);
    }
    IdsOfStep(sections, section.value);
    DoneStep(inputs, sections, section.value, pool, current);
    return Ok(sections + [section.value]);
  }

  /** Builds the sections in order, with one pool of ids. */
  method BuildSections(pool: IdPool, inputs: seq<SectionInput>, current: Definition)
    returns (r: Result<Definition, BuildError>)
    requires pool.Valid() && pool.claimed == [] && pool.given == [] && pool.reserved == Reserved(current)
    modifies pool
    ensures r.Ok? ==> && pool.Valid() && pool.claimed == IdsOf(r.value) && pool.given == AllGiven(inputs)
                      && Built(inputs, r.value, pool.reserved, pool.draws) && IdsValid(inputs, current)
                      && TotalItems(r.value) == InputItems(inputs)
    ensures r.Err? ==> RefusedFor(inputs, current, r.error)
    ensures r == Err(OutOfDraws) ==> pool.Exhausted(|inputs| + InputItems(inputs))
  {
    var sections: Definition := [];
    while |sections| < |inputs|
      invariant Building(inputs, sections, pool, current)
    {
      var next := AddSection(pool, inputs, sections, current);
      if next.Err? {
        return next;
      }
      sections := next.value;
    }
    assert inputs[..|sections|] == inputs;
    BuiltCounts(inputs, sections, pool, current);
    SectionsDone(inputs, sections, pool, current);
    return Ok(sections);
  }

  lemma SubsetSize(small: set<string>, large: set<string>)
    requires small <= large
    ensures |small| <= |large|
  {
    var rest := large - small;
    assert large == small + rest;
  }

  lemma ValidKnown(inputs: seq<SectionInput>, current: Definition)
    requires IdsValid(inputs, current)
    ensures forall i: nat :: !FirstUnknownSection(inputs, current, i) && !FirstUnknownItem(inputs, current, i)
  {
    forall i: nat ensures !FirstUnknownSection(inputs, current, i) && !FirstUnknownItem(inputs, current, i) {
      if i < |inputs| {
        UnknownSectionIff(inputs[i], current);
      }
    }
  }

  /** Builds a definition. All its ids are distinct and no new one is an id of the
      current definition; with valid supplied ids, few enough items and enough
      random ids it is refused exactly when an id is supplied twice. */
  method BuildChecklistDefinition(inputs: seq<SectionInput>, current: Option<Definition>, draws: seq<string>)
    returns (r: Result<Definition, BuildError>)
    ensures var replaced := if current.Some? then current.value else [];
            && (r == Err(TooLarge) <==> InputItems(inputs) > MAX_ITEMS)
            && (r.Ok? ==> && Distinct(IdsOf(r.value)) && Built(inputs, r.value, Reserved(replaced), draws)
                          && TotalItems(r.value) <= MAX_ITEMS
                          && IdsValid(inputs, replaced) && Distinct(AllGiven(inputs)))
            && (r.Err? && r.error != TooLarge ==> RefusedFor(inputs, replaced, r.error))
            && (r.Err? && r.error != TooLarge && r.error != OutOfDraws && IdsValid(inputs, replaced) ==>
                  r.error == DuplicateId)
            && (|Elements(draws)| > |Reserved(replaced)| + |inputs| + InputItems(inputs) ==> r != Err(OutOfDraws))
  {
    if InputItems(inputs) > MAX_ITEMS {
      return Err(TooLarge);
    }
    var replaced := if current.Some? then current.value else [];
    var pool := new IdPool(Reserved(replaced), draws);
    r := BuildSections(pool, inputs, replaced);
    if IdsValid(inputs, replaced) {
      ValidKnown(inputs, replaced);
    }
    if r == Err(OutOfDraws) {
      SubsetSize(Elements(draws), Reserved(replaced) + pool.used);
      assert |Reserved(replaced) + pool.used| <= |Reserved(replaced)| + |pool.used|;
    }
  }

  // ---------------------------------------------------------------- a built definition reads back

  predicate IdRequest(id: Option<string>) {
    id.Some? ==> IsUuidV4(id.value)
  }

  predicate TextRequest(text: string, maximum: nat) {
    1 <= |Trim(text)| <= maximum
  }

  predicate SectionRequest(section: SectionInput) {
    && IdRequest(section.id) && TextRequest(section.title, MAX_TITLE) && 1 <= |section.items| <= MAX_SECTION_ITEMS
    && forall j :: 0 <= j < |section.items| ==>
         IdRequest(section.items[j].id) && TextRequest(section.items[j].prompt, MAX_LABEL)
  }

  /** What a request is checked for before it reaches the service. */
  predicate WithinLimits(inputs: seq<SectionInput>) {
    1 <= |inputs| <= MAX_SECTIONS && forall i :: 0 <= i < |inputs| ==> SectionRequest(inputs[i])
  }

  /** Random ids are lower-case version 4 identifiers. */
  predicate RandomIds(draws: seq<string>) {
    forall k :: 0 <= k < |draws| ==> IdCanonical(draws[k])
  }

  lemma IdFromCanonical(supplied: Option<string>, id: string, reserved: set<string>, draws: seq<string>)
    requires IdFrom(supplied, id, reserved, draws) && IdRequest(supplied) && RandomIds(draws)
    ensures IdCanonical(id)
  {
    if supplied.Some? {
      LowerKeepsUuid(supplied.value);
    }
  }

  lemma SectionBuiltCanonical(input: SectionInput, section: Section, reserved: set<string>, draws: seq<string>)
    requires SectionBuilt(input, section, reserved, draws) && SectionRequest(input) && RandomIds(draws)
    ensures SectionCanonical(section)
  {
    IdFromCanonical(input.id, section.id, reserved, draws);
    TrimTrims(input.title);
    forall j | 0 <= j < |section.items|
      ensures IdCanonical(section.items[j].id) && TextCanonical(section.items[j].prompt, MAX_LABEL)
    {
      assert ItemBuilt(input.items[j], section.items[j], reserved, draws);
      IdFromCanonical(input.items[j].id, section.items[j].id, reserved, draws);
      TrimTrims(input.items[j].prompt);
    }
  }

  /** Within the limits, reading the stored form returns exactly what was built. */
  lemma BuiltReadsBack(inputs: seq<SectionInput>, sections: Definition, reserved: set<string>, draws: seq<string>)
    requires WithinLimits(inputs) && RandomIds(draws)
    requires Built(inputs, sections, reserved, draws) && Distinct(IdsOf(sections)) && TotalItems(sections) <= MAX_ITEMS
    ensures Canonical(sections) && Parse(ToJson(sections)) == Some(sections)
  {
    forall i | 0 <= i < |sections| ensures SectionCanonical(sections[i]) {
      SectionBuiltCanonical(inputs[i], sections[i], reserved, draws);
    }
    RoundTrip(sections);
  }
}
