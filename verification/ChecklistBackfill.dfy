/** The operator command that checks every checklist archive and gives templates
    without one a baseline. */
module ChecklistBackfill {
  import opened Wrappers
  import opened ChecklistArchive
  import opened ChecklistPublishing

  // ---------------------------------------------------------------- the order of ids

  predicate Less(a: string, b: string) {
    b != "" && (a == "" || a[0] < b[0] || (a[0] == b[0] && Less(a[1..], b[1..])))
  }

  lemma {:induction false} LessIsStrict(a: string, b: string)
    ensures !(Less(a, b) && Less(b, a)) && !Less(a, a)
    ensures Less(a, b) || Less(b, a) || a == b
  {
    if a != "" {
      LessIsStrict(a[1..], a[1..]);
      if b != "" {
        LessIsStrict(a[1..], b[1..]);
        assert a == [a[0]] + a[1..] && b == [b[0]] + b[1..];
      }
    }
  }

  lemma {:induction false} LessIsTransitive(a: string, b: string, c: string)
    requires Less(a, b) && Less(b, c)
    ensures Less(a, c)
  {
    if a != "" && a[0] == b[0] && b[0] == c[0] {
      LessIsTransitive(a[1..], b[1..], c[1..]);
    }
  }

  predicate Ascending(ids: seq<string>) {
    forall i, j :: 0 <= i < j < |ids| ==> Less(ids[i], ids[j])
  }

  predicate Beyond(after: Option<string>, id: string) {
    after.Some? ==> Less(after.value, id)
  }

  // ---------------------------------------------------------------- one page of ids

  /** The least id of a table. */
  method LeastId(ids: set<string>) returns (least: string)
    requires ids != {}
    ensures least in ids && forall id :: id in ids && id != least ==> Less(least, id)
  {
    least :| least in ids;
    var rest := ids - {least};
    while rest != {}
      invariant least in ids && least !in rest && rest <= ids
      invariant forall id :: id in ids - rest && id != least ==> Less(least, id)
      decreases |rest|
    {
      var id :| id in rest;
      rest := rest - {id};
      LessIsStrict(least, id);
      if Less(id, least) {
        forall other | other in ids - rest && other != id ensures Less(id, other) {
          if other != least {
            LessIsTransitive(id, least, other);
          }
        }
        least := id;
      }
    }
  }

  /** A page is the first ids beyond the last one, in order; a short page is all of them. */
  ghost predicate IsPage(ids: set<string>, after: Option<string>, take: nat, page: seq<string>) {
    && |page| <= take && Ascending(page)
    && (forall id :: id in page ==> id in ids && Beyond(after, id))
    && (forall id :: id in ids && Beyond(after, id) && id !in page ==>
          |page| == take && forall earlier :: earlier in page ==> Less(earlier, id))
  }

  method QueryIds(ids: set<string>, after: Option<string>, take: nat) returns (page: seq<string>)
    ensures IsPage(ids, after, take, page)
  {
    var left := set id | id in ids && Beyond(after, id);
    ghost var all := left;
    page := [];
    while |page| < take && left != {}
      invariant |page| <= take && Ascending(page)
      invariant left <= all && forall id :: id in page <==> id in all && id !in left
      invariant forall earlier, id :: earlier in page && id in left ==> Less(earlier, id)
      decreases |left|
    {
      var least := LeastId(left);
      page := page + [least];
      left := left - {least};
    }
  }

  // ---------------------------------------------------------------- every template once

  /** What was visited before the next page, and the id the next page starts after. */
  ghost predicate Visiting(visited: seq<string>, after: Option<string>) {
    && Ascending(visited)
    && (after.None? <==> visited == [])
    && (visited != [] ==> after == Some(visited[|visited| - 1]))
  }

  lemma VisitPage(visited: seq<string>, after: Option<string>, ids: set<string>, take: nat, page: seq<string>)
    requires Visiting(visited, after) && IsPage(ids, after, take, page) && page != []
    ensures Visiting(visited + page, Some(page[|page| - 1]))
    ensures forall id :: id in ids && id !in visited + page ==>
              (|page| == take && Less(page[|page| - 1], id)) || (after.Some? && !Less(after.value, id))
  {
    var all := visited + page;
    forall i, j | 0 <= i < j < |all| ensures Less(all[i], all[j]) {
      if i < |visited| <= j {
        assert all[j] in page;
        if i < |visited| - 1 {
          LessIsTransitive(all[i], visited[|visited| - 1], all[j]);
        }
      }
    }
  }

  lemma {:induction false} AscendingCount(ids: seq<string>, universe: set<string>)
    requires Ascending(ids) && forall id :: id in ids ==> id in universe
    ensures |ids| <= |universe|
  {
    if ids != [] {
      var front, last := ids[..|ids| - 1], ids[|ids| - 1];
      forall id | id in front ensures id in universe - {last} {
        var i :| 0 <= i < |front| && front[i] == id;
        assert Less(ids[i], ids[|ids| - 1]);
        LessIsStrict(last, last);
      }
      AscendingCount(front, universe - {last});
    }
  }

  /** The ids of the table at each query, which other callers may be adding to.
      The visits go upwards, so no template is visited twice; whatever is in the
      table all along is visited; and the walk ends once there have been more
      full pages than the table ever has ids for. */
  method EachTemplate(tables: seq<set<string>>, pageSize: nat, ghost universe: set<string>)
    returns (visited: seq<string>, finished: bool)
    requires 1 <= pageSize && forall k :: 0 <= k < |tables| ==> tables[k] <= universe
    ensures Ascending(visited) && forall id :: id in visited ==> id in universe
    ensures finished ==> forall id :: (forall k :: 0 <= k < |tables| ==> id in tables[k]) ==> id in visited
    ensures |universe| < |tables| * pageSize ==> finished
  {
    var after: Option<string> := None;
    visited := [];
    var q := 0;
    while q < |tables|
      invariant 0 <= q <= |tables| && Visiting(visited, after) && |visited| == q * pageSize
      invariant forall id :: id in visited ==> id in universe
      invariant forall id :: (forall k :: 0 <= k < |tables| ==> id in tables[k]) && id !in visited ==> Beyond(after, id)
    {
      var page := QueryIds(tables[q], after, pageSize);
      if page == [] {
        return visited, true;
      }
      VisitPage(visited, after, tables[q], pageSize, page);
      forall id | (forall k :: 0 <= k < |tables| ==> id in tables[k]) && id !in visited + page
        ensures |page| == pageSize && Less(page[|page| - 1], id)
      {
        assert id in tables[q];
      }
      visited, after := visited + page, Some(page[|page| - 1]);
      if |page| < pageSize {
        return visited, true;
      }
      q := q + 1;
    }
    AscendingCount(visited, universe);
    return visited, false;
  }

  // ---------------------------------------------------------------- the command

  datatype Counts = Counts(checked: nat, baselines: nat, alreadyArchived: nat)

  datatype Report = Report(preflight: Counts, applied: Counts)

  datatype Failure = Failure(code: Code, id: string, report: Report)

  function Verdict(store: Store, id: string): Result<bool, Code> {
    Inspected(Find(store, id), ArchiveOf(store, id))
  }

  /** Those of the first n ids that get a baseline. */
  function Needing(store: Store, ids: seq<string>, n: nat): set<string>
    requires n <= |ids|
  {
    set k | 0 <= k < n && ArchiveOf(store, ids[k]) == [] :: ids[k]
  }

  lemma NeedingStep(store: Store, ids: seq<string>, n: nat)
    requires Ascending(ids) && n < |ids|
    ensures |Needing(store, ids, n + 1)|
            == |Needing(store, ids, n)| + if ArchiveOf(store, ids[n]) == [] then 1 else 0
  {
    forall k | 0 <= k < n ensures ids[k] != ids[n] {
      assert Less(ids[k], ids[n]);
      LessIsStrict(ids[n], ids[n]);
    }
    if ArchiveOf(store, ids[n]) == [] {
      assert Needing(store, ids, n + 1) == Needing(store, ids, n) + {ids[n]};
    } else {
      assert Needing(store, ids, n + 1) == Needing(store, ids, n);
    }
  }

  predicate CountsOf(counts: Counts, store: Store, ids: seq<string>, n: nat)
    requires n <= |ids|
  {
    && counts.checked == n && counts.baselines == |Needing(store, ids, n)|
    && counts.alreadyArchived == n - |Needing(store, ids, n)|
  }

  /** One more template was checked, and needs (or got) a baseline or has an archive. */
  function Tallied(counts: Counts, baseline: bool): Counts {
    if baseline then counts.(checked := counts.checked + 1, baselines := counts.baselines + 1)
    else counts.(checked := counts.checked + 1, alreadyArchived := counts.alreadyArchived + 1)
  }

  lemma TallyStep(counts: Counts, store: Store, ids: seq<string>, n: nat)
    requires Ascending(ids) && n < |ids| && CountsOf(counts, store, ids, n)
    ensures CountsOf(Tallied(counts, ArchiveOf(store, ids[n]) == []), store, ids, n + 1)
  {
    NeedingStep(store, ids, n);
  }

  ghost predicate OrderedArchives(store: Store) {
    forall id :: id in store.archives ==> Descending(store.archives[id])
  }

  lemma VerdictNeeds(store: Store, id: string)
    requires Verdict(store, id).Ok?
    ensures id in store.templates && Verdict(store, id) == Ok(ArchiveOf(store, id) == [])
  {
    InspectionAccepts(store.templates[id], ArchiveOf(store, id));
  }

  method InspectOne(store: Store, id: string, pageSize: nat) returns (r: Result<bool, Code>)
    requires 1 <= pageSize && OrderedArchives(store)
    ensures r == Verdict(store, id)
    ensures r.Ok? ==> r.value == (ArchiveOf(store, id) == [])
  {
    r := Inspect(Find(store, id), ArchiveOf(store, id), pageSize);
    if r.Ok? {
      VerdictNeeds(store, id);
    }
  }

  predicate Passes(store: Store, id: string) {
    Verdict(store, id).Ok?
  }

  predicate PassesUpTo(store: Store, ids: seq<string>, n: nat) {
    n <= |ids| && forall k {:trigger Passes(store, ids[k])} :: 0 <= k < n ==> Passes(store, ids[k])
  }

  lemma PassesMore(store: Store, ids: seq<string>, n: nat)
    requires n < |ids| && PassesUpTo(store, ids, n) && Passes(store, ids[n])
    ensures PassesUpTo(store, ids, n + 1)
  {
  }

  /** The check of every template before anything is written. */
  method Preflight(store: Store, ids: seq<string>, pageSize: nat) returns (r: Result<Counts, Failure>)
    requires 1 <= pageSize && Ascending(ids) && OrderedArchives(store)
    ensures r.Ok? ==> PassesUpTo(store, ids, |ids|) && CountsOf(r.value, store, ids, |ids|)
    ensures r.Err? ==> var k := r.error.report.preflight.checked;
                       && k < |ids| && PassesUpTo(store, ids, k) && ids[k] == r.error.id
                       && Verdict(store, ids[k]) == Err(r.error.code)
  {
    var counts, k := Counts(0, 0, 0), 0;
    NothingVisited(store, ids);
    while k < |ids|
      invariant 0 <= k <= |ids| && CountsOf(counts, store, ids, k)
      invariant PassesUpTo(store, ids, k)
    {
      var verdict := InspectOne(store, ids[k], pageSize);
      if verdict.Err? {
        return Err(Failure(verdict.error, ids[k], Report(counts, Counts(0, 0, 0))));
      }
      PassesMore(store, ids, k);
      TallyStep(counts, store, ids, k);
      counts := Tallied(counts, verdict.value);
      k := k + 1;
    }
    return Ok(counts);
  }

  /** What a visit leaves of a template's archive. */
  function WithBaseline(store: Store, id: string): Archive {
    if ArchiveOf(store, id) == [] && id in store.templates then [BaselineRow(store.templates[id])]
    else ArchiveOf(store, id)
  }

  /** The archives once the first n templates were visited. */
  ghost predicate AppliedTo(was: Store, store: Store, ids: seq<string>, n: nat)
    requires n <= |ids|
  {
    && store.templates == was.templates
    && (forall id :: ArchiveOf(store, id) == if id in ids[..n] then WithBaseline(was, id) else ArchiveOf(was, id))
  }

  lemma NotYetVisited(ids: seq<string>, n: nat)
    requires Ascending(ids) && n < |ids|
    ensures ids[n] !in ids[..n] && forall id :: id in ids[..n + 1] <==> id in ids[..n] || id == ids[n]
  {
    forall k | 0 <= k < n ensures ids[k] != ids[n] {
      assert Less(ids[k], ids[n]);
      LessIsStrict(ids[n], ids[n]);
    }
  }

  /** The transaction of one visit. */
  method VisitTemplate(tables: ChecklistTables, id: string, pageSize: nat) returns (r: Result<bool, Code>)
    requires 1 <= pageSize && OrderedArchives(tables.Tables())
    modifies tables
    ensures match Backfilled(old(tables.Tables()), id)
            case Ok(next) => r == Ok(next.1) && tables.Tables() == next.0
            case Err(code) => r == Err(code) && tables.Tables() == old(tables.Tables())
  {
    r := InspectOne(tables.Tables(), id, pageSize);
    if r.Ok? && r.value {
      VerdictNeeds(tables.Tables(), id);
      var rows := if id in tables.archives then tables.archives[id] else [];
      tables.archives := tables.archives[id := Insert(rows, BaselineRow(tables.templates[id]))];
    }
  }

  lemma BackfilledMeans(store: Store, id: string)
    requires Passes(store, id)
    ensures var r := Backfilled(store, id);
            && r.Ok? && r.value.1 == (ArchiveOf(store, id) == [])
            && r.value.0.templates == store.templates
            && (forall other :: ArchiveOf(r.value.0, other)
                                == if other == id then WithBaseline(store, id) else ArchiveOf(store, other))
            && (OrderedArchives(store) ==> OrderedArchives(r.value.0))
  {
    VerdictNeeds(store, id);
    assert Insert([], BaselineRow(store.templates[id])) == [BaselineRow(store.templates[id])];
  }

  lemma StillPasses(was: Store, store: Store, ids: seq<string>, n: nat)
    requires Ascending(ids) && n < |ids| && PassesUpTo(was, ids, |ids|) && AppliedTo(was, store, ids, n)
    ensures Passes(store, ids[n]) && ArchiveOf(store, ids[n]) == ArchiveOf(was, ids[n])
  {
    NotYetVisited(ids, n);
    assert Passes(was, ids[n]);
    assert Find(store, ids[n]) == Find(was, ids[n]) && ArchiveOf(store, ids[n]) == ArchiveOf(was, ids[n]);
  }

  lemma AppliedStep(was: Store, store: Store, next: Store, ids: seq<string>, n: nat)
    requires Ascending(ids) && n < |ids| && AppliedTo(was, store, ids, n) && next.templates == store.templates
    requires forall other :: ArchiveOf(next, other)
                             == if other == ids[n] then WithBaseline(store, ids[n]) else ArchiveOf(store, other)
    ensures AppliedTo(was, next, ids, n + 1)
  {
    NotYetVisited(ids, n);
    assert WithBaseline(store, ids[n]) == WithBaseline(was, ids[n]);
  }

  lemma NothingVisited(store: Store, ids: seq<string>)
    ensures AppliedTo(store, store, ids, 0) && CountsOf(Counts(0, 0, 0), store, ids, 0)
  {
    assert Needing(store, ids, 0) == {};
  }

  /** The visit of the n-th template, once those before it were visited. */
  method VisitNext(tables: ChecklistTables, ghost was: Store, ids: seq<string>, n: nat, pageSize: nat)
    returns (created: bool)
    requires 1 <= pageSize && Ascending(ids) && n < |ids| && PassesUpTo(was, ids, |ids|)
    requires AppliedTo(was, tables.Tables(), ids, n) && OrderedArchives(tables.Tables())
    modifies tables
    ensures AppliedTo(was, tables.Tables(), ids, n + 1) && OrderedArchives(tables.Tables())
    ensures created == (ArchiveOf(was, ids[n]) == [])
  {
    ghost var store := tables.Tables();
    StillPasses(was, store, ids, n);
    BackfilledMeans(store, ids[n]);
    var visited := VisitTemplate(tables, ids[n], pageSize);
    created := visited.value;
    AppliedStep(was, store, tables.Tables(), ids, n);
  }

  /** The second pass: each chain is inspected again and gets its baseline. */
  method ApplyBaselines(tables: ChecklistTables, ids: seq<string>, pageSize: nat) returns (counts: Counts)
    requires 1 <= pageSize && Ascending(ids) && OrderedArchives(tables.Tables())
    requires PassesUpTo(tables.Tables(), ids, |ids|)
    modifies tables
    ensures AppliedTo(old(tables.Tables()), tables.Tables(), ids, |ids|)
    ensures CountsOf(counts, old(tables.Tables()), ids, |ids|)
  {
    ghost var was := tables.Tables();
    var k := 0;
    counts := Counts(0, 0, 0);
    NothingVisited(was, ids);
    while k < |ids|
      invariant 0 <= k <= |ids| && CountsOf(counts, was, ids, k)
      invariant AppliedTo(was, tables.Tables(), ids, k) && OrderedArchives(tables.Tables())
    {
      var created := VisitNext(tables, was, ids, k, pageSize);
      TallyStep(counts, was, ids, k);
      counts := Tallied(counts, created);
      k := k + 1;
    }
  }

  /** The command, with nobody else writing. It writes nothing unless every chain
      is accepted; an applied run leaves every template archived and has counted
      each template once; and then there is nothing left for a second run. */
  method Backfill(tables: ChecklistTables, apply: bool, pageSize: nat) returns (r: Result<Report, Failure>)
    requires 1 <= pageSize && OrderedArchives(tables.Tables())
    modifies tables
    ensures var was := old(tables.Tables());
            && (r.Ok? <==> forall id {:trigger Passes(was, id)} :: id in was.templates ==> Passes(was, id))
            && (r.Err? || !apply ==> tables.Tables() == was)
            && (r.Err? ==> r.error.id in was.templates && Verdict(was, r.error.id) == Err(r.error.code))
            && (r.Ok? ==> r.value.preflight.checked == |was.templates|
                          && r.value.preflight.baselines + r.value.preflight.alreadyArchived == |was.templates|)
            && (r.Ok? && apply ==>
                  && tables.templates == was.templates
                  && (forall id :: id in was.templates ==>
                        Archived(tables.Tables(), id) && ArchiveOf(tables.Tables(), id) == WithBaseline(was, id))
                  && r.value.applied == r.value.preflight)
  {
    var keys := tables.templates.Keys;
    var ids, finished := EachTemplate(seq(|keys| + 1, _ => keys), pageSize, keys);
    AllVisited(ids, keys, pageSize, finished);
    var preflight := Preflight(tables.Tables(), ids, pageSize);
    if preflight.Err? {
      assert !Passes(tables.Tables(), preflight.error.id);
      return Err(preflight.error);
    }
    EachPasses(tables.Tables(), ids, keys);
    var counts := preflight.value;
    VisitedCount(ids, keys);
    if !apply {
      return Ok(Report(counts, Counts(0, 0, 0)));
    }
    var applied := ApplyBaselines(tables, ids, pageSize);
    assert ids[..|ids|] == ids;
    return Ok(Report(counts, applied));
  }

  lemma EachPasses(store: Store, ids: seq<string>, keys: set<string>)
    requires PassesUpTo(store, ids, |ids|) && forall id :: id in ids <==> id in keys
    ensures forall id {:trigger Passes(store, id)} :: id in keys ==> Passes(store, id)
  {
    forall id | id in keys ensures Passes(store, id) {
      var k :| 0 <= k < |ids| && ids[k] == id;
      assert Passes(store, ids[k]);
    }
  }

  lemma AllVisited(ids: seq<string>, keys: set<string>, pageSize: nat, finished: bool)
    requires 1 <= pageSize && (|keys| < (|keys| + 1) * pageSize ==> finished)
    requires forall id :: id in ids ==> id in keys
    requires finished ==> forall id :: id in keys ==> id in ids
    ensures forall id :: id in ids <==> id in keys
  {
    assert |keys| + 1 <= (|keys| + 1) * pageSize;
  }

  lemma {:induction false} VisitedCount(ids: seq<string>, keys: set<string>)
    requires Ascending(ids) && forall id :: id in ids <==> id in keys
    ensures |ids| == |keys|
  {
    if ids != [] {
      var front, last := ids[..|ids| - 1], ids[|ids| - 1];
      assert ids == front + [last];
      NotYetVisited(ids, |front|);
      VisitedCount(front, keys - {last});
    } else {
      assert keys == {};
    }
  }
}
