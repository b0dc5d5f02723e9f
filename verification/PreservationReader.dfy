/** Reading the versions of a record page by page into the report. */
module PreservationReader {
  import opened Wrappers
  import opened PreservationArchive

  const PAGE_SIZE := 10

  /** A stored version: who made it and what the record was. */
  datatype VersionRow = VersionRow(version: int, meta: Meta, fields: Fields)

  // ---------------------------------------------------------------- pages of versions

  /** The versions of a record in order; a number is used once. */
  predicate Ascending(rows: seq<VersionRow>) {
    forall i, j :: 0 <= i < j < |rows| ==> rows[i].version < rows[j].version
  }

  function Above(rows: seq<VersionRow>, after: int): seq<VersionRow> {
    if rows == [] || after < rows[0].version then rows else Above(rows[1..], after)
  }

  function Load(rows: seq<VersionRow>, after: int): seq<VersionRow> {
    var above := Above(rows, after);
    if |above| <= PAGE_SIZE then above else above[..PAGE_SIZE]
  }

  lemma {:induction false} AboveSkips(rows: seq<VersionRow>, n: nat)
    requires Ascending(rows) && 0 < n <= |rows|
    ensures Above(rows, rows[n - 1].version) == rows[n..]
  {
    if n > 1 {
      assert rows[1..][n - 2] == rows[n - 1] && rows[0].version < rows[n - 1].version;
      AboveSkips(rows[1..], n - 1);
      assert rows[1..][n - 1..] == rows[n..];
    } else if |rows| > 1 {
      assert rows[0].version < rows[1].version;
      assert rows[1..] == rows[n..];
    }
  }

  lemma {:induction false} AboveIsSuffix(rows: seq<VersionRow>, after: int)
    requires Ascending(rows)
    ensures |Above(rows, after)| <= |rows| && Above(rows, after) == rows[|rows| - |Above(rows, after)|..]
    ensures forall row :: row in Above(rows, after) ==> after < row.version
  {
    if rows != [] && rows[0].version <= after {
      AboveIsSuffix(rows[1..], after);
    }
  }

  /** The versions above a number are all of them, and no others. */
  lemma {:induction false} AboveMeans(rows: seq<VersionRow>, after: int)
    requires Ascending(rows)
    ensures forall row :: row in Above(rows, after) <==> row in rows && after < row.version
  {
    if rows != [] {
      assert rows == [rows[0]] + rows[1..];
      if rows[0].version <= after {
        AboveMeans(rows[1..], after);
      } else {
        forall row | row in rows ensures after < row.version {
          var i :| 0 <= i < |rows| && rows[i] == row;
          assert i > 0 ==> rows[0].version < rows[i].version;
        }
      }
    }
  }

  /** What was yielded and what is still to load, after the last full page. */
  ghost predicate Paging(rows: seq<VersionRow>, all: seq<VersionRow>, yielded: seq<VersionRow>, after: int) {
    all == yielded + Above(rows, after)
  }

  lemma FullPage(rows: seq<VersionRow>, after: int)
    requires Ascending(rows) && |Load(rows, after)| == PAGE_SIZE
    ensures var page := Load(rows, after);
            && after < page[|page| - 1].version
            && Above(rows, after) == page + Above(rows, page[|page| - 1].version)
  {
    var above, page := Above(rows, after), Load(rows, after);
    AboveIsSuffix(rows, after);
    var n := |rows| - |above| + PAGE_SIZE;
    assert rows[n - 1] == above[PAGE_SIZE - 1] == page[PAGE_SIZE - 1];
    AboveSkips(rows, n);
    assert rows[n..] == above[PAGE_SIZE..];
    assert page[PAGE_SIZE - 1] in above;
  }

  lemma PageTaken(rows: seq<VersionRow>, all: seq<VersionRow>, yielded: seq<VersionRow>, after: int)
    requires Ascending(rows) && Paging(rows, all, yielded, after)
    ensures var page := Load(rows, after);
            && (|page| < PAGE_SIZE ==> all == yielded + page)
            && (|page| == PAGE_SIZE ==>
                  && Paging(rows, all, yielded + page, page[|page| - 1].version)
                  && |Above(rows, page[|page| - 1].version)| < |Above(rows, after)|)
  {
    if |Load(rows, after)| == PAGE_SIZE {
      FullPage(rows, after);
    }
  }

  /** Pages of ten, each above the last version of the one before: every version
      above zero comes once, in order. */
  method VersionPages(rows: seq<VersionRow>) returns (yielded: seq<VersionRow>)
    requires Ascending(rows)
    ensures yielded == Above(rows, 0)
  {
    var after := 0;
    yielded := [];
    while true
      invariant Paging(rows, Above(rows, 0), yielded, after)
      decreases |Above(rows, after)|
    {
      var page := Load(rows, after);
      PageTaken(rows, Above(rows, 0), yielded, after);
      yielded := yielded + page;
      if |page| < PAGE_SIZE {
        break;
      }
      after := page[|page| - 1].version;
    }
  }

  // ---------------------------------------------------------------- the log of one record

  function Flatten(parts: seq<seq<Cells>>): seq<Cells> {
    if parts == [] then [] else Flatten(parts[..|parts| - 1]) + parts[|parts| - 1]
  }

  function FieldsBefore(versions: seq<VersionRow>, k: nat): Fields
    requires k <= |versions|
  {
    if k == 0 then map[] else versions[k - 1].fields
  }

  /** The k-th part of the log tells of the k-th version against the one before. */
  predicate PartTells(parts: seq<seq<Cells>>, versions: seq<VersionRow>, k: nat, iso: int -> string)
    requires k < |parts| <= |versions|
  {
    IsDiff(parts[k], FieldsBefore(versions, k), versions[k].fields, iso) && AllOf(parts[k], versions[k].meta)
  }

  predicate LogTells(parts: seq<seq<Cells>>, versions: seq<VersionRow>, iso: int -> string) {
    && |parts| <= |versions|
    && forall k {:trigger PartTells(parts, versions, k, iso)} :: 0 <= k < |parts| ==> PartTells(parts, versions, k, iso)
  }

  predicate ChangeRows(rows: seq<Cells>) {
    forall i :: 0 <= i < |rows| ==> IsChange(rows[i])
  }

  lemma {:induction false} FlattenChanges(parts: seq<seq<Cells>>, versions: seq<VersionRow>, iso: int -> string)
    requires LogTells(parts, versions, iso)
    ensures ChangeRows(Flatten(parts))
  {
    if parts != [] {
      var n := |parts| - 1;
      LogFront(parts, versions, iso);
      FlattenChanges(parts[..n], versions, iso);
      assert PartTells(parts, versions, n, iso);
    }
  }

  lemma LogFront(parts: seq<seq<Cells>>, versions: seq<VersionRow>, iso: int -> string)
    requires LogTells(parts, versions, iso) && parts != []
    ensures LogTells(parts[..|parts| - 1], versions, iso)
  {
    var front := parts[..|parts| - 1];
    forall k | 0 <= k < |front| ensures PartTells(front, versions, k, iso) {
      assert PartTells(parts, versions, k, iso);
    }
  }

  lemma {:induction false} ReplayAppend(fields: Fields, first: seq<Cells>, second: seq<Cells>)
    requires ChangeRows(first) && ChangeRows(second)
    ensures ChangeRows(first + second)
    ensures Replay(fields, first + second) == Replay(Replay(fields, first), second)
    decreases |second|
  {
    if second == [] {
      assert first + second == first;
    } else {
      var n := |second| - 1;
      assert (first + second)[..|first + second| - 1] == first + second[..n];
      ReplayAppend(fields, first, second[..n]);
    }
  }

  /** Replaying the log of the first versions, from nothing, yields the record as it
      was at the last of them -- for every version, so also the current record. */
  lemma {:induction false} LogReplays(parts: seq<seq<Cells>>, versions: seq<VersionRow>, iso: int -> string)
    requires LogTells(parts, versions, iso)
    ensures ChangeRows(Flatten(parts))
    ensures SameUpTo(Replay(map[], Flatten(parts)), FieldsBefore(versions, |parts|), iso)
  {
    FlattenChanges(parts, versions, iso);
    if parts != [] {
      var n := |parts| - 1;
      LogFront(parts, versions, iso);
      LogReplays(parts[..n], versions, iso);
      assert PartTells(parts, versions, n, iso);
      ReplayAppend(map[], Flatten(parts[..n]), parts[n]);
      DiffReplays(Replay(map[], Flatten(parts[..n])), parts[n], FieldsBefore(versions, n), versions[n].fields, iso);
    }
  }

  lemma LogMore(parts: seq<seq<Cells>>, part: seq<Cells>, versions: seq<VersionRow>,
                                   iso: int -> string)
    requires LogTells(parts, versions, iso) && |parts| < |versions|
    requires IsDiff(part, FieldsBefore(versions, |parts|), versions[|parts|].fields, iso)
    requires AllOf(part, versions[|parts|].meta)
    ensures LogTells(parts + [part], versions, iso) && Flatten(parts + [part]) == Flatten(parts) + part
  {
    var all := parts + [part];
    assert all[..|parts|] == parts;
    forall k | 0 <= k < |all| ensures PartTells(all, versions, k, iso) {
      if k < |parts| {
        assert PartTells(parts, versions, k, iso);
      }
    }
  }

  /** Logs every version of a record. What comes out replays to the record at each of
      its versions, and a gap in the numbering is never glossed over. */
  method ReadRecord(output: ArchiveTables, rows: seq<VersionRow>, current: int)
    returns (r: Result<(), ArchiveError>, ghost parts: seq<seq<Cells>>)
    requires output.Valid() && Ascending(rows)
    modifies output
    ensures r.Ok? ==>
              && 1 <= current == |Above(rows, 0)|
              && forall k :: 0 <= k < current ==> Above(rows, 0)[k].version == k + 1
    ensures r.Ok? ==> && output.Valid() && LogTells(parts, Above(rows, 0), output.iso) && |parts| == current
                      && output.tables
                         == old(output.tables)[ChangeSheet := old(output.tables)[ChangeSheet] + Flatten(parts)]
  {
    parts := [];
    var versions := VersionPages(rows);
    ghost var log := output.tables[ChangeSheet];
    assert log + [] == log && output.tables[ChangeSheet := log] == output.tables;
    var version, before: Fields := 0, map[];
    while version < |versions|
      invariant 0 <= version == |parts| <= |versions| && before == FieldsBefore(versions, version)
      invariant forall k :: 0 <= k < version ==> versions[k].version == k + 1
      invariant version <= current || version == 0
      invariant output.Valid() && LogTells(parts, versions, output.iso)
      invariant output.tables == old(output.tables)[ChangeSheet := log + Flatten(parts)]
    {
      var row := versions[version];
      if row.version != version + 1 || version + 1 > current {
        return Err(NeedsReview), parts;
      }
      var logged;
      ghost var part;
      logged, part := output.History(row.meta, before, row.fields);
      if logged.Err? {
        return logged, parts;
      }
      LogMore(parts, part, versions, output.iso);
      JoinRows(log, Flatten(parts), part);
      parts, before, version := parts + [part], row.fields, version + 1;
    }
    if version < 1 || version != current {
      return Err(NeedsReview), parts;
    }
    return Ok(()), parts;
  }
}
