/** The tables of a preservation report: the change log that a reader can replay,
    the budget the tables keep, and the paged walk over versions. */
module PreservationArchive {
  import opened Wrappers
  import TextRules = Text

  const MAX_ROWS := 50_000
  const MAX_TEXT_BYTES := 32 * 1024 * 1024
  const MAX_CELL := 32_767
  const NO_CHANGE := "내용 변경 없음"

  datatype Value = Null | Text(text: string) | Number(number: int) | Time(at: int)

  type Fields = map<string, Value>

  datatype Sheet = StaySheet | SubmissionSheet | AnswerSheet | IssueSheet | ChangeSheet | PhotoSheet

  type Cells = seq<Value>

  datatype ArchiveError = TooLarge | NeedsReview

  /** Who changed what and when; the labels are already those of the report. */
  datatype Meta = Meta(kind: string, id: string, version: int, action: string, at: int, actorName: string,
                       role: string, source: string, reason: Option<string>, eventId: string, actorId: Option<string>)

  function Columns(sheet: Sheet): nat {
    match sheet
    case StaySheet => 16
    case SubmissionSheet => 23
    case AnswerSheet => 14
    case IssueSheet => 19
    case ChangeSheet => 14
    case PhotoSheet => 16
  }

  // ---------------------------------------------------------------- the size of texts

  function Bytes(c: char): nat {
    var code := c as int;
    if code < 0x80 then 1 else if code < 0x800 then 2 else if code < 0x10000 then 3 else 4
  }

  function Utf8Length(s: string): nat {
    if s == "" then 0 else Utf8Length(s[..|s| - 1]) + Bytes(s[|s| - 1])
  }

  function ValueBytes(v: Value): nat {
    if v.Text? then Utf8Length(v.text) else 0
  }

  function RowBytes(row: Cells): nat {
    if row == [] then 0 else RowBytes(row[..|row| - 1]) + ValueBytes(row[|row| - 1])
  }

  /** What n bytes of UTF-8 can tell: section 3 of RFC 3629. */
  function Reach(bytes: nat): nat {
    match bytes
    case 0 => 0
    case 1 => 128
    case 2 => 32 * 64
    case 3 => 16 * 64 * 64
    case _ => 8 * 64 * 64 * 64
  }

  /** A character takes the fewest bytes that reach it. */
  lemma BytesAreFewest(c: char)
    ensures Bytes(c) <= 4 && Reach(Bytes(c) - 1) <= c as int < Reach(Bytes(c))
  {
  }

  lemma {:induction false} Utf8LengthJoins(s: string, t: string)
    ensures Utf8Length(s + t) == Utf8Length(s) + Utf8Length(t)
    ensures |t| == 1 ==> Utf8Length(t) == Bytes(t[0])
  {
    if t == "" {
      assert s + t == s;
    } else {
      Utf8LengthJoins(s, t[..|t| - 1]);
      assert (s + t)[..|s + t| - 1] == s + t[..|t| - 1];
      assert |t| == 1 ==> t[..0] == "";
    }
  }

  /** All the text of a row. */
  function TextOf(row: Cells): string {
    if row == [] then "" else TextOf(row[..|row| - 1]) + match row[|row| - 1] case Text(text) => text case _ => ""
  }

  lemma {:induction false} RowBytesMean(row: Cells)
    ensures RowBytes(row) == Utf8Length(TextOf(row))
  {
    if row != [] {
      RowBytesMean(row[..|row| - 1]);
      Utf8LengthJoins(TextOf(row[..|row| - 1]), match row[|row| - 1] case Text(text) => text case _ => "");
    }
  }

  predicate CellsFit(row: Cells) {
    forall i :: 0 <= i < |row| ==> row[i].Text? ==> TextRules.Utf16Length(row[i].text) <= MAX_CELL
  }

  // ---------------------------------------------------------------- what a change log says

  function Lookup(fields: Fields, key: string): Value {
    if key in fields then fields[key] else Null
  }

  /** A time counts as the text that renders it, and an absent field as null. */
  function Comparable(v: Value, iso: int -> string): Value {
    if v.Time? then Text(iso(v.at)) else v
  }

  ghost predicate SameUpTo(a: Fields, b: Fields, iso: int -> string) {
    forall key: string :: Comparable(Lookup(a, key), iso) == Comparable(Lookup(b, key), iso)
  }

  function Changed(before: Fields, after: Fields, iso: int -> string): set<string> {
    set key | key in before.Keys + after.Keys
              && Comparable(Lookup(before, key), iso) != Comparable(Lookup(after, key), iso)
  }

  predicate IsChange(row: Cells) {
    |row| == Columns(ChangeSheet) && row[9].Text?
  }

  function FieldOf(row: Cells): string
    requires IsChange(row)
  {
    row[9].text
  }

  /** Setting each listed field to its value after, in the order of the rows. */
  function Replay(fields: Fields, rows: seq<Cells>): Fields
    requires forall i :: 0 <= i < |rows| ==> IsChange(rows[i])
    decreases |rows|
  {
    if rows == [] then fields
    else
      var last := rows[|rows| - 1];
      Replay(fields, rows[..|rows| - 1])[FieldOf(last) := last[11]]
  }

  /** The rows tell of fields, each once, with its values before and after. */
  predicate Tells(rows: seq<Cells>, fields: set<string>, before: Fields, after: Fields) {
    && (forall i :: 0 <= i < |rows| ==>
          && IsChange(rows[i]) && FieldOf(rows[i]) in fields
          && rows[i][10] == Lookup(before, FieldOf(rows[i])) && rows[i][11] == Lookup(after, FieldOf(rows[i])))
    && (forall i, j :: 0 <= i < j < |rows| ==> FieldOf(rows[i]) != FieldOf(rows[j]))
    && (forall key :: key in fields ==> exists i :: 0 <= i < |rows| && FieldOf(rows[i]) == key)
  }

  /** The rows of one version: the changed fields, or one row that tells of none. */
  predicate IsDiff(rows: seq<Cells>, before: Fields, after: Fields, iso: int -> string) {
    var fields := Changed(before, after, iso);
    Tells(rows, if fields == {} then {NO_CHANGE} else fields, before, after)
  }

  lemma {:induction false} ReplayAt(fields: Fields, rows: seq<Cells>, key: string, v: Value)
    requires forall i :: 0 <= i < |rows| ==> IsChange(rows[i])
    requires forall i :: 0 <= i < |rows| && FieldOf(rows[i]) == key ==> rows[i][11] == v
    ensures Lookup(Replay(fields, rows), key)
            == if exists i :: 0 <= i < |rows| && FieldOf(rows[i]) == key then v else Lookup(fields, key)
  {
    if rows != [] {
      var front := rows[..|rows| - 1];
      ReplayAt(fields, front, key, v);
      if FieldOf(rows[|rows| - 1]) != key && (exists i :: 0 <= i < |rows| && FieldOf(rows[i]) == key) {
        var i :| 0 <= i < |rows| && FieldOf(rows[i]) == key;
        assert FieldOf(front[i]) == key;
      }
    }
  }

  /** Replaying the rows of a version takes what was before to what is after. */
  lemma DiffReplays(state: Fields, rows: seq<Cells>, before: Fields, after: Fields, iso: int -> string)
    requires SameUpTo(state, before, iso) && IsDiff(rows, before, after, iso)
    ensures SameUpTo(Replay(state, rows), after, iso)
  {
    forall key: string
      ensures Comparable(Lookup(Replay(state, rows), key), iso) == Comparable(Lookup(after, key), iso)
    {
      ReplayAt(state, rows, key, Lookup(after, key));
      assert Comparable(Lookup(state, key), iso) == Comparable(Lookup(before, key), iso);
      if !(exists i :: 0 <= i < |rows| && FieldOf(rows[i]) == key) {
        assert key !in Changed(before, after, iso);
      }
    }
  }

  // ---------------------------------------------------------------- the tables

  function TotalRows(tables: map<Sheet, seq<Cells>>, sheets: seq<Sheet>): nat {
    if sheets == [] then 0
    else TotalRows(tables, sheets[1..]) + if sheets[0] in tables then |tables[sheets[0]]| else 0
  }

  function RowsBytes(rows: seq<Cells>): nat {
    if rows == [] then 0 else RowsBytes(rows[..|rows| - 1]) + RowBytes(rows[|rows| - 1])
  }

  function TotalBytes(tables: map<Sheet, seq<Cells>>, sheets: seq<Sheet>): nat {
    if sheets == [] then 0
    else TotalBytes(tables, sheets[1..]) + if sheets[0] in tables then RowsBytes(tables[sheets[0]]) else 0
  }

  const SHEETS := [StaySheet, SubmissionSheet, AnswerSheet, IssueSheet, ChangeSheet, PhotoSheet]

  lemma {:induction false} TotalsWithRow(tables: map<Sheet, seq<Cells>>, sheets: seq<Sheet>, sheet: Sheet, row: Cells)
    requires sheet in tables && forall i, j :: 0 <= i < j < |sheets| ==> sheets[i] != sheets[j]
    ensures var next := tables[sheet := tables[sheet] + [row]];
            && TotalRows(next, sheets) == TotalRows(tables, sheets) + (if sheet in sheets then 1 else 0)
            && TotalBytes(next, sheets) == TotalBytes(tables, sheets) + (if sheet in sheets then RowBytes(row) else 0)
  {
    if sheets != [] {
      TotalsWithRow(tables, sheets[1..], sheet, row);
      assert sheets == [sheets[0]] + sheets[1..];
      assert (tables[sheet] + [row])[..|tables[sheet]|] == tables[sheet];
    }
  }

  lemma {:induction false} EmptyTotals(tables: map<Sheet, seq<Cells>>, sheets: seq<Sheet>)
    requires forall sheet :: sheet in tables ==> tables[sheet] == []
    ensures TotalRows(tables, sheets) == 0 && TotalBytes(tables, sheets) == 0
  {
    if sheets != [] {
      EmptyTotals(tables, sheets[1..]);
    }
  }

  class ArchiveTables {
    const iso: int -> string
    var tables: map<Sheet, seq<Cells>>
    var rowCount: nat
    var textBytes: nat

    /** The counters are those of the rows that are stored. */
    predicate Valid()
      reads this
    {
      && (forall sheet: Sheet :: sheet in tables)
      && rowCount == TotalRows(tables, SHEETS) <= MAX_ROWS
      && textBytes == TotalBytes(tables, SHEETS) <= MAX_TEXT_BYTES
    }

    constructor (iso: int -> string)
      ensures Valid() && this.iso == iso && forall sheet :: sheet in tables ==> tables[sheet] == []
    {
      this.iso := iso;
      tables := map[StaySheet := [], SubmissionSheet := [], AnswerSheet := [], IssueSheet := [], ChangeSheet := [],
                    PhotoSheet := []];
      rowCount, textBytes := 0, 0;
      new;
      EmptyTotals(tables, SHEETS);
      forall sheet: Sheet ensures sheet in tables {
        match sheet
        case StaySheet =>
        case SubmissionSheet =>
        case AnswerSheet =>
        case IssueSheet =>
        case ChangeSheet =>
        case PhotoSheet =>
      }
    }

    /** Counts the text of a row, cell by cell, up to one that is too long. */
    method CountText(values: Cells) returns (fits: bool)
      modifies this`textBytes
      ensures fits <==> CellsFit(values)
      ensures fits ==> textBytes == old(textBytes) + RowBytes(values)
    {
      var i := 0;
      while i < |values|
        invariant 0 <= i <= |values| && CellsFit(values[..i]) && textBytes == old(textBytes) + RowBytes(values[..i])
      {
        assert values[..i + 1][..i] == values[..i];
        if values[i].Text? {
          if TextRules.Utf16Length(values[i].text) > MAX_CELL {
            return false;
          }
          textBytes := textBytes + Utf8Length(values[i].text);
        }
        i := i + 1;
      }
      assert values[..i] == values;
      return true;
    }

    /** Stores a row within the budget. After an error the report is given up, and
        nothing is promised of the counters. */
    method Add(sheet: Sheet, values: Cells) returns (r: Result<(), ArchiveError>)
      requires Valid()
      modifies this
      ensures r.Ok? ==> Valid() && tables == old(tables)[sheet := old(tables)[sheet] + [values]]
      ensures r.Ok? <==> && |values| == Columns(sheet)
                         && (forall v :: v in values && v.Text? ==> TextRules.Utf16Length(v.text) <= 32_767)
                         && TotalRows(old(tables), SHEETS) < 50_000
                         && TotalBytes(old(tables), SHEETS) + Utf8Length(TextOf(values)) <= 33_554_432
      ensures r.Err? ==> tables == old(tables)
      ensures r == Err(NeedsReview) <==> |values| != Columns(sheet)
    {
      if |values| != Columns(sheet) {
        return Err(NeedsReview);
      }
      var fits := CountText(values);
      if !fits {
        return Err(TooLarge);
      }
      RowBytesMean(values);
      rowCount := rowCount + 1;
      if rowCount > MAX_ROWS || textBytes > MAX_TEXT_BYTES {
        return Err(TooLarge);
      }
      TotalsWithRow(tables, SHEETS, sheet, values);
      tables := tables[sheet := tables[sheet] + [values]];
      return Ok(());
    }

    method LogField(meta: Meta, field: string, before: Fields, after: Fields)
      returns (r: Result<(), ArchiveError>, ghost row: Cells)
      requires Valid()
      modifies this
      ensures row == ChangeRow(meta, field, Lookup(before, field), Lookup(after, field))
      ensures r.Ok? ==> Valid() && tables == old(tables)[ChangeSheet := old(tables)[ChangeSheet] + [row]]
    {
      row := ChangeRow(meta, field, Lookup(before, field), Lookup(after, field));
      r := Add(ChangeSheet, ChangeRow(meta, field, Lookup(before, field), Lookup(after, field)));
    }

    method LogFields(meta: Meta, all: set<string>, before: Fields, after: Fields)
      returns (r: Result<(), ArchiveError>, ghost rows: seq<Cells>)
      requires Valid()
      modifies this
      ensures r.Ok? ==> Valid() && Logged(rows, all, before, after, meta)
      ensures r.Ok? ==> tables == old(tables)[ChangeSheet := old(tables)[ChangeSheet] + rows]
    {
      ghost var was, log, told: set<string> := tables, tables[ChangeSheet], {};
      var fields := all;
      rows := [];
      assert log + [] == log && was[ChangeSheet := log] == was;
      while fields != {}
        invariant Valid() && told == all - fields && fields <= all
        invariant Logged(rows, told, before, after, meta)
        invariant tables == was[ChangeSheet := log + rows]
        decreases |fields|
      {
        var field :| field in fields;
        var added;
        ghost var row;
        added, row := LogField(meta, field, before, after);
        if added.Err? {
          return added, rows;
        }
        LoggedMore(rows, told, before, after, meta, field);
        StoredMore(was, log, rows, row);
        fields := fields - {field};
        assert told + {field} == all - fields;
        told, rows := told + {field}, rows + [row];
      }
      assert told == all;
      return Ok(()), rows;
    }

    /** Logs one version against the one before: one row a changed field, or one
        that says that none changed. */
    method History(meta: Meta, before: Fields, after: Fields)
      returns (r: Result<(), ArchiveError>, ghost rows: seq<Cells>)
      requires Valid()
      modifies this
      ensures r.Ok? ==> Valid() && IsDiff(rows, before, after, iso) && AllOf(rows, meta)
      ensures r.Ok? ==> tables == old(tables)[ChangeSheet := old(tables)[ChangeSheet] + rows]
    {
      var fields := Changed(before, after, iso);
      r, rows := LogFields(meta, if fields == {} then {NO_CHANGE} else fields, before, after);
    }
  }

  /** One more row behind the rows that were stored. */
  lemma StoredMore(was: map<Sheet, seq<Cells>>, log: seq<Cells>, rows: seq<Cells>, row: Cells)
    ensures var tables := was[ChangeSheet := log + rows];
            tables[ChangeSheet := tables[ChangeSheet] + [row]] == was[ChangeSheet := log + (rows + [row])]
  {
    JoinRows(log, rows, [row]);
  }

  lemma JoinRows(a: seq<Cells>, b: seq<Cells>, c: seq<Cells>)
    ensures (a + b) + c == a + (b + c)
  {
  }

  predicate Logged(rows: seq<Cells>, told: set<string>, before: Fields, after: Fields, meta: Meta) {
    Tells(rows, told, before, after) && AllOf(rows, meta)
  }

  lemma LoggedMore(rows: seq<Cells>, told: set<string>, before: Fields, after: Fields, meta: Meta, field: string)
    requires Logged(rows, told, before, after, meta) && field !in told
    ensures Logged(rows + [ChangeRow(meta, field, Lookup(before, field), Lookup(after, field))], told + {field},
                   before, after, meta)
  {
    var row := ChangeRow(meta, field, Lookup(before, field), Lookup(after, field));
    ChangeRowTells(meta, field, Lookup(before, field), Lookup(after, field));
    TellsMore(rows, told, before, after, row);
    AllOfMore(rows, row, meta);
  }

  lemma AllOfMore(rows: seq<Cells>, row: Cells, meta: Meta)
    requires AllOf(rows, meta) && RowOf(row, meta)
    ensures AllOf(rows + [row], meta)
  {
  }

  lemma ChangeRowTells(meta: Meta, field: string, before: Value, after: Value)
    ensures var row := ChangeRow(meta, field, before, after);
            RowOf(row, meta) && FieldOf(row) == field && row[10] == before && row[11] == after
  {
  }

  /** Each row of a version tells which record of what kind it was, at which version, what was
      done, when, by whom in which role, from where and why, and by which event. */
  lemma RowOfMeans(row: Cells, meta: Meta)
    requires RowOf(row, meta)
    ensures && row[0] == Text(meta.kind) && row[1] == Text(meta.id) && row[2] == Number(meta.version)
            && row[3] == Text(meta.action) && row[4] == Time(meta.at) && row[5] == Text(meta.actorName)
            && row[6] == Text(meta.role) && row[7] == Text(meta.source) && row[12] == Text(meta.eventId)
            && (match meta.reason
                case Some(reason) => row[8] == Text(reason)
                case None => row[8] == Null)
            && (match meta.actorId
                case Some(actor) => row[13] == Text(actor)
                case None => row[13] == Null)
  {
  }

  /** Rows that all tell of one version of one record. */
  predicate AllOf(rows: seq<Cells>, meta: Meta) {
    forall i :: 0 <= i < |rows| ==> RowOf(rows[i], meta)
  }

  predicate RowOf(row: Cells, meta: Meta) {
    IsChange(row) && row == ChangeRow(meta, row[9].text, row[10], row[11])
  }

  function Optional(text: Option<string>): Value {
    if text.Some? then Text(text.value) else Null
  }

  function ChangeRow(meta: Meta, field: string, before: Value, after: Value): Cells {
    [Text(meta.kind), Text(meta.id), Number(meta.version), Text(meta.action), Time(meta.at), Text(meta.actorName),
     Text(meta.role), Text(meta.source), Optional(meta.reason), Text(field), before, after, Text(meta.eventId),
     Optional(meta.actorId)]
  }

  lemma TellsMore(rows: seq<Cells>, fields: set<string>, before: Fields, after: Fields, row: Cells)
    requires Tells(rows, fields, before, after) && IsChange(row) && FieldOf(row) !in fields
    requires row[10] == Lookup(before, FieldOf(row)) && row[11] == Lookup(after, FieldOf(row))
    ensures Tells(rows + [row], fields + {FieldOf(row)}, before, after)
  {
    var all := rows + [row];
    forall key | key in fields + {FieldOf(row)} ensures exists i :: 0 <= i < |all| && FieldOf(all[i]) == key {
      if key in fields {
        var i :| 0 <= i < |rows| && FieldOf(rows[i]) == key;
        assert FieldOf(all[i]) == key;
      } else {
        assert FieldOf(all[|rows|]) == key;
      }
    }
  }
}
