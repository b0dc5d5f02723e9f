/** Rows of an uploaded roster, as the preview keeps and marks them. */
module RosterPreview {
  import opened Wrappers

  const DAY_MS := 86_400_000
  const SEOUL_OFFSET_MS := 9 * 3_600_000

  // The years 1000 to 9999, which the strict timestamp form can express.
  const FIRST_STRICT := -30_610_224_000_000
  const LAST_STRICT := 253_402_300_799_999

  datatype RowAction = Create | Update | Skip

  datatype RowStatus = Valid | NeedsReview | Invalid

  /** A timestamp text: the canonical rendering of an instant, or any other text
      with what Date.parse makes of it and whether it has the strict form. */
  datatype Timestamp = Iso(at: int) | Raw(text: string, parsed: Option<int>, strict: bool)

  /** A date text: a calendar day in Seoul, or a text that is no date. */
  datatype DateText = Day(day: int) | NoDate(text: string)

  datatype Normalized = Normalized(
    guestName: Option<string>, company: Option<string>, department: Option<string>,
    phone: Option<string>, notes: Option<string>,
    checkInDate: Option<DateText>, checkOutDate: Option<DateText>,
    checkInAt: Option<Timestamp>, checkOutAt: Option<Timestamp>)

  datatype Code =
    | PropertyNotMapped | InactiveProperty | ExistingStayOverlap | PossibleExistingDuplicate
    | DuplicateSourceRow | SourceStayOverlap | InvalidStayData
    | FormulaOrError | MissingGuestName | TextTooLong | InvalidDates | InvalidDateRange
    | OtherWarning(name: string)

  datatype Message = Message(code: Code, stayIds: seq<string>)

  function Parse(t: Timestamp): Option<int> {
    match t
    case Iso(at) => Some(at)
    case Raw(_, parsed, _) => parsed
  }

  predicate HasCode(messages: seq<Message>, code: Code) {
    exists m :: m in messages && m.code == code
  }

  function Codes(messages: seq<Message>): set<Code> {
    set m | m in messages :: m.code
  }

  function WithCode(messages: seq<Message>, code: Code): seq<Message> {
    if HasCode(messages, code) then messages else messages + [Message(code, [])]
  }

  function StatusAfter(status: RowStatus, invalid: bool): RowStatus {
    if invalid || status == Invalid then Invalid else NeedsReview
  }

  datatype PreviewRow = PreviewRow(
    id: string, sheetName: string, propertyId: Option<string>, action: RowAction,
    data: Option<Normalized>, status: RowStatus, messages: seq<Message>)

  function Flagged(row: PreviewRow, code: Code, invalid: bool): PreviewRow {
    row.(messages := WithCode(row.messages, code), status := StatusAfter(row.status, invalid))
  }

  function Naming(row: PreviewRow, code: Code, stayIds: seq<string>): PreviewRow {
    row.(messages := WithStays(row.messages, code, stayIds))
  }

  /** The rows under review, marked in place. */
  class Roster {
    var rows: seq<PreviewRow>

    constructor (rows: seq<PreviewRow>)
      ensures this.rows == rows
    {
      this.rows := rows;
    }

    method Flag(at: nat, code: Code, invalid: bool)
      requires at < |rows|
      modifies this
      ensures rows == old(rows)[at := Flagged(old(rows)[at], code, invalid)]
    {
      var row := rows[at];
      if !HasCode(row.messages, code) {
        row := row.(messages := row.messages + [Message(code, [])]);
      }
      if invalid {
        row := row.(status := Invalid);
      } else if row.status != Invalid {
        row := row.(status := NeedsReview);
      }
      rows := rows[at := row];
    }

    /** Names the stays a conflict is with, on the first message that reports it. */
    method NameStays(at: nat, code: Code, stayIds: seq<string>)
      requires at < |rows| && HasCode(rows[at].messages, code)
      modifies this
      ensures rows == old(rows)[at := Naming(old(rows)[at], code, stayIds)]
    {
      var messages := rows[at].messages;
      var i := 0;
      while messages[i].code != code
        invariant 0 <= i < |messages|
        invariant forall k :: 0 <= k < i ==> messages[k].code != code
        decreases |messages| - i
      {
        assert exists k :: 0 <= k < |messages| && messages[k].code == code;
        i := i + 1;
      }
      WithStaysAt(messages, i, code, stayIds);
      messages := messages[i := messages[i].(stayIds := stayIds)];
      rows := rows[at := rows[at].(messages := messages)];
    }
  }

  lemma {:induction false} WithStaysAt(messages: seq<Message>, i: nat, code: Code, stayIds: seq<string>)
    requires i < |messages| && messages[i].code == code
    requires forall k :: 0 <= k < i ==> messages[k].code != code
    ensures WithStays(messages, code, stayIds) == messages[i := messages[i].(stayIds := stayIds)]
  {
    if i > 0 {
      WithStaysAt(messages[1..], i - 1, code, stayIds);
    }
  }

  /** The first message with the code now names these stays. */
  function WithStays(messages: seq<Message>, code: Code, stayIds: seq<string>): seq<Message> {
    if messages == [] then []
    else if messages[0].code == code then [messages[0].(stayIds := stayIds)] + messages[1..]
    else [messages[0]] + WithStays(messages[1..], code, stayIds)
  }

  lemma {:induction false} WithStaysKeepsCodes(messages: seq<Message>, code: Code, stayIds: seq<string>)
    ensures |WithStays(messages, code, stayIds)| == |messages|
    ensures forall i :: 0 <= i < |messages| ==> WithStays(messages, code, stayIds)[i].code == messages[i].code
    ensures Codes(WithStays(messages, code, stayIds)) == Codes(messages)
  {
    if messages != [] && messages[0].code != code {
      WithStaysKeepsCodes(messages[1..], code, stayIds);
    }
    var marked := WithStays(messages, code, stayIds);
    forall c ensures c in Codes(marked) <==> c in Codes(messages) {
      if c in Codes(messages) {
        var i :| 0 <= i < |messages| && messages[i].code == c;
        assert marked[i].code == c;
      }
      if c in Codes(marked) {
        var i :| 0 <= i < |marked| && marked[i].code == c;
        assert messages[i].code == c;
      }
    }
  }

  lemma WithCodeAdds(messages: seq<Message>, code: Code)
    ensures Codes(WithCode(messages, code)) == Codes(messages) + {code}
    ensures messages <= WithCode(messages, code)
  {
    if !HasCode(messages, code) {
      var longer := messages + [Message(code, [])];
      forall c ensures c in Codes(longer) <==> c in Codes(messages) + {code} {
        if c in Codes(messages) + {code} {
          assert c == code ==> longer[|messages|].code == c;
          if c in Codes(messages) {
            var i :| 0 <= i < |messages| && messages[i].code == c;
            assert longer[i].code == c;
          }
        }
      }
    }
  }
}
