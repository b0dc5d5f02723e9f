/** The text rules of requests and stored records: trimming, lengths, letter case and
    identifiers. */
module Text {

  predicate IsSpace(c: char) {
    || c in "\t\n\U{B}\U{C}\r \U{A0}\U{1680}\U{2028}\U{2029}\U{202F}\U{205F}\U{3000}\U{FEFF}"
    || '\U{2000}' <= c <= '\U{200A}'
  }

  function TrimStart(s: string): string {
    if s != "" && IsSpace(s[0]) then TrimStart(s[1..]) else s
  }

  function TrimEnd(s: string): string {
    if s != "" && IsSpace(s[|s| - 1]) then TrimEnd(s[..|s| - 1]) else s
  }

  function Trim(s: string): string {
    TrimEnd(TrimStart(s))
  }

  predicate Trimmed(s: string) {
    s == "" || (!IsSpace(s[0]) && !IsSpace(s[|s| - 1]))
  }

  lemma {:induction false} TrimStartStops(s: string)
    ensures TrimStart(s) == "" || !IsSpace(TrimStart(s)[0])
    ensures (s == "" || !IsSpace(s[0])) ==> TrimStart(s) == s
  {
    if s != "" && IsSpace(s[0]) {
      TrimStartStops(s[1..]);
    }
  }

  lemma {:induction false} TrimEndStops(s: string)
    ensures TrimEnd(s) == "" || (TrimEnd(s)[0] == s[0] && !IsSpace(TrimEnd(s)[|TrimEnd(s)| - 1]))
    ensures (s == "" || !IsSpace(s[|s| - 1])) ==> TrimEnd(s) == s
  {
    if s != "" && IsSpace(s[|s| - 1]) {
      TrimEndStops(s[..|s| - 1]);
    }
  }

  lemma TrimTrims(s: string)
    ensures Trimmed(Trim(s))
  {
    TrimStartStops(s);
    TrimEndStops(TrimStart(s));
  }

  lemma TrimmedStays(s: string)
    requires Trimmed(s)
    ensures Trim(s) == s
  {
    TrimStartStops(s);
    TrimEndStops(s);
  }

  /** A text comes out of a trim exactly when trimming leaves it alone. */
  lemma TrimIsIdempotent(s: string)
    ensures Trim(Trim(s)) == Trim(s)
    ensures Trimmed(s) <==> Trim(s) == s
  {
    TrimTrims(s);
    TrimmedStays(Trim(s));
    if Trimmed(s) {
      TrimmedStays(s);
    }
  }

  predicate AllSpace(s: string) {
    forall i :: 0 <= i < |s| ==> IsSpace(s[i])
  }

  lemma {:induction false} TrimStartDrops(s: string)
    ensures exists front: string :: AllSpace(front) && s == front + TrimStart(s)
  {
    if s != "" && IsSpace(s[0]) {
      TrimStartDrops(s[1..]);
      var front: string :| AllSpace(front) && s[1..] == front + TrimStart(s[1..]);
      assert AllSpace([s[0]] + front) && s == ([s[0]] + front) + TrimStart(s);
    } else {
      assert AllSpace("") && s == "" + TrimStart(s);
    }
  }

  lemma {:induction false} TrimEndDrops(s: string)
    ensures exists back: string :: AllSpace(back) && s == TrimEnd(s) + back
  {
    if s != "" && IsSpace(s[|s| - 1]) {
      TrimEndDrops(s[..|s| - 1]);
      var back: string :| AllSpace(back) && s[..|s| - 1] == TrimEnd(s[..|s| - 1]) + back;
      assert AllSpace(back + [s[|s| - 1]]) && s == TrimEnd(s) + (back + [s[|s| - 1]]);
    } else {
      assert AllSpace("") && s == TrimEnd(s) + "";
    }
  }

  /** A trim drops the outer space and nothing else. */
  lemma TrimDropsSpace(s: string)
    ensures Trimmed(Trim(s))
    ensures exists front: string, back: string :: AllSpace(front) && AllSpace(back) && s == front + Trim(s) + back
  {
    TrimTrims(s);
    TrimStartDrops(s);
    TrimEndDrops(TrimStart(s));
    var front: string :| AllSpace(front) && s == front + TrimStart(s);
    var back: string :| AllSpace(back) && TrimStart(s) == Trim(s) + back;
    assert s == front + Trim(s) + back;
  }

  // ---------------------------------------------------------------- lengths

  function Utf16Units(c: char): nat {
    if c as int < 0x10000 then 1 else 2
  }

  /** The length that JavaScript reports of a string. */
  function Utf16Length(s: string): nat {
    if s == "" then 0 else Utf16Length(s[..|s| - 1]) + Utf16Units(s[|s| - 1])
  }

  lemma {:induction false} Utf16IsNoShorter(s: string)
    ensures |s| <= Utf16Length(s) <= 2 * |s|
  {
    if s != "" {
      Utf16IsNoShorter(s[..|s| - 1]);
    }
  }

  lemma {:induction false} Utf16LengthJoins(s: string, t: string)
    ensures Utf16Length(s + t) == Utf16Length(s) + Utf16Length(t)
    ensures |t| == 1 ==> Utf16Length(t) == if t[0] < '\U{10000}' then 1 else 2
  {
    if t == "" {
      assert s + t == s;
    } else {
      Utf16LengthJoins(s, t[..|t| - 1]);
      assert (s + t)[..|s + t| - 1] == s + t[..|t| - 1];
      assert |t| == 1 ==> t[..0] == "";
    }
  }

  // ---------------------------------------------------------------- identifiers

  function LowerChar(c: char): char {
    if 'A' <= c <= 'Z' then (c as int + 32) as char else c
  }

  /** Letter case as identifiers need it: their letters are ASCII. */
  function Lower(s: string): (lower: string)
    ensures |lower| == |s| && forall i :: 0 <= i < |s| ==> lower[i] == LowerChar(s[i])
  {
    seq(|s|, i requires 0 <= i < |s| => LowerChar(s[i]))
  }

  predicate HexDigit(c: char) {
    '0' <= c <= '9' || 'a' <= c <= 'f' || 'A' <= c <= 'F'
  }

  predicate UuidChar(c: char, at: nat) {
    if at == 8 || at == 13 || at == 18 || at == 23 then c == '-'
    else if at == 14 then c == '4'
    else if at == 19 then c in "89abAB"
    else HexDigit(c)
  }

  predicate IsUuidV4(s: string) {
    |s| == 36 && forall i :: 0 <= i < 36 ==> UuidChar(s[i], i)
  }

  lemma LowerKeepsUuid(s: string)
    ensures Lower(Lower(s)) == Lower(s)
    ensures IsUuidV4(s) <==> IsUuidV4(Lower(s))
  {
    forall i | 0 <= i < |s| ensures UuidChar(s[i], i) <==> UuidChar(Lower(s)[i], i) {
      assert LowerChar(s[i]) in "89abAB" <==> s[i] in "89abAB";
    }
  }
}
