/** Go action-cache index entries: the normal form zeroes the timestamp and keeps everything else. */
module GoCacheEntry {
  import opened Records
  import opened Operations
  import opened GoWorkPaths

  const HEX_LENGTH := 64
  const NUMBER_LENGTH := 20
  const ENTRY_LENGTH := 175

  /** Splitting text inside a multi-byte character panics. */
  datatype Outcome = Panicked | NotAnEntry | Normalized(text: string)

  predicate IsCharBoundary(s: string, i: nat)
  {
    i == 0 || i == |s| || (i < |s| && !IsContinuation(s[i]))
  }

  predicate AllLowerHex(s: string)
  {
    forall i :: 0 <= i < |s| ==> IsLowerHex(s[i])
  }

  function TrimSpaces(s: string): string
  {
    if s != "" && s[0] == ' ' then TrimSpaces(s[1..]) else s
  }

  predicate IsPaddedDecimal(field: string)
  {
    TrimSpaces(field) != "" && forall i :: 0 <= i < |TrimSpaces(field)| ==> IsDigit(TrimSpaces(field)[i])
  }

  const ZERO_TIMESTAMP := "                   0"

  function Entry(action: string, output: string, size: string, timestamp: string): string
  {
    "v1 " + action + " " + output + " " + size + " " + timestamp + "\n"
  }

  /** Size and timestamp, after the second separator. */
  function NormalizeNumbers(action: string, output: string, rest: string): Outcome
    requires |rest| == 2 * NUMBER_LENGTH + 1
  {
    if !IsCharBoundary(rest, NUMBER_LENGTH) then Panicked
    else
      var size, tail := rest[..NUMBER_LENGTH], rest[NUMBER_LENGTH..];
      if tail[0] != ' ' then NotAnEntry
      else if AllLowerHex(action) && AllLowerHex(output) && IsPaddedDecimal(size) && IsPaddedDecimal(tail[1..]) then
        Normalized(Entry(action, output, size, ZERO_TIMESTAMP))
      else NotAnEntry
  }

  function NormalizeFields(rest: string): Outcome
    requires |rest| == 2 * HEX_LENGTH + 2 * NUMBER_LENGTH + 3
  {
    if !IsCharBoundary(rest, HEX_LENGTH) then Panicked
    else if rest[HEX_LENGTH] != ' ' then NotAnEntry
    else
      var action, rest1 := rest[..HEX_LENGTH], rest[HEX_LENGTH + 1..];
      if !IsCharBoundary(rest1, HEX_LENGTH) then Panicked
      else if rest1[HEX_LENGTH] != ' ' then NotAnEntry
      else NormalizeNumbers(action, rest1[..HEX_LENGTH], rest1[HEX_LENGTH + 1..])
  }

  function Normalize(contents: string): Outcome
  {
    if !ValidUtf8(contents) || !("v1 " <= contents) then NotAnEntry
    else
      var rest := contents[3..];
      if rest == "" || rest[|rest| - 1] != '\n' || |rest| != ENTRY_LENGTH - 3 then NotAnEntry
      else NormalizeFields(rest[..|rest| - 1])
  }

  /** The fields of a text of the right shape. */
  predicate IsEntry(contents: string, action: string, output: string, size: string, timestamp: string)
  {
    && contents == Entry(action, output, size, timestamp)
    && |action| == |output| == HEX_LENGTH && |size| == |timestamp| == NUMBER_LENGTH
    && AllLowerHex(action) && AllLowerHex(output) && IsPaddedDecimal(size) && IsPaddedDecimal(timestamp)
  }

  lemma EntryParts(action: string, output: string, size: string, timestamp: string)
    requires |action| == |output| == HEX_LENGTH && |size| == |timestamp| == NUMBER_LENGTH
    ensures var e := Entry(action, output, size, timestamp);
            && |e| == ENTRY_LENGTH && "v1 " <= e && e[174] == '\n' && e[67] == ' ' && e[132] == ' ' && e[153] == ' '
            && e[3..67] == action && e[68..132] == output && e[133..153] == size && e[154..174] == timestamp
  {
  }

  function Action(contents: string): string requires |contents| == ENTRY_LENGTH { contents[3..67] }
  function Output(contents: string): string requires |contents| == ENTRY_LENGTH { contents[68..132] }
  function Size(contents: string): string requires |contents| == ENTRY_LENGTH { contents[133..153] }
  function Timestamp(contents: string): string requires |contents| == ENTRY_LENGTH { contents[154..174] }

  predicate IsEntryText(contents: string)
  {
    && |contents| == ENTRY_LENGTH
    && IsEntry(contents, Action(contents), Output(contents), Size(contents), Timestamp(contents))
  }

  predicate Ascii(s: string)
  {
    forall i :: 0 <= i < |s| ==> s[i] as int < 0x80
  }

  lemma {:induction false} AsciiFirst(a: string, b: string)
    requires Ascii(a)
    ensures ValidUtf8(a + b) == ValidUtf8(b)
  {
    if a == "" {
      assert a + b == b;
    } else {
      assert (a + b)[1..] == a[1..] + b;
      AsciiFirst(a[1..], b);
    }
  }

  lemma {:induction false} PaddedDecimalIsAscii(field: string)
    requires IsPaddedDecimal(field)
    ensures Ascii(field)
  {
    if field[0] == ' ' {
      PaddedDecimalIsAscii(field[1..]);
      assert field == [field[0]] + field[1..];
    }
  }

  lemma AsciiJoin(a: string, b: string)
    requires Ascii(a) && Ascii(b)
    ensures Ascii(a + b)
  {
  }

  lemma EntryIsValid(action: string, output: string, size: string, timestamp: string)
    requires AllLowerHex(action) && AllLowerHex(output) && IsPaddedDecimal(size) && IsPaddedDecimal(timestamp)
    ensures ValidUtf8(Entry(action, output, size, timestamp))
  {
    PaddedDecimalIsAscii(size);
    PaddedDecimalIsAscii(timestamp);
    assert Ascii(action) && Ascii(output);
    AsciiJoin("v1 ", action);
    AsciiJoin("v1 " + action, " ");
    AsciiJoin("v1 " + action + " ", output);
    AsciiJoin("v1 " + action + " " + output, " ");
    AsciiJoin("v1 " + action + " " + output + " ", size);
    AsciiJoin("v1 " + action + " " + output + " " + size, " ");
    AsciiJoin("v1 " + action + " " + output + " " + size + " ", timestamp);
    AsciiJoin("v1 " + action + " " + output + " " + size + " " + timestamp, "\n");
    var e := Entry(action, output, size, timestamp);
    AsciiFirst(e, "");
    assert e + "" == e;
  }

  lemma SliceOfSlice(s: string, i: nat, j: nat, k: nat, l: nat)
    requires i <= j <= |s| && k <= l <= j - i
    ensures s[i..j][k..l] == s[i + k..i + l]
  {
    assert forall x :: k <= x < l ==> s[i..j][x] == s[i + x];
  }

  lemma NumbersAt(c: string, action: string, output: string)
    requires |c| == ENTRY_LENGTH
    ensures NormalizeNumbers(action, output, c[133..174]) ==
      if IsContinuation(c[153]) then Panicked else if c[153] != ' ' then NotAnEntry
      else if AllLowerHex(action) && AllLowerHex(output) && IsPaddedDecimal(Size(c)) && IsPaddedDecimal(Timestamp(c))
      then Normalized(Entry(action, output, Size(c), ZERO_TIMESTAMP))
      else NotAnEntry
  {
    var rest := c[133..174];
    assert rest[20] == c[153];
    SliceOfSlice(c, 133, 174, 0, 20);
    SliceOfSlice(c, 133, 174, 20, 41);
    SliceOfSlice(c, 153, 174, 1, 21);
  }

  lemma FieldsAt(c: string)
    requires |c| == ENTRY_LENGTH
    ensures NormalizeFields(c[3..174]) ==
      if IsContinuation(c[67]) then Panicked else if c[67] != ' ' then NotAnEntry
      else if IsContinuation(c[132]) then Panicked else if c[132] != ' ' then NotAnEntry
      else NormalizeNumbers(Action(c), Output(c), c[133..174])
  {
    var rest, rest1 := c[3..174], c[68..174];
    assert rest[64] == c[67] && rest1[64] == c[132];
    SliceOfSlice(c, 3, 174, 0, 64);
    SliceOfSlice(c, 3, 174, 65, 171);
    SliceOfSlice(c, 68, 174, 0, 64);
    SliceOfSlice(c, 68, 174, 65, 106);
  }

  /** The outer form of an entry. */
  predicate Framed(c: string)
  {
    ValidUtf8(c) && "v1 " <= c && |c| == ENTRY_LENGTH && c[174] == '\n'
  }

  lemma NormalizeInFrame(c: string)
    ensures Normalize(c) == if Framed(c) then NormalizeFields(c[3..174]) else NotAnEntry
  {
    if "v1 " <= c {
      var rest := c[3..];
      assert rest != "" ==> rest[|rest| - 1] == c[|c| - 1];
      if |c| == ENTRY_LENGTH {
        assert rest == c[3..175];
        SliceOfSlice(c, 3, 175, 0, 171);
      }
    }
  }

  /** The steps of the normalization, with all positions counted from the start of the text. */
  lemma NormalizeAt(c: string)
    requires Framed(c)
    ensures Normalize(c) ==
      if IsContinuation(c[67]) then Panicked else if c[67] != ' ' then NotAnEntry
      else if IsContinuation(c[132]) then Panicked else if c[132] != ' ' then NotAnEntry
      else if IsContinuation(c[153]) then Panicked else if c[153] != ' ' then NotAnEntry
      else if AllLowerHex(Action(c)) && AllLowerHex(Output(c)) && IsPaddedDecimal(Size(c))
        && IsPaddedDecimal(Timestamp(c))
      then Normalized(Entry(Action(c), Output(c), Size(c), ZERO_TIMESTAMP))
      else NotAnEntry
  {
    NormalizeInFrame(c);
    FieldsAt(c);
    NumbersAt(c, Action(c), Output(c));
  }

  lemma Reassemble(c: string)
    requires |c| == ENTRY_LENGTH && "v1 " <= c && c[174] == '\n' && c[67] == ' ' && c[132] == ' ' && c[153] == ' '
    ensures c == Entry(Action(c), Output(c), Size(c), Timestamp(c))
  {
  }

  lemma ZeroIsPaddedDecimal()
    ensures |ZERO_TIMESTAMP| == NUMBER_LENGTH && IsPaddedDecimal(ZERO_TIMESTAMP)
  {
    ZeroAfterSpaces(NUMBER_LENGTH - 1);
    assert ZERO_TIMESTAMP == seq(NUMBER_LENGTH - 1, _ => ' ') + "0";
  }

  lemma {:induction false} ZeroAfterSpaces(n: nat)
    ensures TrimSpaces(seq(n, _ => ' ') + "0") == "0"
  {
    if n > 0 {
      assert (seq(n, _ => ' ') + "0")[1..] == seq(n - 1, _ => ' ') + "0";
      ZeroAfterSpaces(n - 1);
    }
  }

  /** Exactly the entries have a normal form, and it is the entry with the timestamp zero. */
  lemma NormalizedIff(c: string)
    ensures Normalize(c).Normalized? <==> IsEntryText(c)
    ensures IsEntryText(c) ==> Normalize(c) == Normalized(Entry(Action(c), Output(c), Size(c), ZERO_TIMESTAMP))
  {
    if IsEntryText(c) {
      EntryIsValid(Action(c), Output(c), Size(c), Timestamp(c));
      EntryParts(Action(c), Output(c), Size(c), Timestamp(c));
      NormalizeAt(c);
    }
    NormalizeInFrame(c);
    if Normalize(c).Normalized? {
      NormalizeAt(c);
      Reassemble(c);
    }
  }

  /** Normalizing forgets the timestamp and nothing else. */
  lemma SameNormalFormIff(c: string, c': string)
    requires IsEntryText(c) && IsEntryText(c')
    ensures Normalize(c) == Normalize(c') <==> Action(c) == Action(c') && Output(c) == Output(c') && Size(c) == Size(c')
  {
    NormalizedIff(c);
    NormalizedIff(c');
    ZeroIsPaddedDecimal();
    EntryParts(Action(c), Output(c), Size(c), ZERO_TIMESTAMP);
    EntryParts(Action(c'), Output(c'), Size(c'), ZERO_TIMESTAMP);
  }

  /** A normal form is an entry, and its own normal form. */
  lemma NormalFormIsStable(c: string)
    requires Normalize(c).Normalized?
    ensures var n := Normalize(c).text; IsEntryText(n) && Normalize(n) == Normalized(n)
  {
    NormalizedIff(c);
    ZeroIsPaddedDecimal();
    EntryParts(Action(c), Output(c), Size(c), ZERO_TIMESTAMP);
    NormalizedIff(Entry(Action(c), Output(c), Size(c), ZERO_TIMESTAMP));
  }

  /** It panics iff a text of the right frame has a continuation byte where the first unchecked separator should be. */
  lemma PanicsIff(c: string)
    ensures Normalize(c).Panicked? <==>
      && Framed(c)
      && (IsContinuation(c[67])
          || (c[67] == ' ' && IsContinuation(c[132]))
          || (c[67] == ' ' && c[132] == ' ' && IsContinuation(c[153])))
  {
    NormalizeInFrame(c);
    if Framed(c) { NormalizeAt(c); }
  }

  function Letters(n: nat): string
  {
    seq(n, _ => 'a')
  }

  /** Such a text exists: 63 letters, a two-byte character across the first field's end, and more letters. */
  lemma PanicHappens()
    ensures Normalize("v1 " + Letters(63) + [0xC3 as char, 0xA9 as char] + Letters(106) + "\n").Panicked?
  {
    var start, end := "v1 " + Letters(63), Letters(106) + "\n";
    var accent := [0xC3 as char, 0xA9 as char];
    var c := start + accent + Letters(106) + "\n";
    AsciiFirst(end, "");
    assert end + "" == end;
    assert (accent + end)[2..] == end;
    AsciiFirst(start, accent + end);
    assert c == start + (accent + end);
    PanicsIff(c);
  }
}
