/** Well-formed UTF-8 can be joined anywhere, and split before every byte that continues no character. */
module Utf8 {
  import opened Sequences
  import opened Operations
  import opened Records

  /** The number of bytes of the first character. */
  function FirstLength(s: string): nat
    requires s != ""
  {
    var b := s[0] as int;
    if b < 0x80 then 1 else if b <= 0xDF then 2 else if b <= 0xEF then 3 else 4
  }

  /** The first character is well-formed. */
  predicate StartsWell(s: string)
    requires s != ""
  {
    var b, n := s[0] as int, FirstLength(s);
    && n <= |s| && (b < 0x80 || 0xC2 <= b <= 0xF4)
    && (forall i :: 1 <= i < n ==> IsContinuation(s[i]))
    && (b == 0xE0 ==> s[1] as int >= 0xA0) && (b == 0xED ==> s[1] as int <= 0x9F)
    && (b == 0xF0 ==> s[1] as int >= 0x90) && (b == 0xF4 ==> s[1] as int <= 0x8F)
  }

  lemma FirstAndRest(s: string)
    requires s != ""
    ensures ValidUtf8(s) <==> StartsWell(s) && ValidUtf8(s[FirstLength(s)..])
  {
  }

  lemma SameStart(s: string, t: string)
    requires s != "" && t != "" && FirstLength(s) <= |s| && FirstLength(s) <= |t|
    requires s[..FirstLength(s)] == t[..FirstLength(s)]
    ensures FirstLength(t) == FirstLength(s) && (StartsWell(s) <==> StartsWell(t))
  {
    forall i | 0 <= i < FirstLength(s) ensures s[i] == t[i] { assert s[..FirstLength(s)][i] == t[..FirstLength(s)][i]; }
  }

  lemma TakeOfJoined(a: string, b: string, n: nat)
    requires n <= |a|
    ensures (a + b)[..n] == a[..n] && (a + b)[n..] == a[n..] + b
  {
  }

  lemma {:induction false} Join(a: string, b: string)
    requires ValidUtf8(a) && ValidUtf8(b)
    ensures ValidUtf8(a + b)
    decreases |a|
  {
    if a == "" {
      assert a + b == b;
    } else {
      var n := FirstLength(a);
      FirstAndRest(a);
      TakeOfJoined(a, b, n);
      SameStart(a, a + b);
      Join(a[n..], b);
      FirstAndRest(a + b);
    }
  }

  /** The first character of the whole lies in the first part, since the second starts no continuation. */
  lemma FirstIsWithin(a: string, b: string)
    requires a != "" && StartsWell(a + b) && (b == "" || !IsContinuation(b[0]))
    ensures FirstLength(a + b) == FirstLength(a) <= |a|
  {
    assert b != "" ==> (a + b)[|a|] == b[0];
    assert (a + b)[0] == a[0];
  }

  lemma {:induction false} Split(a: string, b: string)
    requires ValidUtf8(a + b) && (b == "" || !IsContinuation(b[0]))
    ensures ValidUtf8(a) && ValidUtf8(b)
    decreases |a|
  {
    if a == "" {
      assert a + b == b;
    } else {
      var n := FirstLength(a);
      FirstAndRest(a + b);
      FirstIsWithin(a, b);
      TakeOfJoined(a, b, n);
      SameStart(a + b, a);
      Split(a[n..], b);
      FirstAndRest(a);
    }
  }

  lemma AsciiAndRest(c: char, b: string)
    requires c as int < 0x80
    ensures ValidUtf8([c] + b) <==> ValidUtf8(b)
  {
    assert ([c] + b)[1..] == b;
  }

  /** After an ASCII character, too, the text can be split. */
  lemma SplitAfter(a: string, b: string)
    requires ValidUtf8(a + b) && a != "" && a[|a| - 1] as int < 0x80
    ensures ValidUtf8(a) && ValidUtf8(b)
  {
    var init, c := a[..|a| - 1], a[|a| - 1];
    assert a == init + [c];
    Assoc(init, [c], b);
    Split(init, [c] + b);
    AsciiAndRest(c, b);
    AsciiAndRest(c, "");
    AppendNothing([c]);
    Join(init, [c]);
  }

  lemma {:induction false} JoinAll(parts: seq<string>)
    requires forall i :: 0 <= i < |parts| ==> ValidUtf8(parts[i])
    ensures ValidUtf8(Concat(parts))
  {
    if parts != [] {
      JoinAll(parts[1..]);
      Join(parts[0], Concat(parts[1..]));
    }
  }
}
