/** Paths inside a Go work directory, and their normal form. */
module GoWorkPaths {
  import opened Text

  const MARKER := "/go-build"

  predicate OccursAt(s: string, m: string, i: nat)
  {
    i + |m| <= |s| && s[i..i + |m|] == m
  }

  predicate Occurs(s: string, m: string)
  {
    exists i :: 0 <= i <= |s| && OccursAt(s, m, i)
  }

  /** The last occurrence of `m` that starts before `k`. */
  function RFindBefore(s: string, m: string, k: nat): (r: Option<nat>)
    ensures r.Some? ==> r.value < k && OccursAt(s, m, r.value) && forall j :: r.value < j < k ==> !OccursAt(s, m, j)
    ensures r.None? ==> forall j :: 0 <= j < k ==> !OccursAt(s, m, j)
  {
    if k == 0 then None else if OccursAt(s, m, k - 1) then Some(k - 1) else RFindBefore(s, m, k - 1)
  }

  function RFind(s: string, m: string): Option<nat>
  {
    RFindBefore(s, m, |s| + 1)
  }

  predicate IsDigit(c: char)
  {
    '0' <= c <= '9'
  }

  function DigitCount(s: string): (n: nat)
    ensures n <= |s| && (forall i :: 0 <= i < n ==> IsDigit(s[i])) && (n < |s| ==> !IsDigit(s[n]))
  {
    if s == "" || !IsDigit(s[0]) then 0 else 1 + DigitCount(s[1..])
  }

  function WorkPath(path: string): Option<string>
  {
    match RFind(path, MARKER)
    case None => None
    case Some(start) =>
      var suffix := path[start + |MARKER|..];
      var n := DigitCount(suffix);
      if n == 0 || n == |suffix| || suffix[n] != '/' then None else Some("$WORK" + suffix[n..])
  }

  /** `path` ends in the last `/go-build<digits>` of it followed by `rest`, which starts with a slash. */
  predicate EndsInWorkDir(path: string, head: string, digits: string, rest: string)
  {
    && path == head + MARKER + (digits + rest)
    && digits != "" && (forall i :: 0 <= i < |digits| ==> IsDigit(digits[i]))
    && "/" <= rest && !Occurs(digits + rest, MARKER)
  }

  lemma OccurrenceShifts(a: string, b: string, m: string, j: nat)
    ensures OccursAt(a + b, m, |a| + j) <==> OccursAt(b, m, j)
  {
    if j + |m| <= |b| { assert (a + b)[|a| + j..|a| + j + |m|] == b[j..j + |m|]; }
  }

  lemma CountOfDigits(digits: string, rest: string)
    requires (forall i :: 0 <= i < |digits| ==> IsDigit(digits[i])) && (rest != "" ==> !IsDigit(rest[0]))
    ensures DigitCount(digits + rest) == |digits|
  {
    forall i | 0 <= i < |digits| ensures (digits + rest)[i] == digits[i] { }
    assert rest != "" ==> (digits + rest)[|digits|] == rest[0];
  }

  lemma MarkerAt(s: string, i: nat)
    requires OccursAt(s, MARKER, i)
    ensures s[i] == '/' && forall k :: i < k < i + |MARKER| ==> s[k] != '/'
  {
    forall k | i <= k < i + |MARKER| ensures s[k] == MARKER[k - i] { assert s[i..i + |MARKER|][k - i] == s[k]; }
  }

  /** No occurrence starts inside another: the marker has a slash at its start and nowhere else. */
  lemma MarkerDoesNotOverlap(s: string, i: nat, j: nat)
    requires OccursAt(s, MARKER, i) && OccursAt(s, MARKER, j) && i < j
    ensures i + |MARKER| <= j
  {
    MarkerAt(s, i);
    MarkerAt(s, j);
  }

  lemma LaterIsInTail(head: string, tail: string, j: nat)
    requires |head| < j
    ensures OccursAt(head + MARKER + tail, MARKER, j) ==> Occurs(tail, MARKER)
  {
    var path := head + MARKER + tail;
    if OccursAt(path, MARKER, j) {
      assert path[|head|..|head| + |MARKER|] == MARKER;
      MarkerDoesNotOverlap(path, |head|, j);
      OccurrenceShifts(head + MARKER, tail, MARKER, j - |head| - |MARKER|);
    }
  }

  lemma WorkPathOf(path: string, head: string, digits: string, rest: string)
    requires EndsInWorkDir(path, head, digits, rest)
    ensures WorkPath(path) == Some("$WORK" + rest)
  {
    var tail := digits + rest;
    var start := |head|;
    assert path[start..start + |MARKER|] == MARKER;
    assert OccursAt(path, MARKER, start);
    forall j | start < j ensures !OccursAt(path, MARKER, j) {
      LaterIsInTail(head, tail, j);
    }
    assert RFind(path, MARKER) == Some(start);
    assert path[start + |MARKER|..] == tail;
    CountOfDigits(digits, rest);
    assert tail[|digits|..] == rest;
  }

  lemma WorkPathDropsStart(path: string) returns (skip: nat)
    requires WorkPath(path).Some?
    ensures RFind(path, MARKER).value + |MARKER| <= skip < |path| && path[skip] == '/'
    ensures WorkPath(path).value == "$WORK" + path[skip..]
  {
    var start := RFind(path, MARKER).value;
    var suffix := path[start + |MARKER|..];
    skip := start + |MARKER| + DigitCount(suffix);
    assert suffix[DigitCount(suffix)..] == path[skip..];
  }

  lemma NormalOccurrence(path: string, skip: nat, j: nat)
    requires skip <= |path|
    ensures OccursAt("$WORK" + path[skip..], MARKER, j) ==> j >= 5 && OccursAt(path, MARKER, skip + (j - 5))
  {
    var rest := path[skip..];
    if OccursAt("$WORK" + rest, MARKER, j) {
      MarkerAt("$WORK" + rest, j);
      assert forall i :: 0 <= i < 5 ==> ("$WORK" + rest)[i] == "$WORK"[i] != '/';
      OccurrenceShifts("$WORK", rest, MARKER, j - 5);
      OccurrenceShifts(path[..skip], rest, MARKER, j - 5);
      assert path[..skip] + rest == path;
    }
  }

  /** The normal form of a work path is not a work path, and what follows the digits is all that is kept. */
  lemma WorkPathIsNormal(path: string)
    requires WorkPath(path).Some?
    ensures WorkPath(WorkPath(path).value).None?
  {
    var skip := WorkPathDropsStart(path);
    forall j: nat ensures !OccursAt("$WORK" + path[skip..], MARKER, j) { NormalOccurrence(path, skip, j); }
  }

  lemma WorkPathAddsNoLineFeed(path: string)
    requires WorkPath(path).Some? && '\n' !in path
    ensures '\n' !in WorkPath(path).value
  {
    var skip := WorkPathDropsStart(path);
    assert forall c :: c in path[skip..] ==> c in path;
    assert '\n' !in "$WORK";
  }

  /** A path that has a normal form ends in a work directory, and the rest is what the normal form keeps. */
  lemma WorkPathInverts(path: string) returns (head: string, digits: string, rest: string)
    requires WorkPath(path).Some?
    ensures EndsInWorkDir(path, head, digits, rest) && WorkPath(path) == Some("$WORK" + rest)
  {
    var start := RFind(path, MARKER).value;
    var tail := path[start + |MARKER|..];
    var n := DigitCount(tail);
    head, digits, rest := path[..start], tail[..n], tail[n..];
    assert digits + rest == tail;
    assert path == head + MARKER + tail;
    forall j | 0 <= j <= |tail| ensures !OccursAt(tail, MARKER, j) {
      OccurrenceShifts(head + MARKER, tail, MARKER, j);
    }
  }
}
