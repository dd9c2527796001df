/** Go import configurations: what normalizing one forgets, and that it forgets nothing twice. */
module GoImportConfig {
  import opened Sequences
  import opened Text
  import opened Records
  import opened GoWorkPaths
  import opened Operations
  import opened Utf8

  function FindChar(s: string, c: char): (i: nat)
    ensures i <= |s| && (forall j :: 0 <= j < i ==> s[j] != c) && (i < |s| ==> s[i] == c)
  {
    if s == "" || s[0] == c then 0 else 1 + FindChar(s[1..], c)
  }

  /** The lines of a text, each with its line feed if it has one. */
  function Lines(s: string): (ls: seq<string>)
    decreases |s|
  {
    if s == "" then []
    else
      var i := FindChar(s, '\n');
      if i == |s| then [s] else [s[..i + 1]] + Lines(s[i + 1..])
  }

  function Ending(line: string): string
  {
    if line != "" && line[|line| - 1] == '\n' then "\n" else ""
  }

  function Body(line: string): string
  {
    line[..|line| - |Ending(line)|]
  }

  /** The length of the keyword of a package line. */
  function KeywordLength(body: string): Option<nat>
  {
    if "packagefile " <= body then Some(12) else if "packageshlib " <= body then Some(13) else None
  }

  predicate IsOtherLine(body: string)
  {
    body == "" || body == "# import config" || "importmap " <= body || "modinfo " <= body
  }

  datatype Verdict = Reject | Keep | Rewrite(text: string)

  function Judge(body: string): Verdict
  {
    match KeywordLength(body)
    case Some(k) =>
      var equals := FindChar(body[k..], '=');
      if equals == |body| - k then Reject
      else
        var offset := k + equals + 1;
        var workRelative := WorkPath(body[offset..]);
        if workRelative.Some? then Rewrite(body[..offset] + workRelative.value) else Keep
    case None => if IsOtherLine(body) then Keep else Reject
  }

  /** The normal form of a line, ending included. */
  function NormalLine(line: string): Option<string>
  {
    match Judge(Body(line))
    case Reject => None
    case Keep => Some(line)
    case Rewrite(text) => Some(text + Ending(line))
  }

  /** All lines in their normal form, and whether any was rewritten. */
  function NormalizeLines(ls: seq<string>): Option<(string, bool)>
  {
    if ls == [] then Some(("", false))
    else
      var last := ls[|ls| - 1];
      match NormalizeLines(ls[..|ls| - 1])
      case None => None
      case Some((text, changed)) =>
        match NormalLine(last)
        case None => None
        case Some(line) => Some((text + line, changed || Judge(Body(last)).Rewrite?))
  }

  /** The normal form of a configuration, if it is one and its normal form differs. */
  function Normalize(contents: string): Option<string>
  {
    if !ValidUtf8(contents) then None
    else
      match NormalizeLines(Lines(contents))
      case None => None
      case Some((text, changed)) => if changed then Some(text) else None
  }

  lemma OneMoreLine(ls: seq<string>, i: nat)
    requires i < |ls| && NormalizeLines(ls[..i]).Some?
    ensures NormalizeLines(ls[..i + 1]) ==
      var (text, changed) := NormalizeLines(ls[..i]).value;
      var line := NormalLine(ls[i]);
      if line.None? then None else Some((text + line.value, changed || Judge(Body(ls[i])).Rewrite?))
  {
    assert ls[..i + 1][..i] == ls[..i];
  }

  lemma {:induction false} RejectionStays(ls: seq<string>, i: nat)
    requires i <= |ls| && NormalizeLines(ls[..i]).None?
    ensures NormalizeLines(ls).None?
  {
    if i == |ls| {
      assert ls[..i] == ls;
    } else {
      assert ls[..|ls| - 1][..i] == ls[..i];
      RejectionStays(ls[..|ls| - 1], i);
    }
  }

  lemma LineParts(line: string)
    ensures line == Body(line) + Ending(line)
  {
  }

  method NormalizeGoImportConfig(contents: string) returns (r: Option<string>)
    ensures r == Normalize(contents)
  {
    if !ValidUtf8(contents) {
      return None;
    }
    var normalized, changed := "", false;
    var ls := Lines(contents);
    for i := 0 to |ls|
      invariant NormalizeLines(ls[..i]) == Some((normalized, changed))
    {
      OneMoreLine(ls, i);
      var line, ending := Body(ls[i]), Ending(ls[i]);
      LineParts(ls[i]);
      var keyword := KeywordLength(line);
      if keyword.Some? {
        var equals := FindChar(line[keyword.value..], '=');
        if equals == |line| - keyword.value {
          RejectionStays(ls, i + 1);
          return None;
        }
        var offset := keyword.value + equals + 1;
        var workRelative := WorkPath(line[offset..]);
        if workRelative.Some? {
          var rewritten := line[..offset] + workRelative.value + ending;
          assert NormalLine(ls[i]) == Some(rewritten);
          normalized := normalized + rewritten;
          changed := true;
          continue;
        }
      } else if !IsOtherLine(line) {
        RejectionStays(ls, i + 1);
        return None;
      }
      assert NormalLine(ls[i]) == Some(ls[i]);
      normalized := normalized + (line + ending);
    }
    assert ls[..|ls|] == ls;
    r := if changed then Some(normalized) else None;
  }

  // ------------------------------------------------------------------------------------------- what is forgotten

  /** Everything up to the equals sign of a package line. */
  predicate IsKey(key: string)
  {
    && KeywordLength(key).Some? && key[|key| - 1] == '=' && |key| > KeywordLength(key).value
    && FindChar(key[KeywordLength(key).value..], '=') == |key| - 1 - KeywordLength(key).value
  }

  /** The package value of the two lines differs, if at all, before the rest after its last `/go-build<digits>`. */
  ghost predicate DifferInWorkDir(line: string, line': string)
  {
    && Ending(line) == Ending(line')
    && exists key, head, digits, rest, head', digits', value, value' ::
      && IsKey(key) && Body(line) == key + value && Body(line') == key + value'
      && EndsInWorkDir(value, head, digits, rest) && EndsInWorkDir(value', head', digits', rest)
  }

  lemma FindInPrefix(s: string, t: string, c: char)
    requires FindChar(s, c) < |s|
    ensures FindChar(s + t, c) == FindChar(s, c)
  {
    forall j | 0 <= j <= FindChar(s, c) ensures (s + t)[j] == s[j] { }
  }

  lemma KeyIsFound(key: string, value: string)
    requires IsKey(key)
    ensures KeywordLength(key + value) == KeywordLength(key)
    ensures var k := KeywordLength(key).value;
            FindChar((key + value)[k..], '=') == |key| - 1 - k && (key + value)[..|key|] == key
            && (key + value)[|key|..] == value
  {
    var k := KeywordLength(key).value;
    assert (key + value)[..12] == key[..12];
    assert k == 13 ==> (key + value)[..13] == key[..13];
    assert (key + value)[k..] == key[k..] + value;
    FindInPrefix(key[k..], value, '=');
  }

  lemma JudgePackage(key: string, value: string)
    requires IsKey(key)
    ensures Judge(key + value) == match WorkPath(value)
                                  case Some(w) => Rewrite(key + w)
                                  case None => Keep
  {
    KeyIsFound(key, value);
  }

  lemma FindInTake(s: string, c: char)
    requires FindChar(s, c) < |s|
    ensures FindChar(s[..FindChar(s, c) + 1], c) == FindChar(s, c)
  {
    var i, t := FindChar(s, c), s[..FindChar(s, c) + 1];
    forall j | 0 <= j <= i ensures t[j] == s[j] { }
  }

  lemma KeywordOfTake(body: string, offset: nat)
    requires KeywordLength(body).Some? && KeywordLength(body).value < offset <= |body|
    ensures KeywordLength(body[..offset]) == KeywordLength(body)
  {
    assert body[..offset][..12] == body[..12];
    assert offset > 13 ==> body[..offset][..13] == body[..13];
  }

  /** A package line that is not rejected consists of a key and a value. */
  lemma JudgeInverts(body: string) returns (key: string, value: string)
    requires KeywordLength(body).Some? && !Judge(body).Reject?
    ensures IsKey(key) && body == key + value
  {
    var k := KeywordLength(body).value;
    var i := FindChar(body[k..], '=');
    var offset := k + i + 1;
    key, value := body[..offset], body[offset..];
    KeywordOfTake(body, offset);
    FindInTake(body[k..], '=');
    assert key[k..] == body[k..][..i + 1];
    assert body == key + value;
  }

  lemma DifferentWorkDirsAgree(line: string, line': string)
    requires DifferInWorkDir(line, line')
    ensures NormalLine(line).Some? && NormalLine(line) == NormalLine(line')
    ensures Judge(Body(line)).Rewrite? && Judge(Body(line')).Rewrite?
  {
    var key, head, digits, rest, head', digits', value, value' :|
      && IsKey(key) && Body(line) == key + value && Body(line') == key + value'
      && EndsInWorkDir(value, head, digits, rest) && EndsInWorkDir(value', head', digits', rest);
    JudgePackage(key, value);
    JudgePackage(key, value');
    WorkPathOf(value, head, digits, rest);
    WorkPathOf(value', head', digits', rest);
  }

  lemma {:induction false} SameNormalLines(ls: seq<string>, ls': seq<string>)
    requires |ls| == |ls'|
    requires forall i :: 0 <= i < |ls| ==> ls[i] == ls'[i] || DifferInWorkDir(ls[i], ls'[i])
    ensures NormalizeLines(ls) == NormalizeLines(ls')
  {
    if ls != [] {
      var n := |ls| - 1;
      SameNormalLines(ls[..n], ls'[..n]);
      if ls[n] != ls'[n] { DifferentWorkDirsAgree(ls[n], ls'[n]); }
    }
  }

  /** Configurations that differ only in the work directory of package values have the same outcome. */
  lemma WorkDirIsForgotten(c: string, c': string)
    requires ValidUtf8(c) && ValidUtf8(c') && |Lines(c)| == |Lines(c')|
    requires forall i :: 0 <= i < |Lines(c)| ==>
      Lines(c)[i] == Lines(c')[i] || DifferInWorkDir(Lines(c)[i], Lines(c')[i])
    ensures Normalize(c) == Normalize(c')
  {
    SameNormalLines(Lines(c), Lines(c'));
  }

  // ------------------------------------------------------------------------------------------- lines of a text

  /** A line feed is the last character of a line or not in it. */
  predicate IsLine(line: string)
  {
    line != "" && '\n' !in line[..|line| - 1]
  }

  /** Only the last line may lack its line feed. */
  predicate AreLines(ls: seq<string>)
  {
    && (forall i :: 0 <= i < |ls| ==> IsLine(ls[i]))
    && (forall i :: 0 <= i < |ls| - 1 ==> ls[i][|ls[i]| - 1] == '\n')
  }

  lemma FirstLine(line: string, rest: string)
    requires IsLine(line) && (line[|line| - 1] == '\n' || rest == "")
    ensures Lines(line + rest) == [line] + Lines(rest)
  {
    var i, init := FindChar(line + rest, '\n'), line[..|line| - 1];
    forall j | 0 <= j < |line| - 1 ensures (line + rest)[j] != '\n' { assert (line + rest)[j] == init[j]; }
    assert line[|line| - 1] == (line + rest)[|line| - 1];
    if line[|line| - 1] == '\n' {
      assert (line + rest)[..i + 1] == line && (line + rest)[i + 1..] == rest;
    } else {
      assert line + rest == line;
    }
  }

  /** Joining lines and splitting the text again gives the lines back. */
  lemma {:induction false} LinesOfJoined(ls: seq<string>)
    requires AreLines(ls)
    ensures Lines(Concat(ls)) == ls
  {
    if ls != [] {
      LinesOfJoined(ls[1..]);
      FirstLine(ls[0], Concat(ls[1..]));
      assert [ls[0]] + ls[1..] == ls;
    }
  }

  lemma PrependLine(line: string, ls: seq<string>)
    requires IsLine(line) && line[|line| - 1] == '\n' && AreLines(ls)
    ensures AreLines([line] + ls) && Concat([line] + ls) == line + Concat(ls)
  {
    assert ([line] + ls)[1..] == ls;
  }

  lemma PrefixIsLine(s: string, i: nat)
    requires i < |s| && forall j :: 0 <= j < i ==> s[j] != '\n'
    ensures IsLine(s[..i + 1])
  {
    var line := s[..i + 1];
    assert line[..|line| - 1] == s[..i];
  }

  lemma TakeLine(s: string)
    requires s != ""
    ensures var i := FindChar(s, '\n');
            if i == |s| then IsLine(s) else IsLine(s[..i + 1]) && s[..i + 1][i] == '\n' && s == s[..i + 1] + s[i + 1..]
  {
    var i := FindChar(s, '\n');
    if i == |s| {
      PrefixIsLine(s, i - 1);
      assert s[..|s|] == s;
    } else {
      PrefixIsLine(s, i);
      SplitAt(s, i + 1);
    }
  }

  lemma {:induction false} SplitGivesLines(s: string)
    ensures AreLines(Lines(s)) && Concat(Lines(s)) == s
    decreases |s|
  {
    if s != "" {
      var i := FindChar(s, '\n');
      TakeLine(s);
      if i == |s| {
        assert Concat([s]) == s + Concat([s][1..]) == s;
      } else {
        SplitGivesLines(s[i + 1..]);
        PrependLine(s[..i + 1], Lines(s[i + 1..]));
      }
    }
  }

  lemma {:induction false} ConcatOfOneMore(ls: seq<string>, l: string)
    ensures Concat(ls + [l]) == Concat(ls) + l
  {
    if ls == [] {
      assert ls + [l] == [l] && Concat([l]) == l + Concat([]);
    } else {
      assert (ls + [l])[1..] == ls[1..] + [l];
      ConcatOfOneMore(ls[1..], l);
    }
  }

  predicate AllSome<T, U>(f: T -> Option<U>, s: seq<T>)
  {
    forall i :: 0 <= i < |s| ==> f(s[i]).Some?
  }

  function Values<T, U>(f: T -> Option<U>, s: seq<T>): (r: seq<U>)
    requires AllSome(f, s)
    ensures |r| == |s| && forall i :: 0 <= i < |s| ==> r[i] == f(s[i]).value
  {
    seq(|s|, i requires 0 <= i < |s| => f(s[i]).value)
  }

  predicate AnyIs<T>(p: T -> bool, s: seq<T>)
  {
    exists i :: 0 <= i < |s| && p(s[i])
  }

  lemma AllSomeLast<T, U>(f: T -> Option<U>, s: seq<T>, n: nat)
    requires |s| == n + 1
    ensures AllSome(f, s) <==> AllSome(f, s[..n]) && f(s[n]).Some?
    ensures AllSome(f, s) ==> Values(f, s) == Values(f, s[..n]) + [f(s[n]).value]
  {
    forall i | 0 <= i < n ensures s[..n][i] == s[i] { }
    if AllSome(f, s[..n]) && f(s[n]).Some? {
      forall i | 0 <= i <= n ensures f(s[i]).Some? {
        if i < n { assert s[..n][i] == s[i]; }
      }
    }
  }

  lemma AnyLast<T>(p: T -> bool, s: seq<T>, n: nat)
    requires |s| == n + 1
    ensures AnyIs(p, s) <==> AnyIs(p, s[..n]) || p(s[n])
  {
    if AnyIs(p, s) {
      var i :| 0 <= i < |s| && p(s[i]);
      if i < n { assert s[..n][i] == s[i]; }
    }
    if AnyIs(p, s[..n]) {
      var i :| 0 <= i < n && p(s[..n][i]);
      assert s[..n][i] == s[i];
    }
  }

  predicate IsRewritten(line: string)
  {
    Judge(Body(line)).Rewrite?
  }

  predicate AllAccepted(ls: seq<string>)
  {
    AllSome(NormalLine, ls)
  }

  function NormalLines(ls: seq<string>): (r: seq<string>)
    requires AllAccepted(ls)
  {
    Values(NormalLine, ls)
  }

  predicate AnyRewritten(ls: seq<string>)
  {
    AnyIs(IsRewritten, ls)
  }

  lemma {:induction false} NormalizedText(ls: seq<string>)
    ensures NormalizeLines(ls).Some? <==> AllAccepted(ls)
    ensures AllAccepted(ls) ==> NormalizeLines(ls) == Some((Concat(NormalLines(ls)), AnyRewritten(ls)))
  {
    if ls != [] {
      var n := |ls| - 1;
      NormalizedText(ls[..n]);
      AllSomeLast(NormalLine, ls, n);
      AnyLast(IsRewritten, ls, n);
      if AllAccepted(ls) {
        ConcatOfOneMore(NormalLines(ls[..n]), NormalLine(ls[n]).value);
      }
    }
  }

  // ------------------------------------------------------------------------------------------- normal lines

  lemma BodyOfEnded(body: string, ending: string)
    requires '\n' !in body && (ending == "" || ending == "\n")
    ensures Ending(body + ending) == ending && Body(body + ending) == body
    ensures body + ending != "" ==> IsLine(body + ending)
  {
    assert body + "" == body;
    assert (body + "\n")[..|body|] == body;
    if ending == "" && body != "" {
      assert body[|body| - 1] in body;
      assert forall c :: c in body[..|body| - 1] ==> c in body;
    }
  }

  lemma BodyHasNoLineFeed(line: string)
    requires IsLine(line)
    ensures '\n' !in Body(line)
  {
    if line[|line| - 1] != '\n' {
      assert line == line[..|line| - 1] + [line[|line| - 1]];
    }
  }

  /** A rewritten line consists of the key, and of the normal form of the value. */
  lemma RewrittenLine(line: string) returns (key: string, value: string)
    requires Judge(Body(line)).Rewrite?
    ensures IsKey(key) && Body(line) == key + value && WorkPath(value).Some?
    ensures NormalLine(line) == Some(key + WorkPath(value).value + Ending(line))
  {
    key, value := JudgeInverts(Body(line));
    JudgePackage(key, value);
  }

  /** A normal line is a line, ends like the original, and is kept when it is normalized again. */
  lemma NormalLineIsKept(line: string)
    requires IsLine(line) && NormalLine(line).Some?
    ensures var n := NormalLine(line).value;
            IsLine(n) && Ending(n) == Ending(line) && Judge(Body(n)).Keep? && NormalLine(n) == Some(n)
  {
    if Judge(Body(line)).Rewrite? {
      var key, value := RewrittenLine(line);
      var w := WorkPath(value).value;
      BodyHasNoLineFeed(line);
      assert forall c :: c in key || c in value ==> c in key + value;
      WorkPathAddsNoLineFeed(value);
      BodyOfEnded(key + w, Ending(line));
      WorkPathIsNormal(value);
      JudgePackage(key, w);
    }
  }

  lemma NormalLinesAreKept(ls: seq<string>)
    requires AreLines(ls) && AllAccepted(ls)
    ensures AreLines(NormalLines(ls)) && AllAccepted(NormalLines(ls)) && !AnyRewritten(NormalLines(ls))
    ensures NormalLines(NormalLines(ls)) == NormalLines(ls)
  {
    forall i | 0 <= i < |ls|
      ensures var n := NormalLines(ls)[i];
              IsLine(n) && Ending(n) == Ending(ls[i]) && Judge(Body(n)).Keep? && NormalLine(n) == Some(n)
    {
      NormalLineIsKept(ls[i]);
    }
  }

  lemma {:induction false} LinesAreValid(ls: seq<string>, i: nat)
    requires AreLines(ls) && ValidUtf8(Concat(ls)) && i < |ls|
    ensures ValidUtf8(ls[i])
  {
    if |ls| == 1 {
      assert ls[1..] == [];
      AppendNothing(ls[0]);
    } else {
      SplitAfter(ls[0], Concat(ls[1..]));
      if i > 0 { LinesAreValid(ls[1..], i - 1); }
    }
  }

  /** Cutting off the work directory leaves a well-formed line. */
  lemma NormalLineIsValid(line: string)
    requires ValidUtf8(line) && NormalLine(line).Some?
    ensures ValidUtf8(NormalLine(line).value)
  {
    if Judge(Body(line)).Rewrite? {
      var key, value := RewrittenLine(line);
      var skip := WorkPathDropsStart(value);
      var tail := value[skip..] + Ending(line);
      LineParts(line);
      SplitAt(value, skip);
      Assoc(key, value, Ending(line));
      Assoc(value[..skip], value[skip..], Ending(line));
      Assoc(key, value[..skip], tail);
      assert line == key + value[..skip] + tail;
      Split(key + value[..skip], tail);
      SplitAfter(key, value[..skip]);
      Join("$WORK", tail);
      Join(key, "$WORK" + tail);
      Assoc("$WORK", value[skip..], Ending(line));
      Assoc(key, "$WORK" + value[skip..], Ending(line));
    }
  }

  /** A normal form is well-formed text, and normalizing it succeeds and reports no change. */
  lemma NormalFormIsStable(c: string)
    requires Normalize(c).Some?
    ensures ValidUtf8(Normalize(c).value)
    ensures NormalizeLines(Lines(Normalize(c).value)) == Some((Normalize(c).value, false))
    ensures Normalize(Normalize(c).value).None?
  {
    var ls := Lines(c);
    NormalizedText(ls);
    SplitGivesLines(c);
    NormalLinesAreKept(ls);
    LinesOfJoined(NormalLines(ls));
    NormalizedText(NormalLines(ls));
    forall i | 0 <= i < |ls| ensures ValidUtf8(NormalLines(ls)[i]) {
      LinesAreValid(ls, i);
      NormalLineIsValid(ls[i]);
    }
    JoinAll(NormalLines(ls));
  }

  /** The lines are equal, differ in the work directory, or one is the other's normal form. */
  ghost predicate Alike(line: string, line': string)
  {
    || line == line' || DifferInWorkDir(line, line')
    || NormalLine(line) == Some(line') || NormalLine(line') == Some(line)
  }

  lemma KeysEqual(key: string, value: string, key': string, value': string)
    requires IsKey(key) && IsKey(key') && key + value == key' + value'
    ensures key == key' && value == value'
  {
    KeyIsFound(key, value);
    KeyIsFound(key', value');
  }

  lemma BothRewritten(line: string, line': string)
    requires IsLine(line) && IsLine(line') && NormalLine(line) == NormalLine(line')
    requires Judge(Body(line)).Rewrite? && Judge(Body(line')).Rewrite?
    ensures DifferInWorkDir(line, line')
  {
    var key, value := RewrittenLine(line);
    var key', value' := RewrittenLine(line');
    NormalLineIsKept(line);
    NormalLineIsKept(line');
    AppendedEqual(key + WorkPath(value).value, key' + WorkPath(value').value, Ending(line));
    KeysEqual(key, WorkPath(value).value, key', WorkPath(value').value);
    var head, digits, rest := WorkPathInverts(value);
    var head', digits', rest' := WorkPathInverts(value');
    assert rest == ("$WORK" + rest)[5..] == ("$WORK" + rest')[5..] == rest';
  }

  lemma SameNormalLineIff(line: string, line': string)
    requires IsLine(line) && IsLine(line') && NormalLine(line).Some? && NormalLine(line').Some?
    ensures NormalLine(line) == NormalLine(line') <==> Alike(line, line')
  {
    NormalLineIsKept(line);
    NormalLineIsKept(line');
    if Judge(Body(line)).Rewrite? && Judge(Body(line')).Rewrite? && NormalLine(line) == NormalLine(line') {
      BothRewritten(line, line');
    }
    if DifferInWorkDir(line, line') { DifferentWorkDirsAgree(line, line'); }
  }

  /** What normalization forgets, exactly: changed configurations have one normal form iff their lines are alike. */
  lemma SameNormalFormIff(c: string, c': string)
    requires Normalize(c).Some? && Normalize(c').Some?
    ensures Normalize(c) == Normalize(c') <==>
      |Lines(c)| == |Lines(c')| && forall i :: 0 <= i < |Lines(c)| ==> Alike(Lines(c)[i], Lines(c')[i])
  {
    var ls, ls' := Lines(c), Lines(c');
    NormalizedText(ls);
    NormalizedText(ls');
    SplitGivesLines(c);
    SplitGivesLines(c');
    NormalLinesAreKept(ls);
    NormalLinesAreKept(ls');
    LinesOfJoined(NormalLines(ls));
    LinesOfJoined(NormalLines(ls'));
    assert Normalize(c) == Normalize(c') <==> NormalLines(ls) == NormalLines(ls');
    if |ls| == |ls'| {
      forall i | 0 <= i < |ls| ensures NormalLines(ls)[i] == NormalLines(ls')[i] <==> Alike(ls[i], ls'[i]) {
        SameNormalLineIff(ls[i], ls'[i]);
      }
    }
  }
}
