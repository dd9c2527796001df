/** The length-prefixed binary encoding behind the root hash of a version 0.3.0 attestation, and its decoder. */
module Commitment {
  import opened Sequences
  import opened Text

  datatype OutputSelection = OutputSelection(mode: string, artifacts: seq<string>, outputRoots: seq<string>)

  datatype AttestedOutput = AttestedOutput(path: string, hash: string)

  datatype Content = Content(
    processRoot: string,
    command: seq<string>,
    selection: OutputSelection,
    outputs: seq<AttestedOutput>)

  const DOMAIN := "repx-attestation-v0.3"
  const TWO_32 := 0x1_0000_0000

  // ------------------------------------------------------------------------------------------- encoding

  function Byte(n: nat): char
  {
    (n % 256) as char
  }

  /** `n as u32` keeps the low 32 bits; they are written least significant byte first. */
  function U32(n: nat): (b: string)
    ensures |b| == 4
  {
    [Byte(n), Byte(n / 256), Byte(n / 0x1_0000), Byte(n / 0x100_0000)]
  }

  function Str(s: string): string
  {
    U32(|s|) + s
  }

  function Strs(ss: seq<string>): string
  {
    if ss == [] then "" else Str(ss[0]) + Strs(ss[1..])
  }

  /** The strings of the outputs: path, hash, path, hash, and so on. */
  function Flat(outputs: seq<AttestedOutput>): (ss: seq<string>)
    ensures |ss| == 2 * |outputs|
  {
    if outputs == [] then [] else [outputs[0].path, outputs[0].hash] + Flat(outputs[1..])
  }

  function Counted(n: nat, ss: seq<string>): string
  {
    U32(n) + Strs(ss)
  }

  function Tail(c: Content): string
  {
    Counted(|c.command|, c.command) + (Str(c.selection.mode) +
      (Counted(|c.selection.artifacts|, c.selection.artifacts) +
        (Counted(|c.selection.outputRoots|, c.selection.outputRoots) + Counted(|c.outputs|, Flat(c.outputs)))))
  }

  function Encode(c: Content): string
  {
    Str(DOMAIN) + (Str(c.processRoot) + Tail(c))
  }

  method WriteU32(buf: string, n: nat) returns (r: string)
    ensures r == buf + U32(n)
  {
    r := buf + U32(n);
  }

  method WriteStr(buf: string, s: string) returns (r: string)
    ensures r == buf + Str(s)
  {
    r := WriteU32(buf, |s|);
    r := r + s;
  }

  lemma {:induction false} StrsOfOneMore(ss: seq<string>, s: string)
    ensures Strs(ss + [s]) == Strs(ss) + Str(s)
  {
    if ss != [] {
      assert (ss + [s])[1..] == ss[1..] + [s];
      StrsOfOneMore(ss[1..], s);
    } else {
      assert ss + [s] == [s];
    }
  }

  lemma {:induction false} FlatOfOneMore(os: seq<AttestedOutput>, o: AttestedOutput)
    ensures Flat(os + [o]) == Flat(os) + [o.path, o.hash]
  {
    if os != [] {
      assert (os + [o])[1..] == os[1..] + [o];
      FlatOfOneMore(os[1..], o);
    } else {
      assert os + [o] == [o];
    }
  }

  lemma PairIsTwo(ss: seq<string>, a: string, b: string)
    ensures Strs(ss + [a, b]) == Strs(ss) + Str(a) + Str(b)
  {
    assert ss + [a, b] == (ss + [a]) + [b];
    StrsOfOneMore(ss + [a], b);
    StrsOfOneMore(ss, a);
  }

  lemma AssocPair(a: string, u: string, s: string, p: string, h: string)
    ensures a + (u + s) + p + h == a + (u + (s + p + h))
  {
    Assoc(a, u + s, p);
    Assoc(u, s, p);
    Assoc(a, u + (s + p), h);
    Assoc(u, s + p, h);
  }

  lemma AssocAll(a: string, b: string, c: string, d: string, e: string, f: string, g: string)
    ensures a + b + c + d + e + f + g == a + (b + (c + (d + (e + (f + g)))))
  {
    Assoc(a + b + c + d + e, f, g);
    Assoc(a + b + c + d, e, f + g);
    Assoc(a + b + c, d, e + (f + g));
    Assoc(a + b, c, d + (e + (f + g)));
    Assoc(a, b, c + (d + (e + (f + g))));
  }

  /** A count, then each string. */
  method WriteStrs(buf: string, ss: seq<string>) returns (r: string)
    ensures r == buf + Counted(|ss|, ss)
  {
    r := WriteU32(buf, |ss|);
    for i := 0 to |ss|
      invariant r == buf + (U32(|ss|) + Strs(ss[..i]))
    {
      r := WriteStr(r, ss[i]);
      OneMore(ss, i);
      StrsOfOneMore(ss[..i], ss[i]);
    }
    WholePrefix(ss);
  }

  method WriteOutputs(buf: string, outputs: seq<AttestedOutput>) returns (r: string)
    ensures r == buf + Counted(|outputs|, Flat(outputs))
  {
    r := WriteU32(buf, |outputs|);
    for i := 0 to |outputs|
      invariant r == buf + (U32(|outputs|) + Strs(Flat(outputs[..i])))
    {
      AssocPair(buf, U32(|outputs|), Strs(Flat(outputs[..i])), Str(outputs[i].path), Str(outputs[i].hash));
      r := WriteStr(r, outputs[i].path);
      r := WriteStr(r, outputs[i].hash);
      OneMore(outputs, i);
      FlatOfOneMore(outputs[..i], outputs[i]);
      PairIsTwo(Flat(outputs[..i]), outputs[i].path, outputs[i].hash);
    }
    WholePrefix(outputs);
  }

  method EncodeCommitment(c: Content) returns (buf: string)
    ensures buf == Encode(c)
  {
    buf := WriteStr("", DOMAIN);
    assert buf == Str(DOMAIN);
    buf := WriteStr(buf, c.processRoot);
    buf := WriteStrs(buf, c.command);
    buf := WriteStr(buf, c.selection.mode);
    buf := WriteStrs(buf, c.selection.artifacts);
    buf := WriteStrs(buf, c.selection.outputRoots);
    buf := WriteOutputs(buf, c.outputs);
    AssocAll(Str(DOMAIN), Str(c.processRoot), Counted(|c.command|, c.command), Str(c.selection.mode),
             Counted(|c.selection.artifacts|, c.selection.artifacts),
             Counted(|c.selection.outputRoots|, c.selection.outputRoots), Counted(|c.outputs|, Flat(c.outputs)));
  }

  // ------------------------------------------------------------------------------------------- decoding

  function TakeU32(b: string): (r: Option<(nat, string)>)
    ensures r.Some? ==> r.value.0 < TWO_32 && |r.value.1| < |b|
  {
    if |b| < 4 || exists i :: 0 <= i < 4 && b[i] as int >= 256 then None
    else Some((b[0] as int + 256 * (b[1] as int) + 0x1_0000 * (b[2] as int) + 0x100_0000 * (b[3] as int), b[4..]))
  }

  function TakeStr(b: string): (r: Option<(string, string)>)
    ensures r.Some? ==> |r.value.0| < TWO_32
  {
    match TakeU32(b)
    case None => None
    case Some((n, rest)) => if n <= |rest| then Some((rest[..n], rest[n..])) else None
  }

  function TakeMany(n: nat, b: string): (r: Option<(seq<string>, string)>)
    ensures r.Some? ==> |r.value.0| == n && AllFit(r.value.0)
  {
    if n == 0 then Some(([], b))
    else
      match TakeStr(b)
      case None => None
      case Some((s, b1)) =>
        match TakeMany(n - 1, b1)
        case None => None
        case Some((ss, b2)) => Some(([s] + ss, b2))
  }

  /** A count, then as many strings, or as many pairs of strings. */
  function TakeCounted(pairs: bool, b: string): (r: Option<(seq<string>, string)>)
    ensures r.Some? ==> AllFit(r.value.0)
    ensures r.Some? ==> if pairs then |r.value.0| % 2 == 0 && |r.value.0| / 2 < TWO_32 else |r.value.0| < TWO_32
  {
    match TakeU32(b)
    case None => None
    case Some((n, b1)) => TakeMany(if pairs then 2 * n else n, b1)
  }

  function Unflat(ss: seq<string>): seq<AttestedOutput>
    requires |ss| % 2 == 0
  {
    if ss == [] then [] else [AttestedOutput(ss[0], ss[1])] + Unflat(ss[2..])
  }

  function DecodeTail(processRoot: string, b: string): Option<Content>
  {
    match TakeCounted(false, b)
    case None => None
    case Some((command, b1)) =>
      match TakeStr(b1)
      case None => None
      case Some((mode, b2)) =>
        match TakeCounted(false, b2)
        case None => None
        case Some((artifacts, b3)) =>
          match TakeCounted(false, b3)
          case None => None
          case Some((roots, b4)) =>
            match TakeCounted(true, b4)
            case None => None
            case Some((flat, b5)) =>
              if b5 != "" then None
              else Some(Content(processRoot, command, OutputSelection(mode, artifacts, roots), Unflat(flat)))
  }

  function Decode(b: string): Option<Content>
  {
    match TakeStr(b)
    case None => None
    case Some((domain, b1)) =>
      if domain != DOMAIN then None
      else
        match TakeStr(b1)
        case None => None
        case Some((processRoot, b2)) => DecodeTail(processRoot, b2)
  }

  // ------------------------------------------------------------------------------------------- round trip

  predicate AllFit(ss: seq<string>)
  {
    forall i :: 0 <= i < |ss| ==> |ss[i]| < TWO_32
  }

  /** All lengths and counts fit in 32 bits. */
  predicate Fits(c: Content)
  {
    && |c.processRoot| < TWO_32 && |c.selection.mode| < TWO_32
    && |c.command| < TWO_32 && AllFit(c.command)
    && |c.selection.artifacts| < TWO_32 && AllFit(c.selection.artifacts)
    && |c.selection.outputRoots| < TWO_32 && AllFit(c.selection.outputRoots)
    && |c.outputs| < TWO_32 && AllFit(Flat(c.outputs))
  }

  lemma BytesOf(n: nat)
    requires n < TWO_32
    ensures n % 256 + 256 * (n / 256 % 256) + 0x1_0000 * (n / 0x1_0000 % 256) + 0x100_0000 * (n / 0x100_0000 % 256) == n
  {
  }

  lemma TakeU32Undoes(n: nat, rest: string)
    requires n < TWO_32
    ensures TakeU32(U32(n) + rest) == Some((n, rest))
  {
    var b := U32(n) + rest;
    BytesOf(n);
    assert b[0] == Byte(n) && b[1] == Byte(n / 256) && b[2] == Byte(n / 0x1_0000) && b[3] == Byte(n / 0x100_0000);
    assert b[4..] == rest;
  }

  lemma TakeStrUndoes(s: string, rest: string)
    requires |s| < TWO_32
    ensures TakeStr(Str(s) + rest) == Some((s, rest))
  {
    Assoc(U32(|s|), s, rest);
    TakeU32Undoes(|s|, s + rest);
    assert (s + rest)[..|s|] == s && (s + rest)[|s|..] == rest;
  }

  lemma {:induction false} TakeManyUndoes(ss: seq<string>, rest: string)
    requires AllFit(ss)
    ensures TakeMany(|ss|, Strs(ss) + rest) == Some((ss, rest))
  {
    if ss == [] {
      assert Strs(ss) + rest == rest;
    } else {
      Assoc(Str(ss[0]), Strs(ss[1..]), rest);
      TakeStrUndoes(ss[0], Strs(ss[1..]) + rest);
      TakeManyUndoes(ss[1..], rest);
      assert [ss[0]] + ss[1..] == ss;
    }
  }

  lemma TakeCountedUndoes(pairs: bool, n: nat, ss: seq<string>, rest: string)
    requires n < TWO_32 && |ss| == (if pairs then 2 * n else n) && AllFit(ss)
    ensures TakeCounted(pairs, Counted(n, ss) + rest) == Some((ss, rest))
  {
    Assoc(U32(n), Strs(ss), rest);
    TakeU32Undoes(n, Strs(ss) + rest);
    TakeManyUndoes(ss, rest);
  }

  lemma {:induction false} UnflatUndoes(outputs: seq<AttestedOutput>)
    ensures Unflat(Flat(outputs)) == outputs
  {
    if outputs != [] {
      assert Flat(outputs)[2..] == Flat(outputs[1..]);
      UnflatUndoes(outputs[1..]);
      assert [outputs[0]] + outputs[1..] == outputs;
    }
  }

  lemma {:induction false} FlatUndoes(ss: seq<string>)
    requires |ss| % 2 == 0
    ensures Flat(Unflat(ss)) == ss
  {
    if ss != [] {
      assert Unflat(ss)[1..] == Unflat(ss[2..]);
      FlatUndoes(ss[2..]);
      assert [ss[0], ss[1]] + ss[2..] == ss;
    }
  }

  lemma TailRoundTrip(c: Content)
    requires Fits(c)
    ensures DecodeTail(c.processRoot, Tail(c)) == Some(c)
  {
    var outs := Counted(|c.outputs|, Flat(c.outputs));
    var roots := Counted(|c.selection.outputRoots|, c.selection.outputRoots) + outs;
    var artifacts := Counted(|c.selection.artifacts|, c.selection.artifacts) + roots;
    TakeCountedUndoes(false, |c.command|, c.command, Str(c.selection.mode) + artifacts);
    TakeStrUndoes(c.selection.mode, artifacts);
    TakeCountedUndoes(false, |c.selection.artifacts|, c.selection.artifacts, roots);
    TakeCountedUndoes(false, |c.selection.outputRoots|, c.selection.outputRoots, outs);
    TakeCountedUndoes(true, |c.outputs|, Flat(c.outputs), "");
    assert outs + "" == outs;
    UnflatUndoes(c.outputs);
  }

  lemma DecodedTailFits(processRoot: string, b: string)
    requires |processRoot| < TWO_32 && DecodeTail(processRoot, b).Some?
    ensures Fits(DecodeTail(processRoot, b).value)
  {
    var (_, b1) := TakeCounted(false, b).value;
    var (_, b2) := TakeStr(b1).value;
    var (_, b3) := TakeCounted(false, b2).value;
    var (_, b4) := TakeCounted(false, b3).value;
    FlatUndoes(TakeCounted(true, b4).value.0);
  }

  /** The decoder recovers everything, with nothing left over, exactly when all lengths and counts fit in 32 bits. */
  lemma RoundTripIff(c: Content)
    ensures Decode(Encode(c)) == Some(c) <==> Fits(c)
  {
    if Fits(c) {
      TakeStrUndoes(DOMAIN, Str(c.processRoot) + Tail(c));
      TakeStrUndoes(c.processRoot, Tail(c));
      TailRoundTrip(c);
    }
    if Decode(Encode(c)) == Some(c) {
      var (_, b1) := TakeStr(Encode(c)).value;
      var (root, b2) := TakeStr(b1).value;
      DecodedTailFits(root, b2);
    }
  }

  /** So the encoding is injective on contents that fit. */
  lemma EncodingIsInjective(c: Content, c': Content)
    requires Fits(c) && Fits(c') && Encode(c) == Encode(c')
    ensures c == c'
  {
    RoundTripIff(c);
    RoundTripIff(c');
  }

  // ------------------------------------------------------------------------------------------- where it fails

  function Zeros(n: nat): string
  {
    seq(n, _ => Byte(0))
  }

  lemma ZerosAdd(m: nat, n: nat)
    ensures Zeros(m) + Zeros(n) == Zeros(m + n)
  {
  }

  const NO_SELECTION := OutputSelection("", [], [])

  /** The process root of a content that is too long by one: its length is written as zero. */
  function LongRoot(): string
  {
    U32(1) + U32(TWO_32 - 4) + Zeros(TWO_32 - 8)
  }

  lemma TailOfZeros(command: seq<string>)
    ensures Tail(Content("", command, NO_SELECTION, [])) == Counted(|command|, command) + Zeros(16)
  {
    assert Str("") == Zeros(4) && Counted(0, []) == Zeros(4) && Flat([]) == [];
    ZerosAdd(4, 4);
    ZerosAdd(4, 8);
    ZerosAdd(4, 12);
  }

  /** Beyond 32 bits injectivity fails: a root of length 2^32 reads as an empty root followed by a command. */
  lemma LongRootCollides()
    ensures var c, c' := Content(LongRoot(), [], NO_SELECTION, []), Content("", [Zeros(TWO_32 - 4)], NO_SELECTION, []);
            c != c' && !Fits(c) && Fits(c') && Encode(c) == Encode(c')
  {
    var c, c' := Content(LongRoot(), [], NO_SELECTION, []), Content("", [Zeros(TWO_32 - 4)], NO_SELECTION, []);
    assert |LongRoot()| == TWO_32 && U32(TWO_32) == U32(0) == Zeros(4);
    TailOfZeros([]);
    assert Counted(0, []) == Zeros(4);
    ZerosAdd(4, 16);
    assert Tail(c) == Zeros(20);
    TailOfZeros([Zeros(TWO_32 - 4)]);
    OneString(Zeros(TWO_32 - 4));
    assert Tail(c') == U32(1) + (U32(TWO_32 - 4) + Zeros(TWO_32 - 4)) + Zeros(16);
    SameBytes(U32(1), U32(TWO_32 - 4));
    assert Str("") == Zeros(4) + "";
    EmptyFirst(Zeros(4), Tail(c'));
    Assoc(Zeros(4), LongRoot(), Zeros(20));
  }

  lemma OneString(s: string)
    ensures Strs([s]) == Str(s)
  {
    assert [s][1..] == [];
    assert Str(s) + "" == Str(s);
  }

  lemma EmptyFirst(a: string, b: string)
    ensures a + "" + b == a + b
  {
  }

  lemma SameBytes(a: string, b: string)
    ensures a + b + Zeros(TWO_32 - 8) + Zeros(20) == a + (b + Zeros(TWO_32 - 4)) + Zeros(16)
  {
    ZerosAdd(TWO_32 - 8, 20);
    ZerosAdd(TWO_32 - 4, 16);
    Assoc(a + b, Zeros(TWO_32 - 8), Zeros(20));
    Assoc(a, b, Zeros(TWO_32 - 4));
    Assoc(a + b, Zeros(TWO_32 - 4), Zeros(16));
  }
}
