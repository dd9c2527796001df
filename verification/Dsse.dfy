/** The pre-authentication encoding of DSSE envelopes, its exact inverse, and the search for a valid signature. */
module Dsse {
  import opened Sequences
  import opened Text

  // ------------------------------------------------------------------------------------------- encoding

  const PREFIX := "DSSEv1"

  /** A length in decimal, a space, and the bytes. */
  function Field(s: string): string
  {
    Decimal(|s|) + " " + s
  }

  function Pae(payloadType: string, payload: string): string
  {
    PREFIX + " " + (Field(payloadType) + (" " + Field(payload)))
  }

  method EncodePae(payloadType: string, payload: string) returns (buf: string)
    ensures buf == Pae(payloadType, payload)
  {
    buf := PREFIX;
    buf := buf + " ";
    var start := buf;
    buf := buf + Decimal(|payloadType|);
    buf := buf + " ";
    buf := buf + payloadType;
    FieldAppended(start, payloadType);
    var first := buf;
    buf := buf + " ";
    var second := buf;
    buf := buf + Decimal(|payload|);
    buf := buf + " ";
    buf := buf + payload;
    FieldAppended(second, payload);
    Assoc(first, " ", Field(payload));
    Assoc(start, Field(payloadType), " " + Field(payload));
  }

  lemma FieldAppended(buf: string, s: string)
    ensures buf + Decimal(|s|) + " " + s == buf + Field(s)
  {
    Assoc(buf, Decimal(|s|), " ");
    Assoc(buf, Decimal(|s|) + " ", s);
  }

  // ------------------------------------------------------------------------------------------- decoding

  predicate AllDigits(s: string)
  {
    forall i :: 0 <= i < |s| ==> '0' <= s[i] <= '9'
  }

  function ParseDecimal(s: string): nat
    requires AllDigits(s)
  {
    if s == "" then 0
    else 10 * ParseDecimal(s[..|s| - 1]) + (s[|s| - 1] as int - '0' as int)
  }

  lemma DecimalIsDigits(n: nat)
    ensures AllDigits(Decimal(n))
  {
  }

  lemma DecimalSplits(n: nat)
    requires n >= 10
    ensures Decimal(n)[..|Decimal(n)| - 1] == Decimal(n / 10)
    ensures Decimal(n)[|Decimal(n)| - 1] == ('0' as int + n % 10) as char
  {
  }

  lemma {:induction false} ParseUndoesDecimal(n: nat)
    ensures AllDigits(Decimal(n)) && ParseDecimal(Decimal(n)) == n
  {
    DecimalIsDigits(n);
    if n >= 10 {
      DecimalSplits(n);
      ParseUndoesDecimal(n / 10);
    }
  }

  function FirstSpace(s: string): (i: nat)
    ensures i <= |s| && (forall j :: 0 <= j < i ==> s[j] != ' ') && (i < |s| ==> s[i] == ' ')
  {
    if s == "" || s[0] == ' ' then 0 else 1 + FirstSpace(s[1..])
  }

  /** A field and what follows it; the length must be in the form that `Field` writes. */
  function TakeField(b: string): Option<(string, string)>
  {
    var i := FirstSpace(b);
    if i == |b| || !AllDigits(b[..i]) then None
    else
      var n := ParseDecimal(b[..i]);
      if Decimal(n) != b[..i] || i + 1 + n > |b| then None
      else Some((b[i + 1..i + 1 + n], b[i + 1 + n..]))
  }

  function Unpae(b: string): Option<(string, string)>
  {
    var start := PREFIX + " ";
    if !(start <= b) then None
    else
      match TakeField(b[|start|..])
      case None => None
      case Some((payloadType, rest)) =>
        if rest == "" || rest[0] != ' ' then None
        else
          match TakeField(rest[1..])
          case None => None
          case Some((payload, rest1)) => if rest1 == "" then Some((payloadType, payload)) else None
  }

  lemma FieldIsTaken(s: string, rest: string)
    ensures TakeField(Field(s) + rest) == Some((s, rest))
  {
    var b, d := Field(s) + rest, Decimal(|s|);
    ParseUndoesDecimal(|s|);
    assert b[|d|] == ' ' && b[..|d|] == d;
    SpaceIsAt(b, d);
    assert b[|d| + 1..|d| + 1 + |s|] == s && b[|d| + 1 + |s|..] == rest;
  }

  lemma SpaceIsAt(b: string, d: string)
    requires AllDigits(d) && |d| < |b| && b[..|d|] == d && b[|d|] == ' '
    ensures FirstSpace(b) == |d|
  {
    forall j | 0 <= j < |d| ensures b[j] != ' ' { assert b[j] == b[..|d|][j] == d[j]; }
  }

  lemma TakenIsField(b: string)
    requires TakeField(b).Some?
    ensures var (s, rest) := TakeField(b).value; b == Field(s) + rest
  {
    var i := FirstSpace(b);
    var n := ParseDecimal(b[..i]);
    assert b == b[..i] + " " + b[i + 1..i + 1 + n] + b[i + 1 + n..];
  }

  lemma DropStart(a: string, b: string)
    ensures a <= a + b && (a + b)[|a|..] == b
  {
  }

  lemma UnpaeUndoes(payloadType: string, payload: string)
    ensures Unpae(Pae(payloadType, payload)) == Some((payloadType, payload))
  {
    var rest := " " + Field(payload);
    DropStart(PREFIX + " ", Field(payloadType) + rest);
    FieldIsTaken(payloadType, rest);
    DropStart(" ", Field(payload));
    FieldIsTaken(payload, "");
    assert Field(payload) + "" == Field(payload);
  }

  lemma SplitStart(a: string, b: string)
    requires a <= b
    ensures b == a + b[|a|..]
  {
  }

  lemma UnpaeIsStrict(b: string)
    requires Unpae(b).Some?
    ensures b == Pae(Unpae(b).value.0, Unpae(b).value.1)
  {
    var start := PREFIX + " ";
    SplitStart(start, b);
    TakenIsField(b[|start|..]);
    var (payloadType, rest) := TakeField(b[|start|..]).value;
    SplitStart(" ", rest);
    TakenIsField(rest[1..]);
    var (payload, _) := TakeField(rest[1..]).value;
    assert Field(payload) + "" == Field(payload);
  }

  /** The decoder is an exact inverse: it accepts the encodings and nothing else. */
  lemma UnpaeIff(b: string, payloadType: string, payload: string)
    ensures Unpae(b) == Some((payloadType, payload)) <==> b == Pae(payloadType, payload)
  {
    UnpaeUndoes(payloadType, payload);
    if Unpae(b).Some? { UnpaeIsStrict(b); }
  }

  // ------------------------------------------------------------------------------------------- verification

  datatype Envelope = Envelope(payloadType: string, payload: string, signatures: seq<string>)

  /** Base64, the signature format and the signature check of one key; all are calls into libraries. */
  datatype Crypto = Crypto(
    decode: string -> Option<string>,
    isSignature: string -> bool,
    verifies: (string, string) -> bool)

  datatype Error =
    | InvalidPayload | NoSignatures
    | InvalidBase64(index: nat) | InvalidSignature(index: nat) | VerificationFailed(index: nat)

  datatype Verdict = Accepted(payload: string) | Rejected(error: Error)

  /** What is wrong with the signature at `i`, if anything. */
  function SignatureError(crypto: Crypto, message: string, sig: string, i: nat): Option<Error>
  {
    match crypto.decode(sig)
    case None => Some(InvalidBase64(i))
    case Some(bytes) =>
      if !crypto.isSignature(bytes) then Some(InvalidSignature(i))
      else if !crypto.verifies(message, bytes) then Some(VerificationFailed(i))
      else None
  }

  /** The signature at `i` is good for the type and the decoded payload of the envelope. */
  predicate Good(crypto: Crypto, e: Envelope, i: nat)
    requires i < |e.signatures|
  {
    && crypto.decode(e.payload).Some?
    && SignatureError(crypto, Pae(e.payloadType, crypto.decode(e.payload).value), e.signatures[i], i).None?
  }

  /** One good signature is enough, wherever it stands; otherwise the last signature says what is wrong. */
  method Verify(crypto: Crypto, e: Envelope) returns (v: Verdict)
    ensures v.Accepted? <==> exists i :: 0 <= i < |e.signatures| && Good(crypto, e, i)
    ensures v.Accepted? ==> crypto.decode(e.payload) == Some(v.payload)
    ensures crypto.decode(e.payload).None? ==> v == Rejected(InvalidPayload)
    ensures crypto.decode(e.payload).Some? && e.signatures == [] ==> v == Rejected(NoSignatures)
    ensures crypto.decode(e.payload).Some? && e.signatures != [] && v.Rejected? ==>
      var n := |e.signatures| - 1;
      Some(v.error) == SignatureError(crypto, Pae(e.payloadType, crypto.decode(e.payload).value), e.signatures[n], n)
  {
    var payload := crypto.decode(e.payload);
    if payload.None? {
      return Rejected(InvalidPayload);
    }
    var message := EncodePae(e.payloadType, payload.value);
    if e.signatures == [] {
      return Rejected(NoSignatures);
    }
    var lastError: Option<Error> := None;
    for i := 0 to |e.signatures|
      invariant forall k :: 0 <= k < i ==> !Good(crypto, e, k)
      invariant i > 0 ==> lastError.Some? && lastError == SignatureError(crypto, message, e.signatures[i - 1], i - 1)
    {
      var bytes := crypto.decode(e.signatures[i]);
      if bytes.None? {
        lastError := Some(InvalidBase64(i));
      } else if !crypto.isSignature(bytes.value) {
        lastError := Some(InvalidSignature(i));
      } else if crypto.verifies(message, bytes.value) {
        assert Good(crypto, e, i);
        return Accepted(payload.value);
      } else {
        lastError := Some(VerificationFailed(i));
      }
    }
    v := Rejected(lastError.value);
  }

  /** A new envelope: the payload in base64, and one signature of its encoding. */
  function Sign(encode: string -> string, signer: string -> string, payloadType: string, payload: string): Envelope
  {
    Envelope(payloadType, encode(payload), [encode(signer(Pae(payloadType, payload)))])
  }

  /** What is signed is accepted, and gives back the payload, provided base64 decodes and the keys belong together. */
  lemma SignedIsGood(crypto: Crypto, encode: string -> string, signer: string -> string, payloadType: string,
      payload: string)
    requires forall b :: crypto.decode(encode(b)) == Some(b)
    requires forall m :: crypto.isSignature(signer(m)) && crypto.verifies(m, signer(m))
    ensures var e := Sign(encode, signer, payloadType, payload);
            crypto.decode(e.payload) == Some(payload) && Good(crypto, e, 0)
  {
    assert crypto.verifies(Pae(payloadType, payload), signer(Pae(payloadType, payload)));
  }

  /**
   Signatures bind type and payload together: when the key only verifies encodings of pairs from `signed`, the type
   and the payload of an envelope with a good signature are such a pair.
   */
  lemma GoodMeansSigned(crypto: Crypto, e: Envelope, i: nat, signed: set<(string, string)>)
    requires i < |e.signatures| && Good(crypto, e, i)
    requires forall m, s :: crypto.verifies(m, s) ==> exists p :: p in signed && m == Pae(p.0, p.1)
    ensures (e.payloadType, crypto.decode(e.payload).value) in signed
  {
    var payload := crypto.decode(e.payload).value;
    var m := Pae(e.payloadType, payload);
    var p :| p in signed && m == Pae(p.0, p.1);
    UnpaeIff(m, e.payloadType, payload);
    UnpaeIff(m, p.0, p.1);
  }
}
