/** What management tabs and authorization popups exchange over the broadcast channel, with its hexadecimal codecs. */
module SessionMessages {
  import opened Wrappers
  import opened Numerals

  type byte = b: int | 0 <= b < 256

  type Id = string

  datatype LoginInput = LoginInput(
    consumerGatewayAddress: string, sessionRequestId: string, sessionChallenge: string, sessionExpiresAt: int)

  datatype LoginOutcome = LoginOutcome(verified: bool, receipt: string, authorizationContract: string)

  datatype Assertion = Assertion(signatureRS: seq<byte>, authenticatorData: seq<byte>, clientDataJSON: seq<byte>)

  datatype AssertionWire = AssertionWire(signatureRSHex: string, authenticatorDataHex: string, clientDataJSONHex: string)

  datatype Message =
    | Probe(requestId: Id)
    | Available(requestId: Id, brokerId: Id, credentialId: string)  // "" when the wallet has none
    | Execute(requestId: Id, brokerId: Id, input: LoginInput)
    | Started(requestId: Id, brokerId: Id)
    | Success(requestId: Id, brokerId: Id, outcome: LoginOutcome)
    | Failure(requestId: Id, brokerId: Id, error: string)
    | WebAuthnRequest(requestId: Id, brokerId: Id, assertionId: Id, credentialId: string, challengeHex: string)
    | WebAuthnSuccess(requestId: Id, brokerId: Id, assertionId: Id, wire: AssertionWire)
    | WebAuthnFailure(requestId: Id, brokerId: Id, assertionId: Id, error: string)

  function HexChar(d: nat): (c: char)
    requires d < 16
    ensures IsLowerHex(c) && HexDigitValue(c) == d
  {
    if d < 10 then '0' + d as char else 'a' + (d - 10) as char
  }

  function BytesToHex(bytes: seq<byte>): (s: string)
    ensures |s| == 2 * |bytes| && AllLowerHex(s)
  {
    if bytes == [] then "" else [HexChar(bytes[0] / 16), HexChar(bytes[0] % 16)] + BytesToHex(bytes[1..])
  }

  predicate IsHexChar(c: char) { IsLowerHex(c) || 'A' <= c <= 'F' }

  function HexCharValue(c: char): (v: nat)
    requires IsHexChar(c)
    ensures v < 16
  {
    if IsLowerHex(c) then HexDigitValue(c) else 10 + (c - 'A') as nat
  }

  function Unprefixed(value: string): string { if |value| >= 2 && value[..2] == "0x" then value[2..] else value }

  /** Non-empty, even-length hexadecimal in either case, with an optional 0x prefix. */
  function HexToBytes(value: string): Result<seq<byte>> {
    var normalized := Unprefixed(value);
    if |normalized| == 0 || |normalized| % 2 != 0 || exists c <- normalized :: !IsHexChar(c)
    then Err("must be non-empty, even-length hexadecimal bytes.")
    else Ok(Pairs(normalized))
  }

  function Pairs(s: string): (bytes: seq<byte>)
    requires |s| % 2 == 0 && forall c <- s :: IsHexChar(c)
    ensures |bytes| == |s| / 2
  {
    if s == "" then [] else [16 * HexCharValue(s[0]) + HexCharValue(s[1])] + Pairs(s[2..])
  }

  lemma {:induction false} PairsOfHex(bytes: seq<byte>)
    ensures Pairs(BytesToHex(bytes)) == bytes
  {
    if bytes != [] {
      PairsOfHex(bytes[1..]);
      assert BytesToHex(bytes)[2..] == BytesToHex(bytes[1..]);
    }
  }

  /** The hexadecimal of a byte string decodes to it, exactly when it is not empty. */
  lemma HexRoundTrip(bytes: seq<byte>)
    ensures HexToBytes(BytesToHex(bytes)) == if bytes == [] then HexToBytes("") else Ok(bytes)
    ensures HexToBytes("").Err?
  {
    PairsOfHex(bytes);
    var s := BytesToHex(bytes);
    if bytes != [] { assert s[1] != 'x' by { assert IsLowerHex(s[1]); } }
  }

  function LowerHexChar(c: char): char { if 'A' <= c <= 'F' then c - 'A' + 'a' else c }

  function LowerHex(s: string): string { seq(|s|, i requires 0 <= i < |s| => LowerHexChar(s[i])) }

  lemma HexCharOfValue(c: char)
    requires IsHexChar(c)
    ensures HexChar(HexCharValue(c)) == LowerHexChar(c)
  {
  }

  lemma PairSplits(hi: nat, lo: nat)
    requires hi < 16 && lo < 16
    ensures (16 * hi + lo) / 16 == hi && (16 * hi + lo) % 16 == lo
  {
  }

  lemma {:induction false} PairsAreHex(s: string)
    requires |s| % 2 == 0 && forall c <- s :: IsHexChar(c)
    ensures BytesToHex(Pairs(s)) == LowerHex(s)
  {
    hide HexChar, HexCharValue, LowerHexChar, IsHexChar;
    if s != "" {
      PairsAreHex(s[2..]);
      HexCharOfValue(s[0]);
      HexCharOfValue(s[1]);
      PairSplits(HexCharValue(s[0]), HexCharValue(s[1]));
      assert Pairs(s)[1..] == Pairs(s[2..]);
      assert LowerHex(s) == [LowerHexChar(s[0]), LowerHexChar(s[1])] + LowerHex(s[2..]);
    }
  }

  /** What decodes to given bytes: their hexadecimal in either case, with or without 0x, and nothing else. */
  lemma HexToBytesIff(value: string, bytes: seq<byte>)
    ensures HexToBytes(value) == Ok(bytes) <==> bytes != [] && LowerHex(Unprefixed(value)) == BytesToHex(bytes)
  {
    var s := Unprefixed(value);
    if LowerHex(s) == BytesToHex(bytes) && bytes != [] {
      forall i | 0 <= i < |s| ensures IsHexChar(s[i]) {
        assert IsLowerHex(LowerHex(s)[i]);
      }
    }
    if |s| > 0 && |s| % 2 == 0 && forall c <- s :: IsHexChar(c) {
      PairsAreHex(s);
      PairsOfHex(bytes);
      PairsOfHex(Pairs(s));
    }
  }

  /** The value of a text is that of the bytes it shows. */
  lemma {:induction false} HexValueOfBytes(bytes: seq<byte>)
    ensures HexValue(BytesToHex(bytes)) == Packed(bytes)
  {
    if bytes != [] {
      var n := |bytes| - 1;
      HexValueOfBytes(bytes[..n]);
      HexEndsWith(bytes);
      var s, t := BytesToHex(bytes), BytesToHex(bytes[..n]);
      assert s[..|s| - 1][..|s| - 2] == t;
    }
  }

  lemma {:induction false} HexEndsWith(bytes: seq<byte>)
    requires bytes != []
    ensures var last := bytes[|bytes| - 1];
            BytesToHex(bytes) == BytesToHex(bytes[..|bytes| - 1]) + [HexChar(last / 16), HexChar(last % 16)]
  {
    if |bytes| > 1 {
      HexEndsWith(bytes[1..]);
      assert bytes[1..][..|bytes| - 2] == bytes[..|bytes| - 1][1..];
    }
  }

  function AssertionToWire(a: Assertion): AssertionWire {
    AssertionWire(BytesToHex(a.signatureRS), BytesToHex(a.authenticatorData), BytesToHex(a.clientDataJSON))
  }

  function AssertionFromWire(w: AssertionWire): Result<Assertion> {
    match HexToBytes(w.signatureRSHex)
    case Err(e) => Err("WebAuthn signature " + e)
    case Ok(signature) =>
      if |signature| != 64 then Err("WebAuthn signature must be exactly 64 bytes.")
      else
        match HexToBytes(w.authenticatorDataHex)
        case Err(e) => Err("WebAuthn authenticator data " + e)
        case Ok(data) =>
          match HexToBytes(w.clientDataJSONHex)
          case Err(e) => Err("WebAuthn client data " + e)
          case Ok(json) => Ok(Assertion(signature, data, json))
  }

  predicate Deliverable(a: Assertion) {
    |a.signatureRS| == 64 && a.authenticatorData != [] && a.clientDataJSON != []
  }

  /** An assertion survives the wire unchanged if it has a 64-byte signature and no empty part; any other is refused. */
  lemma AssertionRoundTrip(a: Assertion)
    ensures if Deliverable(a) then AssertionFromWire(AssertionToWire(a)) == Ok(a)
            else AssertionFromWire(AssertionToWire(a)).Err?
  {
    HexRoundTrip(a.signatureRS);
    HexRoundTrip(a.authenticatorData);
    HexRoundTrip(a.clientDataJSON);
  }
}
