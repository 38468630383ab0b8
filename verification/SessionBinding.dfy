/**
  Binding a login to its request: the preimage of the session authorization nullifier, and the check of a
  wallet's response against the nullifiers of mined transactions.
 */
module SessionBinding {
  import opened Wrappers
  import opened Numerals
  import opened Policies
  import opened Ledger
  import SessionMessages

  const SESSION_ASSERTION_VERSION := 2
  const SESSION_AUTHORIZATION := 0x4d534132
  const NOIR_FIELD_MODULUS := 21888242871839275222246405745257275088548364400416034343698204186575808495617
  const MAX_SAFE_INTEGER := 0x1F_FFFF_FFFF_FFFF

  const BAD_EXPIRY := "expiresAt must be a positive safe integer"
  const BAD_INDEX := "requirementIndex must be a u8"
  const BAD_HEX := "must be fixed-width lowercase hexadecimal"
  const OUTSIDE_FIELD := "outside the Noir field modulus"

  datatype SessionInput = SessionInput(
    gateway: string, requestId: string, challenge: string, expiresAt: int, requirementIndex: int, policy: Policy)

  /** The text without its optional 0x. */
  function Bare(text: string): string {
    if |text| >= 2 && text[0] == '0' && text[1] == 'x' then text[2..] else text
  }

  function HexField(text: string, byteLength: nat): Result<nat> {
    var normalized := Bare(text);
    if |normalized| != 2 * byteLength || !AllLowerHex(normalized) then Err(BAD_HEX)
    else if HexValue(normalized) >= NOIR_FIELD_MODULUS then Err(OUTSIDE_FIELD)
    else Ok(HexValue(normalized))
  }

  predicate InField(value: int) { 0 <= value < NOIR_FIELD_MODULUS }

  /** The constraints one after another, three fields each. */
  function Flat(constraints: seq<Constraint>): (fields: seq<int>)
    ensures |fields| == 3 * |constraints|
  {
    if constraints == [] then []
    else
      var c := constraints[|constraints| - 1];
      Flat(constraints[..|constraints| - 1]) + [c.claimId, c.op, c.value]
  }

  function SessionAuthorizationFields(x: SessionInput): Result<seq<int>> {
    if !(0 < x.expiresAt <= MAX_SAFE_INTEGER) then Err(BAD_EXPIRY)
    else if !(0 <= x.requirementIndex <= 255) then Err(BAD_INDEX)
    else match NormalizePolicy(x.policy)
      case Err(e) => Err(e)
      case Ok(policy) =>
        match HexField(x.gateway, 32)
        case Err(e) => Err(e)
        case Ok(gateway) =>
          match HexField(x.requestId, 16)
          case Err(e) => Err(e)
          case Ok(requestId) =>
            match HexField(x.challenge, 32)
            case Err(e) => Err(e)
            case Ok(challenge) =>
              if exists i :: 0 <= i < |policy.constraints| && !InField(policy.constraints[i].value) then Err(OUTSIDE_FIELD)
              else Ok([SESSION_ASSERTION_VERSION, gateway, requestId, challenge, x.expiresAt, x.requirementIndex, policy.credentialType]
                      + Flat(policy.constraints))
  }

  // ----- what the preimage binds -----

  predicate HexText(text: string, byteLength: nat) {
    && |Bare(text)| == 2 * byteLength && AllLowerHex(Bare(text)) && HexValue(Bare(text)) < NOIR_FIELD_MODULUS
  }

  /** What a request must be for its preimage to exist. */
  predicate WellFormed(x: SessionInput) {
    && 0 < x.expiresAt <= MAX_SAFE_INTEGER && 0 <= x.requirementIndex <= 255
    && HexText(x.gateway, 32) && HexText(x.requestId, 16) && HexText(x.challenge, 32)
    && |x.policy.constraints| <= MAX_CONSTRAINTS
    && forall i :: 0 <= i < |x.policy.constraints| ==> InField(x.policy.constraints[i].value)
  }

  /** The same request, up to an optional 0x and the padding of the policy. */
  predicate SameBinding(x: SessionInput, y: SessionInput) {
    && Bare(x.gateway) == Bare(y.gateway) && Bare(x.requestId) == Bare(y.requestId) && Bare(x.challenge) == Bare(y.challenge)
    && x.expiresAt == y.expiresAt && x.requirementIndex == y.requirementIndex
    && NormalizePolicy(x.policy) == NormalizePolicy(y.policy)
  }

  lemma FieldsWellFormed(x: SessionInput)
    ensures SessionAuthorizationFields(x).Ok? <==> WellFormed(x)
    ensures SessionAuthorizationFields(x).Ok? ==> |SessionAuthorizationFields(x).value| == 31
  {
    hide HexValue, AllLowerHex, Bare;
    if |x.policy.constraints| <= MAX_CONSTRAINTS {
      NormalAt(x.policy);
      var policy := NormalizePolicy(x.policy).value;
      assert forall i :: 0 <= i < |x.policy.constraints| ==> policy.constraints[i] == x.policy.constraints[i];
      assert InField(EMPTY.value);
    }
  }

  lemma {:induction false} FlatInjective(a: seq<Constraint>, b: seq<Constraint>)
    requires |a| == |b| && Flat(a) == Flat(b)
    ensures a == b
  {
    if a != [] {
      var n := |a| - 1;
      var f, g := Flat(a), Flat(b);
      assert f[..3 * n] == Flat(a[..n]) && g[..3 * n] == Flat(b[..n]);
      FlatInjective(a[..n], b[..n]);
      assert f[3 * n] == a[n].claimId && f[3 * n + 1] == a[n].op && f[3 * n + 2] == a[n].value;
      assert g[3 * n] == b[n].claimId && g[3 * n + 1] == b[n].op && g[3 * n + 2] == b[n].value;
      assert a == a[..n] + [a[n]] && b == b[..n] + [b[n]];
    }
  }

  lemma {:induction false} FlatAt(constraints: seq<Constraint>, k: nat)
    requires k < |constraints|
    ensures var f, c := Flat(constraints), constraints[k]; f[3 * k] == c.claimId && f[3 * k + 1] == c.op && f[3 * k + 2] == c.value
  {
    if k < |constraints| - 1 { FlatAt(constraints[..|constraints| - 1], k); }
  }

  /** What each of the 31 places holds. */
  lemma FieldsAt(x: SessionInput)
    requires WellFormed(x)
    ensures var f := SessionAuthorizationFields(x);
            && f.Ok? && |f.value| == 31
            && f.value[0] == 2 && HexField(x.gateway, 32) == Ok(f.value[1]) && HexField(x.requestId, 16) == Ok(f.value[2])
            && HexField(x.challenge, 32) == Ok(f.value[3])
            && f.value[4] == x.expiresAt && f.value[5] == x.requirementIndex && f.value[6] == x.policy.credentialType
            && forall k :: 0 <= k < MAX_CONSTRAINTS ==>
                 Constraint(f.value[7 + 3 * k], f.value[8 + 3 * k], f.value[9 + 3 * k]) == ConstraintAt(x.policy, k)
  {
    FieldsWellFormed(x);
    NormalAt(x.policy);
    hide HexField, WellFormed, Padded, Flat;
    var f, policy := SessionAuthorizationFields(x).value, NormalizePolicy(x.policy).value;
    assert f[7..] == Flat(policy.constraints);
    forall k | 0 <= k < MAX_CONSTRAINTS
      ensures Constraint(f[7 + 3 * k], f[8 + 3 * k], f[9 + 3 * k]) == ConstraintAt(x.policy, k)
    {
      FlatAt(policy.constraints, k);
      assert f[7..][3 * k] == f[7 + 3 * k] && f[7..][3 * k + 1] == f[8 + 3 * k] && f[7..][3 * k + 2] == f[9 + 3 * k];
    }
  }

  /** A text field is the number its bytes show, most significant first, when that is below the modulus. */
  lemma HexFieldOfBytes(bytes: seq<SessionMessages.byte>, prefixed: bool)
    ensures var text := (if prefixed then "0x" else "") + SessionMessages.BytesToHex(bytes);
            HexField(text, |bytes|) == if Packed(bytes) < NOIR_FIELD_MODULUS then Ok(Packed(bytes)) else Err(OUTSIDE_FIELD)
  {
    SessionMessages.HexValueOfBytes(bytes);
    hide HexValue, Packed, SessionMessages.BytesToHex;
    var s := SessionMessages.BytesToHex(bytes);
    if prefixed { assert ("0x" + s)[2..] == s; } else { assert "" + s == s; }
    assert |s| >= 2 ==> IsLowerHex(s[1]);
    assert Bare((if prefixed then "0x" else "") + s) == s;
  }

  /** Two well-formed requests share a preimage exactly when they are the same request. */
  lemma FieldsBindTheRequest(x: SessionInput, y: SessionInput)
    requires WellFormed(x) && WellFormed(y)
    ensures SessionAuthorizationFields(x) == SessionAuthorizationFields(y) <==> SameBinding(x, y)
  {
    FieldsWellFormed(x);
    FieldsWellFormed(y);
    NormalAt(x.policy);
    NormalAt(y.policy);
    hide HexValue, AllLowerHex, Bare, Padded, Flat;
    var f, g := SessionAuthorizationFields(x).value, SessionAuthorizationFields(y).value;
    var p, q := NormalizePolicy(x.policy).value, NormalizePolicy(y.policy).value;
    if f == g {
      assert f[7..] == Flat(p.constraints) && g[7..] == Flat(q.constraints);
      assert f[1] == g[1] && f[2] == g[2] && f[3] == g[3] && f[4] == g[4] && f[5] == g[5] && f[6] == g[6];
      HexValueInjective(Bare(x.gateway), Bare(y.gateway));
      HexValueInjective(Bare(x.requestId), Bare(y.requestId));
      HexValueInjective(Bare(x.challenge), Bare(y.challenge));
      FlatInjective(p.constraints, q.constraints);
    }
  }

  lemma {:induction false} LeadingZeros(digits: string)
    requires AllLowerHex(digits)
    ensures AllLowerHex("00" + digits) && HexValue("00" + digits) == HexValue(digits) < Pow(16, |digits|)
  {
    var text := "00" + digits;
    if digits == [] {
      assert text[..1][..0] == [] && text[..1] == "0";
      assert HexValue("0") == 0;
    } else {
      var n := |digits| - 1;
      LeadingZeros(digits[..n]);
      assert text[..|text| - 1] == "00" + digits[..n];
      assert Pow(16, |digits|) == 16 * Pow(16, n);
    }
  }

  lemma Pow16(e: nat)
    ensures Pow(16, e + 4) == 0x1_0000 * Pow(16, e)
  {
    assert Pow(16, e + 1) == 16 * Pow(16, e);
    assert Pow(16, e + 2) == 16 * Pow(16, e + 1);
    assert Pow(16, e + 3) == 16 * Pow(16, e + 2);
    assert Pow(16, e + 4) == 16 * Pow(16, e + 3);
  }

  lemma FieldHolds31Bytes()
    ensures Pow(16, 62) < NOIR_FIELD_MODULUS
  {
    assert Pow(16, 2) == 16 * (16 * Pow(16, 0));
    Pow16(2); Pow16(6); Pow16(10); Pow16(14); Pow16(18); Pow16(22); Pow16(26); Pow16(30);
    Pow16(34); Pow16(38); Pow16(42); Pow16(46); Pow16(50); Pow16(54); Pow16(58);
    hide Pow;
  }

  /** The dApp's challenge, a zero byte and 31 random ones in hexadecimal, always fits the field. */
  lemma RandomChallengeFits(random: string)
    requires AllLowerHex(random) && |random| == 62
    ensures HexField("00" + random, 32) == Ok(HexValue(random))
  {
    LeadingZeros(random);
    FieldHolds31Bytes();
    hide Pow, HexValue, AllLowerHex;
    var text := "00" + random;
    assert |text| == 64 && text[1] == '0';
    assert Bare(text) == text;
  }

  function Values(fields: seq<int>): seq<Field> { seq(|fields|, i requires 0 <= i < |fields| => Value(fields[i])) }

  /** The nullifier that authorizes a session, siloed by the sponsor contract. */
  function AuthorizationNullifier(contract: Field, fields: seq<int>): Field {
    Siloed(contract, Poseidon(SESSION_AUTHORIZATION, Values(fields)))
  }

  /** Two authorization nullifiers agree exactly when the contract and the request do. */
  lemma NullifierBindsTheRequest(contract: Field, x: SessionInput, other: Field, y: SessionInput)
    requires SessionAuthorizationFields(x).Ok? && SessionAuthorizationFields(y).Ok?
    ensures AuthorizationNullifier(contract, SessionAuthorizationFields(x).value) == AuthorizationNullifier(other, SessionAuthorizationFields(y).value)
            <==> contract == other && SameBinding(x, y)
  {
    hide SessionAuthorizationFields, WellFormed, SameBinding;
    FieldsWellFormed(x);
    FieldsWellFormed(y);
    FieldsBindTheRequest(x, y);
    var f, g := SessionAuthorizationFields(x).value, SessionAuthorizationFields(y).value;
    if Values(f) == Values(g) {
      assert |Values(f)| == |f| && |Values(g)| == |g|;
      forall i | 0 <= i < |f| ensures f[i] == g[i] {
        assert Values(f)[i] == Value(f[i]) && Values(g)[i] == Value(g[i]);
      }
      assert f == g;
    }
  }

  // ----- the response of the wallet -----

  datatype SessionReceipt = SessionReceipt(id: string, kind: string, receipt: string)

  datatype Assertion = Assertion(
    v: int, verified: bool, clientId: string, origin: string, requestId: string, sessionChallenge: string,
    policyHash: string, issuedAt: int, expiresAt: int, authorizationContract: string, receipt: string,
    receipts: seq<SessionReceipt>)

  datatype Requirement = Requirement(id: string, kind: string, policy: Policy)

  datatype Context = Context(
    clientId: string, origin: string, requestId: string, sessionChallenge: string, policyHash: string,
    gateway: string, requirements: seq<Requirement>)

  /** What the node knows of a transaction. */
  datatype TxReceipt = TxReceipt(mined: bool, succeeded: bool, nullifiers: Option<set<Field>>)

  /** The dApp's configured contract, how addresses are read, and the node it asks. */
  datatype Verifier = Verifier(authorizationContract: string, address: string -> Field, txReceipt: string -> TxReceipt)

  datatype Rejection =
    | InvalidAssertion | RequestIdMismatch | ChallengeMismatch | PolicyHashMismatch | ClientIdMismatch
    | OriginMismatch | ContractMismatch | ExpiredOrNotYetValid | InvalidLifetime | ReceiptCountMismatch
    | ReceiptMismatch | InvalidRequest(error: string) | NotMined | Reverted | NoEffect | NotBound
    | PrimaryReceiptMismatch

  /** The request that the receipt at an index must authorize. */
  function SessionAt(a: Assertion, e: Context, index: nat): SessionInput
    requires index < |e.requirements|
  {
    SessionInput(e.gateway, e.requestId, e.sessionChallenge, a.expiresAt, index, e.requirements[index].policy)
  }

  function VerifyAuthorization(verifier: Verifier, contract: string, session: SessionInput, txHash: string): Option<Rejection> {
    match SessionAuthorizationFields(session)
    case Err(error) => Some(InvalidRequest(error))
    case Ok(fields) =>
      var expected := AuthorizationNullifier(verifier.address(contract), fields);
      var receipt := verifier.txReceipt(txHash);
      if !receipt.mined then Some(NotMined)
      else if !receipt.succeeded then Some(Reverted)
      else if receipt.nullifiers.None? then Some(NoEffect)
      else if expected !in receipt.nullifiers.value then Some(NotBound)
      else None
  }

  function HeaderRejection(a: Assertion, e: Context, verifier: Verifier, now: int): Option<Rejection> {
    if a.v != SESSION_ASSERTION_VERSION || !a.verified then Some(InvalidAssertion)
    else if a.requestId != e.requestId then Some(RequestIdMismatch)
    else if a.sessionChallenge != e.sessionChallenge then Some(ChallengeMismatch)
    else if a.policyHash != e.policyHash then Some(PolicyHashMismatch)
    else if a.clientId != e.clientId then Some(ClientIdMismatch)
    else if a.origin != e.origin then Some(OriginMismatch)
    else if a.authorizationContract != verifier.authorizationContract then Some(ContractMismatch)
    else if a.expiresAt <= now || a.issuedAt > now + 60 then Some(ExpiredOrNotYetValid)
    else if a.expiresAt - a.issuedAt != 300 then Some(InvalidLifetime)
    else if |a.receipts| != |e.requirements| then Some(ReceiptCountMismatch)
    else None
  }

  function ReceiptRejection(a: Assertion, e: Context, verifier: Verifier, index: nat): Option<Rejection>
    requires index < |a.receipts| == |e.requirements|
  {
    if a.receipts[index].id != e.requirements[index].id || a.receipts[index].kind != e.requirements[index].kind
    then Some(ReceiptMismatch)
    else VerifyAuthorization(verifier, a.authorizationContract, SessionAt(a, e, index), a.receipts[index].receipt)
  }

  /** The response is the answer to this request, of this dApp, and current. */
  ghost predicate ForThisRequest(a: Assertion, e: Context, verifier: Verifier, now: int) {
    && a.v == 2 && a.verified
    && a.requestId == e.requestId && a.sessionChallenge == e.sessionChallenge && a.policyHash == e.policyHash
    && a.clientId == e.clientId && a.origin == e.origin && a.authorizationContract == verifier.authorizationContract
    && now < a.expiresAt == a.issuedAt + 300 && a.issuedAt <= now + 60
  }

  /** A nullifier of the transaction at an index authorizes exactly the request of that index. */
  ghost predicate Authorizes(a: Assertion, e: Context, verifier: Verifier, index: nat, nullifier: Field)
    requires index < |a.receipts| == |e.requirements|
  {
    var fields := SessionAuthorizationFields(SessionAt(a, e, index));
    var receipt := verifier.txReceipt(a.receipts[index].receipt);
    && fields.Ok? && nullifier == AuthorizationNullifier(verifier.address(verifier.authorizationContract), fields.value)
    && receipt.mined && receipt.succeeded && receipt.nullifiers.Some? && nullifier in receipt.nullifiers.value
  }

  /** The receipt at an index is for the requirement there, and its transaction authorizes it. */
  ghost predicate Bound(a: Assertion, e: Context, verifier: Verifier, index: nat)
    requires index < |a.receipts| == |e.requirements|
  {
    && a.receipts[index].id == e.requirements[index].id && a.receipts[index].kind == e.requirements[index].kind
    && exists nullifier :: Authorizes(a, e, verifier, index, nullifier)
  }

  /** The response is accepted: current, for this request, and every receipt is bound to its requirement. */
  ghost predicate Accepted(a: Assertion, e: Context, verifier: Verifier, now: int) {
    && ForThisRequest(a, e, verifier, now)
    && |a.receipts| == |e.requirements| > 0 && a.receipt == a.receipts[0].receipt
    && forall i :: 0 <= i < |a.receipts| ==> Bound(a, e, verifier, i)
  }

  /** What is wrong with a response that is rejected for a reason. */
  ghost predicate Fault(r: Rejection, a: Assertion, e: Context, verifier: Verifier, now: int) {
    match r
    case InvalidAssertion => a.v != 2 || !a.verified
    case RequestIdMismatch => a.requestId != e.requestId
    case ChallengeMismatch => a.sessionChallenge != e.sessionChallenge
    case PolicyHashMismatch => a.policyHash != e.policyHash
    case ClientIdMismatch => a.clientId != e.clientId
    case OriginMismatch => a.origin != e.origin
    case ContractMismatch => a.authorizationContract != verifier.authorizationContract
    case ExpiredOrNotYetValid => a.expiresAt <= now || now + 60 < a.issuedAt
    case InvalidLifetime => a.expiresAt != a.issuedAt + 300
    case ReceiptCountMismatch => |a.receipts| != |e.requirements|
    case PrimaryReceiptMismatch => |a.receipts| == 0 || a.receipt != a.receipts[0].receipt
    case _ => |a.receipts| == |e.requirements| && exists i :: 0 <= i < |a.receipts| && ReceiptFault(r, a, e, verifier, i)
  }

  ghost predicate ReceiptFault(r: Rejection, a: Assertion, e: Context, verifier: Verifier, index: nat)
    requires index < |a.receipts| == |e.requirements|
  {
    var mine, tx := a.receipts[index], verifier.txReceipt(a.receipts[index].receipt);
    match r
    case ReceiptMismatch => mine.id != e.requirements[index].id || mine.kind != e.requirements[index].kind
    case InvalidRequest(_) => !WellFormed(SessionAt(a, e, index))
    case NotMined => !tx.mined
    case Reverted => tx.mined && !tx.succeeded
    case NoEffect => tx.mined && tx.succeeded && tx.nullifiers.None?
    case NotBound => tx.mined && tx.succeeded && tx.nullifiers.Some? && !Bound(a, e, verifier, index)
    case _ => false
  }

  lemma HeaderChecks(a: Assertion, e: Context, verifier: Verifier, now: int)
    ensures HeaderRejection(a, e, verifier, now).None? <==> ForThisRequest(a, e, verifier, now) && |a.receipts| == |e.requirements|
    ensures HeaderRejection(a, e, verifier, now).Some? ==> Fault(HeaderRejection(a, e, verifier, now).value, a, e, verifier, now)
  {
  }

  lemma PrimaryFault(a: Assertion, e: Context, verifier: Verifier, now: int)
    requires |a.receipts| == 0 || a.receipt != a.receipts[0].receipt
    ensures Fault(PrimaryReceiptMismatch, a, e, verifier, now)
  {
  }

  lemma BoundByExpected(a: Assertion, e: Context, verifier: Verifier, index: nat)
    requires index < |a.receipts| == |e.requirements|
    ensures var fields := SessionAuthorizationFields(SessionAt(a, e, index));
            Bound(a, e, verifier, index) <==>
              && a.receipts[index].id == e.requirements[index].id && a.receipts[index].kind == e.requirements[index].kind && fields.Ok?
              && Authorizes(a, e, verifier, index, AuthorizationNullifier(verifier.address(verifier.authorizationContract), fields.value))
  {
    hide SessionAuthorizationFields, AuthorizationNullifier;
  }

  lemma ReceiptChecks(a: Assertion, e: Context, verifier: Verifier, now: int, index: nat)
    requires index < |a.receipts| == |e.requirements| && a.authorizationContract == verifier.authorizationContract
    ensures ReceiptRejection(a, e, verifier, index).None? <==> Bound(a, e, verifier, index)
    ensures ReceiptRejection(a, e, verifier, index).Some? ==> Fault(ReceiptRejection(a, e, verifier, index).value, a, e, verifier, now)
  {
    FieldsWellFormed(SessionAt(a, e, index));
    BoundByExpected(a, e, verifier, index);
    hide SessionAuthorizationFields, WellFormed, SessionAt, Bound, AuthorizationNullifier;
    var r := ReceiptRejection(a, e, verifier, index);
    assert r.Some? ==> ReceiptFault(r.value, a, e, verifier, index);
    hide Authorizes;
  }

  ghost predicate FirstRejected(a: Assertion, e: Context, verifier: Verifier, index: nat)
    requires index < |a.receipts| == |e.requirements|
  {
    && ReceiptRejection(a, e, verifier, index).Some?
    && forall k :: 0 <= k < index ==> ReceiptRejection(a, e, verifier, k).None?
  }

  /** The checks in order; the first that fails names what is wrong. */
  method ValidateLoginResponse(a: Assertion, e: Context, verifier: Verifier, now: int) returns (rejection: Option<Rejection>)
    ensures rejection.None? <==> Accepted(a, e, verifier, now)
    ensures rejection.Some? ==> Fault(rejection.value, a, e, verifier, now)
    ensures HeaderRejection(a, e, verifier, now).Some? ==> rejection == HeaderRejection(a, e, verifier, now)
    ensures HeaderRejection(a, e, verifier, now).None? ==>
              forall i :: 0 <= i < |a.receipts| && FirstRejected(a, e, verifier, i) ==> rejection == ReceiptRejection(a, e, verifier, i)
  {
    HeaderChecks(a, e, verifier, now);
    hide VerifyAuthorization, ReceiptRejection, HeaderRejection, Fault, Bound;
    rejection := HeaderRejection(a, e, verifier, now);
    if rejection.Some? { return; }
    for index := 0 to |e.requirements|
      invariant forall k :: 0 <= k < index ==> ReceiptRejection(a, e, verifier, k).None? && Bound(a, e, verifier, k)
    {
      ReceiptChecks(a, e, verifier, now, index);
      rejection := ReceiptRejection(a, e, verifier, index);
      if rejection.Some? { return; }
    }
    if |a.receipts| == 0 || a.receipt != a.receipts[0].receipt {
      assert Fault(PrimaryReceiptMismatch, a, e, verifier, now) by { PrimaryFault(a, e, verifier, now); }
      return Some(PrimaryReceiptMismatch);
    }
    rejection := None;
  }

  /** A login accepted with k requirements rests on k pairwise distinct nullifiers, one per requirement. */
  lemma AcceptedLogin(a: Assertion, e: Context, verifier: Verifier, now: int) returns (nullifiers: seq<Field>)
    requires Accepted(a, e, verifier, now)
    ensures 0 < |nullifiers| == |e.requirements| == |a.receipts| <= 256
    ensures forall i :: 0 <= i < |nullifiers| ==> Authorizes(a, e, verifier, i, nullifiers[i])
    ensures forall i, j :: 0 <= i < j < |nullifiers| ==> nullifiers[i] != nullifiers[j]
    ensures now < a.expiresAt <= now + 360
  {
    hide SessionAuthorizationFields;
    forall i | 0 <= i < |a.receipts| ensures SessionAuthorizationFields(SessionAt(a, e, i)).Ok? && i <= 255 {
      assert Bound(a, e, verifier, i);
      FieldsWellFormed(SessionAt(a, e, i));
    }
    assert SessionAt(a, e, |a.receipts| - 1).requirementIndex <= 255;
    var contract := verifier.address(verifier.authorizationContract);
    nullifiers := seq(|a.receipts|, i requires 0 <= i < |a.receipts| =>
      AuthorizationNullifier(contract, SessionAuthorizationFields(SessionAt(a, e, i)).value));
    forall i, j | 0 <= i < j < |nullifiers| ensures nullifiers[i] != nullifiers[j] {
      NullifierBindsTheRequest(contract, SessionAt(a, e, i), contract, SessionAt(a, e, j));
    }
    forall i | 0 <= i < |nullifiers| ensures Authorizes(a, e, verifier, i, nullifiers[i]) {
      assert Bound(a, e, verifier, i);
    }
  }

  /** No replay: a nullifier that authorizes in two logins means the same request, expiry, index and policy. */
  lemma NoReplay(a: Assertion, e: Context, i: nat, b: Assertion, f: Context, j: nat, verifier: Verifier, nullifier: Field)
    requires i < |a.receipts| == |e.requirements| && j < |b.receipts| == |f.requirements|
    requires Authorizes(a, e, verifier, i, nullifier) && Authorizes(b, f, verifier, j, nullifier)
    ensures Bare(e.requestId) == Bare(f.requestId) && Bare(e.sessionChallenge) == Bare(f.sessionChallenge) && Bare(e.gateway) == Bare(f.gateway)
    ensures a.expiresAt == b.expiresAt && i == j
    ensures NormalizePolicy(e.requirements[i].policy) == NormalizePolicy(f.requirements[j].policy)
  {
    hide SessionAuthorizationFields;
    var contract := verifier.address(verifier.authorizationContract);
    NullifierBindsTheRequest(contract, SessionAt(a, e, i), contract, SessionAt(b, f, j));
  }
}
