/**
  A login request on its way from the dApp to the wallet: what is written, what is accepted, and why both
  sides end with the same requirements although each computes them on its own.
 */
module WireAgreement {
  import opened Wrappers
  import opened Numerals
  import opened Policies
  import opened SessionBinding

  const MAX_DECIMAL_DIGITS := 78
  const HANDLE_SEPARATOR := 0x4d414948
  const POLICY_KIND := "policy"
  const HANDLE_KIND := "instagram-handle"

  const INVALID_POLICY := "invalid policy"
  const HANDLE_TOO_LONG := "handle too long"
  const NO_POLICY := "no policy requirement"
  const NO_HANDLE_CONSTRAINT := "no handle constraint"
  const UNSUPPORTED := "unsupported type"
  const INVALID_REQUIREMENTS := "invalid requirements"

  datatype WireConstraint = WireConstraint(claimId: int, op: int, value: string)

  datatype WirePolicy = WirePolicy(credentialType: int, constraints: seq<WireConstraint>)

  datatype LoginRequirement =
    | PolicyRequirement(id: string, policy: Policy)
    | HandleRequirement(id: string, handle: string)

  datatype WireRequirement =
    | WirePolicyRequirement(id: string, policy: WirePolicy)
    | WireHandleRequirement(id: string, handle: string)
    | WireUnknown(id: string)

  // ----- policies on the wire -----

  function ConstraintToWire(c: Constraint): WireConstraint { WireConstraint(c.claimId, c.op, IntDecimal(c.value)) }

  function PolicyToWire(p: Policy): WirePolicy {
    WirePolicy(p.credentialType, seq(|p.constraints|, i requires 0 <= i < |p.constraints| => ConstraintToWire(p.constraints[i])))
  }

  predicate ValidWireConstraint(c: WireConstraint) {
    && 0 <= c.claimId < CLAIM_IDS && 0 <= c.op < CONSTRAINT_OPS
    && CanonicalDecimal(c.value) && |c.value| <= MAX_DECIMAL_DIGITS
  }

  predicate ValidWirePolicy(p: WirePolicy) {
    && 0 <= p.credentialType < CREDENTIAL_TYPES && |p.constraints| <= MAX_CONSTRAINTS
    && forall i :: 0 <= i < |p.constraints| ==> ValidWireConstraint(p.constraints[i])
  }

  method AssertWirePolicy(p: WirePolicy) returns (valid: bool)
    ensures valid <==> ValidWirePolicy(p)
  {
    if !(0 <= p.credentialType < CREDENTIAL_TYPES) { return false; }
    if |p.constraints| > MAX_CONSTRAINTS { return false; }
    for i := 0 to |p.constraints|
      invariant forall k :: 0 <= k < i ==> ValidWireConstraint(p.constraints[k])
    {
      var c := p.constraints[i];
      if !(0 <= c.claimId < CLAIM_IDS) { return false; }
      if !(0 <= c.op < CONSTRAINT_OPS) { return false; }
      if !CanonicalDecimal(c.value) || |c.value| > MAX_DECIMAL_DIGITS { return false; }
    }
    valid := true;
  }

  function ConstraintFromWire(c: WireConstraint): Constraint
    requires ValidWireConstraint(c)
  {
    Constraint(c.claimId, c.op, ParseDecimal(c.value))
  }

  function PolicyFromWire(p: WirePolicy): Result<Policy> {
    if !ValidWirePolicy(p) then Err(INVALID_POLICY)
    else Ok(Policy(p.credentialType,
      seq(|p.constraints|, i requires 0 <= i < |p.constraints| => ConstraintFromWire(p.constraints[i]))))
  }

  predicate WirableConstraint(c: Constraint) {
    0 <= c.claimId < CLAIM_IDS && 0 <= c.op < CONSTRAINT_OPS && 0 <= c.value < Pow(10, MAX_DECIMAL_DIGITS)
  }

  /** A policy the wire can carry. */
  predicate Wirable(p: Policy) {
    && 0 <= p.credentialType < CREDENTIAL_TYPES && |p.constraints| <= MAX_CONSTRAINTS
    && forall i :: 0 <= i < |p.constraints| ==> WirableConstraint(p.constraints[i])
  }

  lemma ConstraintOnWire(c: Constraint)
    ensures ValidWireConstraint(ConstraintToWire(c)) <==> WirableConstraint(c)
    ensures WirableConstraint(c) ==> ConstraintFromWire(ConstraintToWire(c)) == c
  {
    hide Pow, Decimal, ParseDecimal;
    if c.value >= 0 {
      DecimalParses(c.value);
      DecimalLength(c.value, MAX_DECIMAL_DIGITS);
    } else {
      assert IntDecimal(c.value)[0] == '-';
    }
  }

  /** A policy survives the wire unchanged exactly when the wire can carry it; any other is refused. */
  lemma PolicyRoundTrip(p: Policy)
    ensures PolicyFromWire(PolicyToWire(p)) == if Wirable(p) then Ok(p) else Err(INVALID_POLICY)
  {
    hide WirableConstraint, ValidWireConstraint, ConstraintToWire, ConstraintFromWire;
    var w := PolicyToWire(p);
    forall i | 0 <= i < |p.constraints|
      ensures ValidWireConstraint(w.constraints[i]) <==> WirableConstraint(p.constraints[i])
      ensures WirableConstraint(p.constraints[i]) ==> ConstraintFromWire(w.constraints[i]) == p.constraints[i]
    {
      ConstraintOnWire(p.constraints[i]);
      assert w.constraints[i] == ConstraintToWire(p.constraints[i]);
    }
    if Wirable(p) {
      assert PolicyFromWire(w).value.constraints == p.constraints;
    } else {
      assert Wirable(p) <== ValidWirePolicy(w);
    }
  }

  lemma ConstraintFromWireOnly(w: WireConstraint)
    requires ValidWireConstraint(w)
    ensures ConstraintToWire(ConstraintFromWire(w)) == w
  {
    CanonicalPrints(w.value);
  }

  /** Each policy has one wire form, and nothing else decodes to it: what is accepted was written canonically. */
  lemma WireFormIff(w: WirePolicy, p: Policy)
    ensures PolicyFromWire(w) == Ok(p) <==> Wirable(p) && w == PolicyToWire(p)
  {
    PolicyRoundTrip(p);
    hide ValidWireConstraint, ConstraintToWire, ConstraintFromWire, Wirable;
    if PolicyFromWire(w) == Ok(p) {
      forall i | 0 <= i < |w.constraints| ensures PolicyToWire(p).constraints[i] == w.constraints[i] {
        ConstraintFromWireOnly(w.constraints[i]);
        assert p.constraints[i] == ConstraintFromWire(w.constraints[i]);
      }
      assert PolicyToWire(p).constraints == w.constraints;
    }
  }

  // ----- handles -----

  /** What both sides hash for a handle. */
  function HandlePreimage(bytes: seq<nat>): seq<int> { [HANDLE_SEPARATOR, |bytes|, Packed(bytes)] }

  function HandlePolicy(handleHash: int): Policy { Policy(INSTAGRAM, [Constraint(INSTAGRAM_HANDLE_HASH, OP_EQ, handleHash)]) }

  predicate HasHandleConstraint(policy: Policy) {
    exists i :: 0 <= i < |policy.constraints| && policy.constraints[i].claimId == INSTAGRAM_HANDLE_HASH && policy.constraints[i].op == OP_EQ
  }

  predicate Bytes(bytes: seq<nat>) { forall i :: 0 <= i < |bytes| ==> bytes[i] < 256 }

  /** Byte strings of one length are determined by their packed value. */
  lemma {:induction false} PackingInjective(a: seq<nat>, b: seq<nat>)
    requires Bytes(a) && Bytes(b) && |a| == |b| && Packed(a) == Packed(b)
    ensures a == b
  {
    if a != [] {
      var n := |a| - 1;
      PackingStep(Packed(a[..n]), a[n], Packed(b[..n]), b[n]);
      PackingInjective(a[..n], b[..n]);
      assert a == a[..n] + [a[n]] && b == b[..n] + [b[n]];
    }
  }

  lemma PackingStep(x: nat, c: nat, y: nat, d: nat)
    requires c < 256 && d < 256 && 256 * x + c == 256 * y + d
    ensures x == y && c == d
  {
  }

  lemma {:induction false} PackedBelow(bytes: seq<nat>)
    requires Bytes(bytes)
    ensures Packed(bytes) < Pow(256, |bytes|)
  {
    if bytes != [] {
      PackedBelow(bytes[..|bytes| - 1]);
      assert Pow(256, |bytes|) == 256 * Pow(256, |bytes| - 1);
    }
  }

  lemma PowGrows(d: nat, e: nat)
    requires d <= e
    ensures 0 < Pow(256, d) <= Pow(256, e)
    decreases e - d
  {
    PowPositive(256, d);
    if d < e {
      assert Pow(256, d + 1) == 256 * Pow(256, d);
      PowGrows(d + 1, e);
    }
  }

  lemma FieldHoldsHandles()
    ensures Pow(256, 31) < NOIR_FIELD_MODULUS
  {
    assert Pow(256, 8) == 256 * (256 * (256 * (256 * (256 * (256 * (256 * (256 * Pow(256, 0))))))));
    assert Pow(256, 16) == 256 * (256 * (256 * (256 * (256 * (256 * (256 * (256 * Pow(256, 8))))))));
    assert Pow(256, 24) == 256 * (256 * (256 * (256 * (256 * (256 * (256 * (256 * Pow(256, 16))))))));
    assert Pow(256, 31) == 256 * (256 * (256 * (256 * (256 * (256 * (256 * Pow(256, 24)))))));
  }

  /** Two handles that fit have one preimage only if they are the same bytes, and it lies in the field. */
  lemma HandleBinds(a: seq<nat>, b: seq<nat>)
    requires Bytes(a) && Bytes(b) && |a| <= 31 && |b| <= 31
    ensures HandlePreimage(a) == HandlePreimage(b) <==> a == b
    ensures forall i :: 0 <= i < 3 ==> InField(HandlePreimage(a)[i])
  {
    hide Pow;
    PackedBelow(a);
    PowGrows(|a|, 31);
    FieldHoldsHandles();
    if HandlePreimage(a) == HandlePreimage(b) {
      assert HandlePreimage(a)[1] == HandlePreimage(b)[1] && HandlePreimage(a)[2] == HandlePreimage(b)[2];
      PackingInjective(a, b);
    }
  }

  function DappHandlePolicy(bytes: seq<nat>, pedersen: seq<int> -> int): Result<Policy> {
    if |bytes| > 31 then Err(HANDLE_TOO_LONG) else NormalizePolicy(HandlePolicy(pedersen(HandlePreimage(bytes))))
  }

  function WalletHandleHash(bytes: seq<nat>, pedersen: seq<int> -> int): Result<int> {
    if |bytes| > 31 then Err(HANDLE_TOO_LONG) else Ok(pedersen(HandlePreimage(bytes)))
  }

  /** A credential over a handle with this hash meets what a policy asks of its handle. */
  ghost predicate HandleMeets(policy: Policy, handleHash: int) {
    && HasHandleConstraint(policy)
    && forall i :: 0 <= i < |policy.constraints| && policy.constraints[i].claimId == INSTAGRAM_HANDLE_HASH && policy.constraints[i].op == OP_EQ ==>
         policy.constraints[i].value == handleHash
  }

  ghost predicate Injective(pedersen: seq<int> -> int) {
    forall x: seq<int>, y: seq<int> :: pedersen(x) == pedersen(y) ==> x == y
  }

  /** The dApp's policy asks for one Instagram handle and nothing else: the hash that the wallet computes for it. */
  lemma HandlePolicyAsks(bytes: seq<nat>, pedersen: seq<int> -> int)
    ensures (DappHandlePolicy(bytes, pedersen).Ok? <==> |bytes| <= 31) && (WalletHandleHash(bytes, pedersen).Ok? <==> |bytes| <= 31)
    ensures |bytes| <= 31 ==>
              var policy := DappHandlePolicy(bytes, pedersen).value;
              && policy.credentialType == INSTAGRAM && |policy.constraints| == MAX_CONSTRAINTS
              && policy.constraints[0] == Constraint(INSTAGRAM_HANDLE_HASH, OP_EQ, WalletHandleHash(bytes, pedersen).value)
              && forall i :: 1 <= i < MAX_CONSTRAINTS ==> policy.constraints[i] == EMPTY
  {
    if |bytes| <= 31 { NormalAt(HandlePolicy(pedersen(HandlePreimage(bytes)))); }
    hide HandlePreimage, Padded;
  }

  /** A handle's policy is met by that handle alone, and no two handles have one policy. */
  lemma HandlePolicyBinds(a: seq<nat>, b: seq<nat>, pedersen: seq<int> -> int)
    requires Bytes(a) && Bytes(b) && |a| <= 31 && |b| <= 31 && Injective(pedersen)
    ensures DappHandlePolicy(a, pedersen) == DappHandlePolicy(b, pedersen) <==> a == b
    ensures HandleMeets(DappHandlePolicy(a, pedersen).value, WalletHandleHash(b, pedersen).value) <==> a == b
  {
    HandlePolicyAsks(a, pedersen);
    HandlePolicyAsks(b, pedersen);
    HandleBinds(a, b);
    var policy, hash := DappHandlePolicy(a, pedersen).value, WalletHandleHash(b, pedersen).value;
    assert WalletHandleHash(a, pedersen).value == hash <==> a == b;
    hide DappHandlePolicy, WalletHandleHash;
    assert policy.constraints[0].claimId == INSTAGRAM_HANDLE_HASH && EMPTY.claimId != INSTAGRAM_HANDLE_HASH;
  }

  /** The dApp's copy of the packing. */
  method InstagramHandlePolicy(bytes: seq<nat>, pedersen: seq<int> -> int) returns (r: Result<Policy>)
    ensures r == DappHandlePolicy(bytes, pedersen)
  {
    if |bytes| > 31 { return Err(HANDLE_TOO_LONG); }
    var packed := 0;
    for i := 0 to |bytes|
      invariant packed == Packed(bytes[..i])
    {
      assert bytes[..i + 1][..i] == bytes[..i];
      packed := 256 * packed + bytes[i];
    }
    assert bytes[..|bytes|] == bytes;
    r := NormalizePolicy(HandlePolicy(pedersen([HANDLE_SEPARATOR, |bytes|, packed])));
  }

  /** The wallet's copy of the packing. */
  method ComputeInstagramHandleHash(bytes: seq<nat>, pedersen: seq<int> -> int) returns (r: Result<int>)
    ensures r == WalletHandleHash(bytes, pedersen)
  {
    if |bytes| > 31 { return Err(HANDLE_TOO_LONG); }
    var packed := 0;
    for i := 0 to |bytes|
      invariant packed == Packed(bytes[..i])
    {
      assert bytes[..i + 1][..i] == bytes[..i];
      packed := 256 * packed + bytes[i];
    }
    assert bytes[..|bytes|] == bytes;
    r := Ok(pedersen([HANDLE_SEPARATOR, |bytes|, packed]));
  }

  // ----- requests -----

  predicate IdChar(c: char) { 'a' <= c <= 'z' || '0' <= c <= '9' || c == '_' || c == '-' }

  predicate HandleChar(c: char) { 'a' <= c <= 'z' || '0' <= c <= '9' || c == '.' || c == '_' }

  predicate ValidId(id: string) { 1 <= |id| <= 40 && forall i :: 0 <= i < |id| ==> IdChar(id[i]) }

  predicate ValidHandle(handle: string) { 1 <= |handle| <= 30 && forall i :: 0 <= i < |handle| ==> HandleChar(handle[i]) }

  predicate ValidWireRequirement(r: WireRequirement) {
    ValidId(r.id) && match r
                     case WirePolicyRequirement(_, policy) => ValidWirePolicy(policy)
                     case WireHandleRequirement(_, handle) => ValidHandle(handle)
                     case WireUnknown(_) => false
  }

  predicate ValidWireRequirements(rs: seq<WireRequirement>) {
    && 1 <= |rs| <= 4 && (forall i :: 0 <= i < |rs| ==> ValidWireRequirement(rs[i]))
    && forall i, j :: 0 <= i < j < |rs| ==> rs[i].id != rs[j].id
  }

  method AssertWireLoginRequirements(value: Option<seq<WireRequirement>>) returns (valid: bool)
    ensures valid <==> value.None? || ValidWireRequirements(value.value)
  {
    hide ValidId, ValidHandle, ValidWirePolicy;
    if value.None? { return true; }
    var rs := value.value;
    if !(1 <= |rs| <= 4) { return false; }
    var ids: set<string> := {};
    for n := 0 to |rs|
      invariant forall id :: id in ids <==> exists k :: 0 <= k < n && rs[k].id == id
      invariant forall i, j :: 0 <= i < j < n ==> rs[i].id != rs[j].id
      invariant forall k :: 0 <= k < n ==> ValidWireRequirement(rs[k])
    {
      var r := rs[n];
      if !ValidId(r.id) { return false; }
      if r.id in ids { return false; }
      ids := ids + {r.id};
      match r {
        case WirePolicyRequirement(_, policy) =>
          var ok := AssertWirePolicy(policy);
          if !ok { return false; }
        case WireHandleRequirement(_, handle) =>
          if !ValidHandle(handle) { return false; }
        case WireUnknown(_) => return false;
      }
    }
    valid := true;
  }

  datatype LoginRequest = LoginRequest(policy: WirePolicy, requirements: Option<seq<WireRequirement>>)

  function RequirementToWire(r: LoginRequirement): Result<WireRequirement> {
    match r
    case PolicyRequirement(id, policy) =>
      (match NormalizePolicy(policy)
       case Err(e) => Err(e)
       case Ok(normalized) => Ok(WirePolicyRequirement(id, PolicyToWire(normalized))))
    case HandleRequirement(id, handle) => Ok(WireHandleRequirement(id, handle))
  }

  function RequirementFromWire(r: WireRequirement): Result<LoginRequirement> {
    match r
    case WirePolicyRequirement(id, policy) =>
      (match PolicyFromWire(policy)
       case Err(e) => Err(e)
       case Ok(p) => Ok(PolicyRequirement(id, p)))
    case WireHandleRequirement(id, handle) => Ok(HandleRequirement(id, handle))
    case WireUnknown(_) => Err(INVALID_REQUIREMENTS)
  }

  /** Text encoding and hashing, shared by both sides. */
  datatype Crypto = Crypto(encode: string -> seq<nat>, pedersen: seq<int> -> int)

  /** What the dApp will check for a requirement. */
  function DappRequirement(r: LoginRequirement, crypto: Crypto): Result<Requirement> {
    match r
    case PolicyRequirement(id, policy) =>
      (match NormalizePolicy(policy)
       case Err(e) => Err(e)
       case Ok(normalized) => Ok(Requirement(id, POLICY_KIND, normalized)))
    case HandleRequirement(id, handle) =>
      (match DappHandlePolicy(crypto.encode(handle), crypto.pedersen)
       case Err(e) => Err(e)
       case Ok(policy) => Ok(Requirement(id, HANDLE_KIND, policy)))
  }

  /** What the wallet will prove for a requirement. */
  function WalletRequirement(r: LoginRequirement, crypto: Crypto): Result<Requirement> {
    match r
    case PolicyRequirement(id, policy) =>
      if policy.credentialType == PASSPORT then Ok(Requirement(id, POLICY_KIND, policy))
      else if policy.credentialType == INSTAGRAM
      then if HasHandleConstraint(policy) then Ok(Requirement(id, POLICY_KIND, policy)) else Err(NO_HANDLE_CONSTRAINT)
      else Err(UNSUPPORTED)
    case HandleRequirement(id, handle) =>
      (match WalletHandleHash(crypto.encode(handle), crypto.pedersen)
       case Err(e) => Err(e)
       case Ok(handleHash) => Ok(Requirement(id, HANDLE_KIND, HandlePolicy(handleHash))))
  }

  function FirstPolicy(rs: seq<LoginRequirement>): Option<Policy> {
    if rs == [] then None else if rs[0].PolicyRequirement? then Some(rs[0].policy) else FirstPolicy(rs[1..])
  }

  /** The dApp: the request it posts and the requirements it will check. */
  function LoginWithRequirements(rs: seq<LoginRequirement>, crypto: Crypto): Result<(LoginRequest, seq<Requirement>)> {
    match FirstPolicy(rs)
    case None => Err(NO_POLICY)
    case Some(policy) =>
      match Traverse(RequirementToWire, rs)
      case Err(e) => Err(e)
      case Ok(wire) =>
        match Traverse(r => DappRequirement(r, crypto), rs)
        case Err(e) => Err(e)
        case Ok(authorizations) =>
          match NormalizePolicy(policy)
          case Err(e) => Err(e)
          case Ok(normalized) => Ok((LoginRequest(PolicyToWire(normalized), Some(wire)), authorizations))
  }

  /** The dApp, for a single policy. */
  function Login(policy: Policy): Result<(LoginRequest, seq<Requirement>)> {
    match NormalizePolicy(policy)
    case Err(e) => Err(e)
    case Ok(normalized) => Ok((LoginRequest(PolicyToWire(normalized), None), [Requirement("default", POLICY_KIND, normalized)]))
  }

  /** The wallet: the requirements it proves for a request, in order. */
  function WalletRequirements(request: LoginRequest, crypto: Crypto): Result<seq<Requirement>> {
    if request.requirements.Some? && !ValidWireRequirements(request.requirements.value) then Err(INVALID_REQUIREMENTS)
    else match PolicyFromWire(request.policy)
      case Err(e) => Err(e)
      case Ok(policy) =>
        if request.requirements.None? then Traverse(r => WalletRequirement(r, crypto), [PolicyRequirement("default", policy)])
        else match Traverse(RequirementFromWire, request.requirements.value)
          case Err(e) => Err(e)
          case Ok(rs) => Traverse(r => WalletRequirement(r, crypto), rs)
  }

  // ----- agreement -----

  /** The wallet holds credentials that can meet the policy. */
  predicate Supported(policy: Policy) {
    policy.credentialType == PASSPORT || (policy.credentialType == INSTAGRAM && HasHandleConstraint(policy))
  }

  predicate AcceptableRequirement(r: LoginRequirement) {
    ValidId(r.id) && match r
                     case PolicyRequirement(_, policy) => Wirable(policy) && Supported(policy)
                     case HandleRequirement(_, handle) => ValidHandle(handle)
  }

  /** Requirements that the wallet takes up. */
  predicate Acceptable(rs: seq<LoginRequirement>) {
    && 1 <= |rs| <= 4 && (forall i :: 0 <= i < |rs| ==> AcceptableRequirement(rs[i]))
    && forall i, j :: 0 <= i < j < |rs| ==> rs[i].id != rs[j].id
  }

  /** One requirement as the dApp checks it and as the wallet proves it. */
  predicate Matches(mine: Requirement, theirs: Requirement) {
    mine.id == theirs.id && mine.kind == theirs.kind && NormalizePolicy(theirs.policy) == Ok(mine.policy)
  }

  predicate Agree(mine: seq<Requirement>, theirs: seq<Requirement>) {
    |mine| == |theirs| && forall i :: 0 <= i < |mine| ==> Matches(mine[i], theirs[i])
  }

  /** Normalizing neither helps nor harms a policy on its way. */
  lemma NormalizedTravels(p: Policy)
    requires NormalizePolicy(p).Ok?
    ensures var n := NormalizePolicy(p).value; (Wirable(n) <==> Wirable(p)) && (Supported(n) <==> Supported(p))
  {
    NormalAt(p);
    hide Padded;
    var n := NormalizePolicy(p).value;
    PowPositive(10, MAX_DECIMAL_DIGITS);
    hide Pow;
    assert forall i :: 0 <= i < |p.constraints| ==> n.constraints[i] == p.constraints[i];
    assert forall i :: |p.constraints| <= i < |n.constraints| ==> n.constraints[i] == EMPTY;
    assert n.credentialType == p.credentialType;
    if Wirable(n) {
      forall i | 0 <= i < |p.constraints| ensures WirableConstraint(p.constraints[i]) { assert WirableConstraint(n.constraints[i]); }
    }
    assert HasHandleConstraint(n) <==> HasHandleConstraint(p);
  }

  /** One requirement through the wire, on both sides. */
  lemma RequirementAgrees(r: LoginRequirement, crypto: Crypto)
    requires RequirementToWire(r).Ok? && DappRequirement(r, crypto).Ok?
    ensures var w := RequirementToWire(r).value;
            && w.id == r.id
            && (ValidWireRequirement(w) ==> RequirementFromWire(w).Ok?)
            && (AcceptableRequirement(r) <==>
                  ValidWireRequirement(w) && WalletRequirement(RequirementFromWire(w).value, crypto).Ok?)
            && (AcceptableRequirement(r) ==>
                  Matches(DappRequirement(r, crypto).value, WalletRequirement(RequirementFromWire(w).value, crypto).value))
  {
    hide ValidId, ValidHandle, HasHandleConstraint, Padded, POLICY_KIND, HANDLE_KIND;
    match r {
      case PolicyRequirement(id, policy) =>
        NormalAt(policy);
        NormalizedTravels(policy);
        PolicyRoundTrip(NormalizePolicy(policy).value);
        hide Wirable, ValidWirePolicy, PolicyToWire;
        assert PolicyFromWire(PolicyToWire(NormalizePolicy(policy).value)).Ok? <==> ValidWirePolicy(PolicyToWire(NormalizePolicy(policy).value));
      case HandleRequirement(id, handle) =>
    }
  }

  lemma {:induction false} FirstIsOneOf(rs: seq<LoginRequirement>) returns (i: nat)
    requires FirstPolicy(rs).Some?
    ensures i < |rs| && rs[i].PolicyRequirement? && rs[i].policy == FirstPolicy(rs).value
    ensures forall k :: 0 <= k < i ==> !rs[k].PolicyRequirement?
  {
    if rs[0].PolicyRequirement? {
      i := 0;
    } else {
      var j := FirstIsOneOf(rs[1..]);
      i := j + 1;
      assert forall k :: 1 <= k < i ==> rs[k] == rs[1..][k - 1];
    }
  }

  lemma FirstPolicyTravels(rs: seq<LoginRequirement>)
    requires FirstPolicy(rs).Some? && NormalizePolicy(FirstPolicy(rs).value).Ok? && Acceptable(rs)
    ensures PolicyFromWire(PolicyToWire(NormalizePolicy(FirstPolicy(rs).value).value)) == NormalizePolicy(FirstPolicy(rs).value)
  {
    hide ValidId, ValidHandle, Wirable, PolicyToWire, PolicyFromWire, NormalizePolicy;
    var i := FirstIsOneOf(rs);
    assert AcceptableRequirement(rs[i]);
    NormalizedTravels(rs[i].policy);
    PolicyRoundTrip(NormalizePolicy(rs[i].policy).value);
  }

  /**
    The dApp and the wallet agree: the wallet takes a request up exactly when its requirements are
    acceptable, and then it proves, in order, the very requirements that the dApp checks.
   */
  lemma BothSidesAgree(rs: seq<LoginRequirement>, crypto: Crypto)
    requires LoginWithRequirements(rs, crypto).Ok?
    ensures var (request, mine) := LoginWithRequirements(rs, crypto).value;
            && (WalletRequirements(request, crypto).Ok? <==> Acceptable(rs))
            && (Acceptable(rs) ==> Agree(mine, WalletRequirements(request, crypto).value)
                                   && PolicyFromWire(request.policy) == NormalizePolicy(FirstPolicy(rs).value))
  {
    hide RequirementToWire, RequirementFromWire, DappRequirement, WalletRequirement, ValidWireRequirement, AcceptableRequirement,
         Matches, PolicyToWire, NormalizePolicy, INVALID_REQUIREMENTS, NO_POLICY;
    var f, g := (r: LoginRequirement) => DappRequirement(r, crypto), (r: LoginRequirement) => WalletRequirement(r, crypto);
    TraverseMaps(RequirementToWire, rs);
    TraverseMaps(f, rs);
    var (request, mine) := LoginWithRequirements(rs, crypto).value;
    var wire := request.requirements.value;
    forall i | 0 <= i < |rs|
      ensures wire[i].id == rs[i].id
      ensures ValidWireRequirement(wire[i]) ==> RequirementFromWire(wire[i]).Ok?
      ensures AcceptableRequirement(rs[i]) <==> ValidWireRequirement(wire[i]) && g(RequirementFromWire(wire[i]).value).Ok?
      ensures AcceptableRequirement(rs[i]) ==> Matches(mine[i], g(RequirementFromWire(wire[i]).value).value)
    {
      RequirementAgrees(rs[i], crypto);
    }
    if Acceptable(rs) { FirstPolicyTravels(rs); }
    assert Acceptable(rs) ==> ValidWireRequirements(wire);
    TraverseMaps(RequirementFromWire, wire);
    if ValidWireRequirements(wire) {
      var back := Traverse(RequirementFromWire, wire).value;
      TraverseMaps(g, back);
      assert forall i :: 0 <= i < |rs| ==> back[i] == RequirementFromWire(wire[i]).value;
      assert WalletRequirements(request, crypto).Ok? ==> WalletRequirements(request, crypto) == Traverse(g, back);
      assert forall i :: 0 <= i < |rs| ==> wire[i].id == rs[i].id;
      if Traverse(g, back).Ok? {
        forall i | 0 <= i < |rs| ensures AcceptableRequirement(rs[i]) { assert g(back[i]).Ok?; }
        assert Acceptable(rs);
      }
    }
  }

  /** What the dApp asks for, in its own terms: the policy it was given, or one for the handle. */
  ghost predicate AsksFor(r: LoginRequirement, mine: Requirement, crypto: Crypto) {
    && mine.id == r.id
    && match r
       case PolicyRequirement(_, policy) =>
         mine.kind == "policy" && mine.policy.credentialType == policy.credentialType && |mine.policy.constraints| == MAX_CONSTRAINTS
         && forall k :: 0 <= k < MAX_CONSTRAINTS ==> mine.policy.constraints[k] == ConstraintAt(policy, k)
       case HandleRequirement(_, handle) =>
         mine.kind == "instagram-handle" && WalletHandleHash(crypto.encode(handle), crypto.pedersen).Ok?
         && HandleMeets(mine.policy, WalletHandleHash(crypto.encode(handle), crypto.pedersen).value)
  }

  /** The dApp can write a requirement whose policy is within the limit, or whose handle fits. */
  predicate Writable(r: LoginRequirement, crypto: Crypto) {
    match r
    case PolicyRequirement(_, policy) => |policy.constraints| <= MAX_CONSTRAINTS
    case HandleRequirement(_, handle) => |crypto.encode(handle)| <= 31
  }

  lemma DappAsks(r: LoginRequirement, crypto: Crypto)
    ensures DappRequirement(r, crypto).Ok? <==> Writable(r, crypto)
    ensures Writable(r, crypto) ==> RequirementToWire(r).Ok? && AsksFor(r, DappRequirement(r, crypto).value, crypto)
  {
    match r
    case PolicyRequirement(_, policy) =>
      if |policy.constraints| <= MAX_CONSTRAINTS { NormalAt(policy); }
    case HandleRequirement(_, handle) =>
      HandlePolicyAsks(crypto.encode(handle), crypto.pedersen);
      hide DappHandlePolicy, WalletHandleHash;
      assert EMPTY.claimId != INSTAGRAM_HANDLE_HASH;
      if |crypto.encode(handle)| <= 31 {
        var policy := DappHandlePolicy(crypto.encode(handle), crypto.pedersen).value;
        assert policy.constraints[0].claimId == INSTAGRAM_HANDLE_HASH;
      }
  }

  lemma {:induction false} FirstPolicyIff(rs: seq<LoginRequirement>)
    ensures FirstPolicy(rs).Some? <==> exists i :: 0 <= i < |rs| && rs[i].PolicyRequirement?
  {
    if rs != [] {
      FirstPolicyIff(rs[1..]);
      assert forall i :: 1 <= i < |rs| ==> rs[i] == rs[1..][i - 1];
    }
  }

  /** A request can be written exactly when it has a policy and each requirement can; then the dApp checks what it was asked for, in order. */
  lemma RequestWritten(rs: seq<LoginRequirement>, crypto: Crypto)
    ensures LoginWithRequirements(rs, crypto).Ok? <==>
              (exists i :: 0 <= i < |rs| && rs[i].PolicyRequirement?) && forall i :: 0 <= i < |rs| ==> Writable(rs[i], crypto)
    ensures LoginWithRequirements(rs, crypto).Ok? ==>
              var mine := LoginWithRequirements(rs, crypto).value.1;
              |mine| == |rs| && forall i :: 0 <= i < |rs| ==> AsksFor(rs[i], mine[i], crypto)
  {
    FirstPolicyIff(rs);
    var f := (r: LoginRequirement) => DappRequirement(r, crypto);
    TraverseMaps(RequirementToWire, rs);
    TraverseMaps(f, rs);
    forall i | 0 <= i < |rs|
      ensures f(rs[i]).Ok? <==> Writable(rs[i], crypto)
      ensures Writable(rs[i], crypto) ==> RequirementToWire(rs[i]).Ok? && AsksFor(rs[i], f(rs[i]).value, crypto)
    {
      DappAsks(rs[i], crypto);
    }
    if FirstPolicy(rs).Some? {
      var i := FirstIsOneOf(rs);
      if Writable(rs[i], crypto) { NormalAt(rs[i].policy); }
    }
    hide RequirementToWire, DappRequirement, AsksFor, NormalizePolicy;
  }

  /** The same for a login with one policy. */
  lemma SinglePolicyAgrees(policy: Policy, crypto: Crypto)
    requires Login(policy).Ok?
    ensures var (request, mine) := Login(policy).value;
            && (WalletRequirements(request, crypto).Ok? <==> Wirable(policy) && Supported(policy))
            && (Wirable(policy) && Supported(policy) ==> Agree(mine, WalletRequirements(request, crypto).value))
  {
    NormalAt(policy);
    NormalizedTravels(policy);
    PolicyRoundTrip(NormalizePolicy(policy).value);
    hide Wirable, PolicyToWire, PolicyFromWire, Padded, HasHandleConstraint;
    var g := (r: LoginRequirement) => WalletRequirement(r, crypto);
    TraverseMaps(g, [PolicyRequirement("default", NormalizePolicy(policy).value)]);
  }

  /** What agrees is authorized by the same fields, whatever the session. */
  lemma AgreementAuthorizes(mine: Requirement, theirs: Requirement, x: SessionInput)
    requires Matches(mine, theirs)
    ensures SessionAuthorizationFields(x.(policy := mine.policy)) == SessionAuthorizationFields(x.(policy := theirs.policy))
  {
    hide Padded, HexField, Flat;
    NormalAt(theirs.policy);
  }
}
