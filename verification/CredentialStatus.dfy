/**
  The status of a credential on chain. Three readers look up nullifiers at one pinned block; the first
  kill switch that matches, in a fixed priority, gives the reason.
 */
module CredentialStatus {
  import opened Wrappers
  import opened Ledger

  const REVOCATION := 0x4d415247
  const ROOT_OWNER_REVOCATION := 0x4d415257
  const LINKED_STATUS_SECRET := 0x4d414c53
  const ROOT_REVOCATION := 0x4d41524f
  const ROOT_AUTHORITY_REVOCATION := 0x4d415241

  const MISMATCH := "The notes do not match the selected rooted credential."
  const UNAVAILABLE := "The Aztec block was unavailable during credential status validation."

  const INSTAGRAM := Value(3)

  datatype Status = Active | Inactive | Expired

  datatype Reason =
    | RootLineageRevokedOrRecovered
    | RootOwnerRevoked
    | RootAuthoritySuperseded
    | RootVersionMismatch
    | LinkedCredentialRevoked
    | CredentialRevoked
    | CredentialExpired
    | RootAuthorityExpired
    | ChainValid

  datatype Reading = Reading(status: Status, reason: Reason, checkedAtBlock: nat, checkedAtTimestamp: nat)

  datatype RootStatusNote = RootStatusNote(rootCommitment: Field, revocationSecret: Field)

  datatype AuthorityNote = AuthorityNote(
    rootCommitment: Field, claimsHash: Field, revocationSecret: Field, authorityExpiry: nat)

  /** A status or credential note; only a linked one has a root. */
  datatype StatusNote = StatusNote(
    rootCommitment: Option<Field>, claimsHash: Field, credentialType: Field, revocationSecret: Field)

  datatype CredentialNote = CredentialNote(
    rootCommitment: Option<Field>, claimsHash: Field, credentialType: Field, expiry: nat)

  datatype RootedHints = RootedHints(
    rootCommitment: Field, claimsHash: Field, rootStatus: RootStatusNote, authority: AuthorityNote,
    status: StatusNote, credential: CredentialNote)

  datatype InstagramHints = InstagramHints(
    claimsHash: Field, status: StatusNote, credential: CredentialNote, root: Option<RootStatusHint>)

  datatype RootStatusHint = RootStatusHint(rootCommitment: Field, rootStatus: RootStatusNote)

  function RevocationNullifier(issuer: Field, secret: Field, credentialType: Field, claims: Field): Field {
    Siloed(issuer, Poseidon(REVOCATION, [secret, credentialType, claims]))
  }

  function RootNullifier(issuer: Field, secret: Field, root: Field): Field {
    Siloed(issuer, Poseidon(ROOT_REVOCATION, [secret, root]))
  }

  function RootOwnerNullifier(issuer: Field, secret: Field, root: Field): Field {
    Siloed(issuer, Poseidon(ROOT_OWNER_REVOCATION, [secret, root]))
  }

  function AuthorityNullifier(issuer: Field, secret: Field, root: Field, claims: Field): Field {
    Siloed(issuer, Poseidon(ROOT_AUTHORITY_REVOCATION, [secret, root, claims]))
  }

  function LinkedInstagramStatusSecret(rootSecret: Field, claims: Field): Field {
    Poseidon(LINKED_STATUS_SECRET, [rootSecret, INSTAGRAM, claims])
  }

  /** The notes belong to the selected credential and to each other; otherwise the reader throws. */
  predicate RootedConsistent(h: RootedHints) {
    && h.rootStatus.rootCommitment == h.authority.rootCommitment == h.rootCommitment
    && h.authority.claimsHash == h.status.claimsHash == h.credential.claimsHash == h.claimsHash
    && h.status.rootCommitment == h.credential.rootCommitment == Some(h.rootCommitment)
    && h.credential.credentialType == h.status.credentialType
  }

  predicate InstagramConsistent(h: InstagramHints) {
    && h.credential.claimsHash == h.status.claimsHash == h.claimsHash
    && h.credential.credentialType == h.status.credentialType == INSTAGRAM
    && match h.root
       case Some(r) => r.rootStatus.rootCommitment == r.rootCommitment
                       && h.credential.rootCommitment == h.status.rootCommitment == Some(r.rootCommitment)
       case None => h.credential.rootCommitment.None? && h.status.rootCommitment.None?
  }

  // ----- the status at a chain, whoever reads it -----

  function StatusOf(reason: Reason): Status {
    match reason
    case ChainValid => Active
    case CredentialExpired => Expired
    case RootAuthorityExpired => Expired
    case _ => Inactive
  }

  function ReadingAt(chain: Chain, reason: Reason): Reading
    requires chain != []
  {
    Reading(StatusOf(reason), reason, |chain|, Tip(chain))
  }

  function RootReason(issuer: Field, note: RootStatusNote, chain: Chain): Reason {
    var spent := Nullifiers(chain);
    if RootNullifier(issuer, note.revocationSecret, note.rootCommitment) in spent then RootLineageRevokedOrRecovered
    else if RootOwnerNullifier(issuer, note.revocationSecret, note.rootCommitment) in spent then RootOwnerRevoked
    else ChainValid
  }

  function RootedReason(issuer: Field, h: RootedHints, chain: Chain): Reason
    requires chain != []
  {
    var spent := Nullifiers(chain);
    var root := RootReason(issuer, h.rootStatus, chain);
    if root != ChainValid then root
    else if AuthorityNullifier(issuer, h.authority.revocationSecret, h.rootCommitment, h.claimsHash) in spent then RootAuthoritySuperseded
    else if RevocationNullifier(issuer, h.status.revocationSecret, h.status.credentialType, h.claimsHash) in spent then LinkedCredentialRevoked
    else if h.credential.expiry <= Tip(chain) then CredentialExpired
    else if h.authority.authorityExpiry <= Tip(chain) then RootAuthorityExpired
    else ChainValid
  }

  function InstagramReason(issuer: Field, h: InstagramHints, chain: Chain): Reason
    requires chain != []
  {
    var spent := Nullifiers(chain);
    var root := if h.root.Some? then RootReason(issuer, h.root.value.rootStatus, chain) else ChainValid;
    if root != ChainValid then root
    else if h.root.Some? && LinkedInstagramStatusSecret(h.root.value.rootStatus.revocationSecret, h.claimsHash) != h.status.revocationSecret
    then RootVersionMismatch
    else if RevocationNullifier(issuer, h.status.revocationSecret, INSTAGRAM, h.claimsHash) in spent
    then if h.root.Some? then LinkedCredentialRevoked else CredentialRevoked
    else if h.credential.expiry <= Tip(chain) then CredentialExpired
    else ChainValid
  }

  // ----- what the kill switches are -----

  /** Two kill switches are one nullifier only if they are of one kind, issuer and secret, and of one credential or root. */
  lemma KillSwitchesDiffer(issuer: Field, secret: Field, other: Field, secret': Field, kind: Field, kind': Field,
                           root: Field, root': Field, claims: Field, claims': Field)
    ensures RevocationNullifier(issuer, secret, kind, claims) == RevocationNullifier(other, secret', kind', claims') <==>
              issuer == other && secret == secret' && kind == kind' && claims == claims'
    ensures RootNullifier(issuer, secret, root) == RootNullifier(other, secret', root') <==>
              issuer == other && secret == secret' && root == root'
    ensures RootOwnerNullifier(issuer, secret, root) == RootOwnerNullifier(other, secret', root') <==>
              issuer == other && secret == secret' && root == root'
    ensures AuthorityNullifier(issuer, secret, root, claims) == AuthorityNullifier(other, secret', root', claims') <==>
              issuer == other && secret == secret' && root == root' && claims == claims'
    ensures RootNullifier(issuer, secret, root) !in {RootOwnerNullifier(other, secret', root'), RevocationNullifier(other, secret', kind', claims'),
                                                     AuthorityNullifier(other, secret', root', claims')}
    ensures RootOwnerNullifier(issuer, secret, root) !in {RevocationNullifier(other, secret', kind', claims'),
                                                          AuthorityNullifier(other, secret', root', claims')}
    ensures RevocationNullifier(issuer, secret, kind, claims) != AuthorityNullifier(other, secret', root', claims')
  {
    var a, b := [secret, kind, claims], [secret', kind', claims'];
    assert a == b ==> a[0] == b[0] && a[1] == b[1] && a[2] == b[2];
    var c, d := [secret, root], [secret', root'];
    assert c == d ==> c[0] == d[0] && c[1] == d[1];
    var e, f := [secret, root, claims], [secret', root', claims'];
    assert e == f ==> e[0] == f[0] && e[1] == f[1] && e[2] == f[2];
  }

  /** The notes that a rooted credential is issued with are accepted, and no other combination of notes. */
  lemma RootedNotesIff(h: RootedHints)
    ensures RootedConsistent(h) <==>
              h == RootedHints(h.rootCommitment, h.claimsHash,
                               RootStatusNote(h.rootCommitment, h.rootStatus.revocationSecret),
                               AuthorityNote(h.rootCommitment, h.claimsHash, h.authority.revocationSecret, h.authority.authorityExpiry),
                               StatusNote(Some(h.rootCommitment), h.claimsHash, h.credential.credentialType, h.status.revocationSecret),
                               CredentialNote(Some(h.rootCommitment), h.claimsHash, h.credential.credentialType, h.credential.expiry))
  {
  }

  lemma InstagramNotesIff(h: InstagramHints)
    ensures InstagramConsistent(h) <==>
              var root := if h.root.Some? then Some(h.root.value.rootCommitment) else None;
              h == InstagramHints(h.claimsHash, StatusNote(root, h.claimsHash, INSTAGRAM, h.status.revocationSecret),
                                  CredentialNote(root, h.claimsHash, INSTAGRAM, h.credential.expiry),
                                  if root.None? then None
                                  else Some(RootStatusHint(root.value, RootStatusNote(root.value, h.root.value.rootStatus.revocationSecret))))
  {
  }

  // ----- what a status means -----

  predicate RootLives(issuer: Field, note: RootStatusNote, chain: Chain) {
    && RootNullifier(issuer, note.revocationSecret, note.rootCommitment) !in Nullifiers(chain)
    && RootOwnerNullifier(issuer, note.revocationSecret, note.rootCommitment) !in Nullifiers(chain)
  }

  /** A root is active exactly while neither of its nullifiers is spent, and otherwise inactive. */
  lemma RootActiveIff(issuer: Field, note: RootStatusNote, chain: Chain)
    ensures StatusOf(RootReason(issuer, note, chain)) == if RootLives(issuer, note, chain) then Active else Inactive
  {
    hide Nullifiers, RootNullifier, RootOwnerNullifier;
  }

  /** No kill switch of a rooted credential is spent: its root's two, its authority's and its own. */
  predicate RootedUnspent(issuer: Field, h: RootedHints, chain: Chain) {
    && RootLives(issuer, h.rootStatus, chain)
    && AuthorityNullifier(issuer, h.authority.revocationSecret, h.rootCommitment, h.claimsHash) !in Nullifiers(chain)
    && RevocationNullifier(issuer, h.status.revocationSecret, h.status.credentialType, h.claimsHash) !in Nullifiers(chain)
  }

  /** Unspent and before both deadlines is active, unspent and past one is expired, and spent is inactive. */
  lemma RootedActiveIff(issuer: Field, h: RootedHints, chain: Chain)
    requires chain != []
    ensures StatusOf(RootedReason(issuer, h, chain))
            == if !RootedUnspent(issuer, h, chain) then Inactive
               else if Tip(chain) < h.credential.expiry && Tip(chain) < h.authority.authorityExpiry then Active else Expired
  {
    hide Nullifiers, RootNullifier, RootOwnerNullifier, AuthorityNullifier, RevocationNullifier;
  }

  /** No kill switch of an Instagram credential is spent: its own, and for a linked one its root's, whose secret its own must come from. */
  predicate InstagramUnspent(issuer: Field, h: InstagramHints, chain: Chain) {
    && RevocationNullifier(issuer, h.status.revocationSecret, INSTAGRAM, h.claimsHash) !in Nullifiers(chain)
    && (h.root.Some? ==> RootLives(issuer, h.root.value.rootStatus, chain)
                         && h.status.revocationSecret == LinkedInstagramStatusSecret(h.root.value.rootStatus.revocationSecret, h.claimsHash))
  }

  lemma InstagramActiveIff(issuer: Field, h: InstagramHints, chain: Chain)
    requires chain != []
    ensures StatusOf(InstagramReason(issuer, h, chain))
            == if !InstagramUnspent(issuer, h, chain) then Inactive
               else if Tip(chain) < h.credential.expiry then Active else Expired
  {
    hide Nullifiers, RootNullifier, RootOwnerNullifier, RevocationNullifier, LinkedInstagramStatusSecret;
  }

  /** Which kill switch a reason blames, for a rooted credential: one that is spent. */
  lemma RootedReasonIsTrue(issuer: Field, h: RootedHints, chain: Chain)
    requires chain != [] && RootedConsistent(h)
    ensures var spent := Nullifiers(chain);
            match RootedReason(issuer, h, chain)
            case RootLineageRevokedOrRecovered => RootNullifier(issuer, h.rootStatus.revocationSecret, h.rootCommitment) in spent
            case RootOwnerRevoked => RootOwnerNullifier(issuer, h.rootStatus.revocationSecret, h.rootCommitment) in spent
            case RootAuthoritySuperseded => AuthorityNullifier(issuer, h.authority.revocationSecret, h.rootCommitment, h.claimsHash) in spent
            case LinkedCredentialRevoked => RevocationNullifier(issuer, h.status.revocationSecret, h.status.credentialType, h.claimsHash) in spent
            case CredentialExpired => h.credential.expiry <= Tip(chain)
            case RootAuthorityExpired => h.authority.authorityExpiry <= Tip(chain) < h.credential.expiry
            case ChainValid => RootedUnspent(issuer, h, chain)
            case _ => false
  {
    hide Nullifiers, RootNullifier, RootOwnerNullifier, AuthorityNullifier, RevocationNullifier;
  }

  lemma InstagramReasonIsTrue(issuer: Field, h: InstagramHints, chain: Chain)
    requires chain != []
    ensures var spent := Nullifiers(chain);
            match InstagramReason(issuer, h, chain)
            case RootLineageRevokedOrRecovered => h.root.Some? && !RootLives(issuer, h.root.value.rootStatus, chain)
            case RootOwnerRevoked => h.root.Some? && !RootLives(issuer, h.root.value.rootStatus, chain)
            case RootVersionMismatch =>
              h.root.Some? && h.status.revocationSecret != LinkedInstagramStatusSecret(h.root.value.rootStatus.revocationSecret, h.claimsHash)
            case LinkedCredentialRevoked => h.root.Some? && RevocationNullifier(issuer, h.status.revocationSecret, INSTAGRAM, h.claimsHash) in spent
            case CredentialRevoked => h.root.None? && RevocationNullifier(issuer, h.status.revocationSecret, INSTAGRAM, h.claimsHash) in spent
            case CredentialExpired => h.credential.expiry <= Tip(chain)
            case ChainValid => InstagramUnspent(issuer, h, chain)
            case _ => false
  {
    hide Nullifiers, RootNullifier, RootOwnerNullifier, RevocationNullifier, LinkedInstagramStatusSecret;
  }

  // ----- the readers -----

  /**
    Snapshot coherence: whatever others append between its reads, a reader returns exactly the status of
    the chain up to the block it names, a block that existed while it ran.
   */
  ghost predicate Coherent(reading: Reading, reason: Reason, before: Chain, after: Chain) {
    && |before| <= reading.checkedAtBlock <= |after| && reading.checkedAtBlock > 0
    && reading == ReadingAt(after[..reading.checkedAtBlock], reason)
  }

  /** The reason, by what the four lookups and the two deadlines say. */
  lemma RootedCases(issuer: Field, h: RootedHints, chain: Chain)
    requires chain != [] && RootedConsistent(h)
    ensures var spent, reason := Nullifiers(chain), RootedReason(issuer, h, chain);
            var recovered := RootNullifier(issuer, h.rootStatus.revocationSecret, h.rootCommitment) in spent;
            var owner := RootOwnerNullifier(issuer, h.rootStatus.revocationSecret, h.rootCommitment) in spent;
            var superseded := AuthorityNullifier(issuer, h.authority.revocationSecret, h.rootCommitment, h.claimsHash) in spent;
            var revoked := RevocationNullifier(issuer, h.status.revocationSecret, h.status.credentialType, h.claimsHash) in spent;
            reason == if recovered then RootLineageRevokedOrRecovered
                      else if owner then RootOwnerRevoked
                      else if superseded then RootAuthoritySuperseded
                      else if revoked then LinkedCredentialRevoked
                      else if h.credential.expiry <= Tip(chain) then CredentialExpired
                      else if h.authority.authorityExpiry <= Tip(chain) then RootAuthorityExpired
                      else ChainValid
  {
    hide Nullifiers, RevocationNullifier, RootNullifier, RootOwnerNullifier, AuthorityNullifier;
  }

  lemma PinnedReading(reading: Reading, reason: Reason, before: Chain, after: Chain)
    requires 0 < reading.checkedAtBlock <= |after| && |before| <= reading.checkedAtBlock
    requires reading.reason == reason && reading.status == StatusOf(reason)
    requires reading.checkedAtTimestamp == after[reading.checkedAtBlock - 1].timestamp
    ensures Coherent(reading, reason, before, after)
  {
  }

  /** The block and the lookups that a reader pins to one block number, whatever is appended meanwhile. */
  method ReadAtOneBlock(node: Node, nullifiers: seq<Field>) returns (n: nat, block: Option<Block>, witnesses: seq<bool>)
    requires node.Valid()
    modifies node
    ensures Extends(node.chain, old(node.chain)) && |old(node.chain)| <= n <= |node.chain| && n > 0
    ensures (block.Some? ==> block.value == node.chain[n - 1]) && (node.keepsBlocks ==> block.Some?)
    ensures |witnesses| == |nullifiers|
    ensures forall k :: 0 <= k < |nullifiers| ==> (witnesses[k] <==> nullifiers[k] in Nullifiers(node.chain[..n]))
  {
    hide Nullifiers;
    n := node.GetBlockNumber();
    ghost var pinned := node.chain[..n];
    block := node.GetBlockData(n);
    assert block.Some? ==> block.value == pinned[n - 1];
    witnesses := [];
    for i := 0 to |nullifiers|
      invariant Extends(node.chain, old(node.chain)) && n <= |node.chain| && node.chain[..n] == pinned
      invariant |witnesses| == i && forall k :: 0 <= k < i ==> (witnesses[k] <==> nullifiers[k] in Nullifiers(pinned))
    {
      var member := node.HasNullifier(n, nullifiers[i]);
      witnesses := witnesses + [member];
    }
  }

  method ReadRooted(node: Node, issuer: Field, hints: RootedHints) returns (r: Result<Reading>)
    requires node.Valid()
    modifies node
    ensures Extends(node.chain, old(node.chain))
    ensures if node.keepsBlocks then r.Ok? <==> RootedConsistent(hints) else r.Ok? ==> RootedConsistent(hints)
    ensures r.Ok? ==> 0 < r.value.checkedAtBlock <= |node.chain|
    ensures r.Ok? ==> Coherent(r.value, RootedReason(issuer, hints, node.chain[..r.value.checkedAtBlock]), old(node.chain), node.chain)
  {
    if !RootedConsistent(hints) { return Err(MISMATCH); }
    var linked := RevocationNullifier(issuer, hints.status.revocationSecret, hints.status.credentialType, hints.claimsHash);
    var root := RootNullifier(issuer, hints.rootStatus.revocationSecret, hints.rootCommitment);
    var authority := AuthorityNullifier(issuer, hints.authority.revocationSecret, hints.rootCommitment, hints.claimsHash);
    var ownerRoot := RootOwnerNullifier(issuer, hints.rootStatus.revocationSecret, hints.rootCommitment);

    hide MISMATCH, UNAVAILABLE, Nullifiers, RevocationNullifier, RootNullifier, RootOwnerNullifier, AuthorityNullifier,
         LinkedInstagramStatusSecret, RootedReason, RootReason, Coherent, Orderly;
    var n, block, witnesses := ReadAtOneBlock(node, [linked, root, authority, ownerRoot]);
    if block.None? { return Err(UNAVAILABLE); }
    var timestamp := block.value.timestamp;
    var linkedWitness, rootWitness, authorityWitness, ownerRootWitness := witnesses[0], witnesses[1], witnesses[2], witnesses[3];

    ghost var pinned := node.chain[..n];
    RootedCases(issuer, hints, pinned);
    hide RootedConsistent;
    var status, reason := Active, ChainValid;
    if rootWitness { status, reason := Inactive, RootLineageRevokedOrRecovered; }
    else if ownerRootWitness { status, reason := Inactive, RootOwnerRevoked; }
    else if authorityWitness { status, reason := Inactive, RootAuthoritySuperseded; }
    else if linkedWitness { status, reason := Inactive, LinkedCredentialRevoked; }
    else if hints.credential.expiry <= timestamp { status, reason := Expired, CredentialExpired; }
    else if hints.authority.authorityExpiry <= timestamp { status, reason := Expired, RootAuthorityExpired; }
    PinnedReading(Reading(status, reason, n, timestamp), RootedReason(issuer, hints, pinned), old(node.chain), node.chain);
    r := Ok(Reading(status, reason, n, timestamp));
  }

  method ReadRootStatus(node: Node, issuer: Field, rootCommitment: Field, note: RootStatusNote) returns (r: Result<Reading>)
    requires node.Valid()
    modifies node
    ensures Extends(node.chain, old(node.chain))
    ensures if node.keepsBlocks then r.Ok? <==> note.rootCommitment == rootCommitment else r.Ok? ==> note.rootCommitment == rootCommitment
    ensures r.Ok? ==> 0 < r.value.checkedAtBlock <= |node.chain|
    ensures r.Ok? ==> Coherent(r.value, RootReason(issuer, note, node.chain[..r.value.checkedAtBlock]), old(node.chain), node.chain)
  {
    if note.rootCommitment != rootCommitment { return Err(MISMATCH); }
    hide MISMATCH, UNAVAILABLE, Nullifiers, RevocationNullifier, RootNullifier, RootOwnerNullifier, AuthorityNullifier, LinkedInstagramStatusSecret;
    var n, block, witnesses := ReadAtOneBlock(node, [
      RootNullifier(issuer, note.revocationSecret, rootCommitment), RootOwnerNullifier(issuer, note.revocationSecret, rootCommitment)]);
    if block.None? { return Err(UNAVAILABLE); }
    var recovery, owner := witnesses[0], witnesses[1];
    r := Ok(Reading(
      if recovery || owner then Inactive else Active,
      if recovery then RootLineageRevokedOrRecovered else if owner then RootOwnerRevoked else ChainValid,
      n, block.value.timestamp));
  }

  /** The nullifiers are collected in a list and looked up one by one, as are the root's for a linked credential. */
  method ReadInstagram(node: Node, issuer: Field, hints: InstagramHints) returns (r: Result<Reading>)
    requires node.Valid()
    modifies node
    ensures Extends(node.chain, old(node.chain))
    ensures if node.keepsBlocks then r.Ok? <==> InstagramConsistent(hints) else r.Ok? ==> InstagramConsistent(hints)
    ensures r.Ok? ==> 0 < r.value.checkedAtBlock <= |node.chain|
    ensures r.Ok? ==> Coherent(r.value, InstagramReason(issuer, hints, node.chain[..r.value.checkedAtBlock]), old(node.chain), node.chain)
  {
    if !InstagramConsistent(hints) { return Err(MISMATCH); }
    var secret := hints.status.revocationSecret;
    var nullifiers := [RevocationNullifier(issuer, secret, INSTAGRAM, hints.claimsHash)];
    var versionMismatch := false;
    if hints.root.Some? {
      var note := hints.root.value.rootStatus;
      versionMismatch := LinkedInstagramStatusSecret(note.revocationSecret, hints.claimsHash) != secret;
      nullifiers := nullifiers + [RootNullifier(issuer, note.revocationSecret, note.rootCommitment),
                                  RootOwnerNullifier(issuer, note.revocationSecret, note.rootCommitment)];
    }
    hide MISMATCH, UNAVAILABLE, Nullifiers, RevocationNullifier, RootNullifier, RootOwnerNullifier, AuthorityNullifier, LinkedInstagramStatusSecret;
    var n, block, witnesses := ReadAtOneBlock(node, nullifiers);
    if block.None? { return Err(UNAVAILABLE); }
    var timestamp := block.value.timestamp;
    var reason :=
      if |witnesses| > 1 && witnesses[1] then Some(RootLineageRevokedOrRecovered)
      else if |witnesses| > 2 && witnesses[2] then Some(RootOwnerRevoked)
      else if versionMismatch then Some(RootVersionMismatch)
      else if witnesses[0] then Some(if hints.root.Some? then LinkedCredentialRevoked else CredentialRevoked)
      else None;
    if reason.Some? { return Ok(Reading(Inactive, reason.value, n, timestamp)); }
    if hints.credential.expiry <= timestamp { return Ok(Reading(Expired, CredentialExpired, n, timestamp)); }
    r := Ok(Reading(Active, ChainValid, n, timestamp));
  }

  // ----- what holds over time -----

  /** Smaller is decided first. */
  function Priority(reason: Reason): nat {
    match reason
    case RootLineageRevokedOrRecovered => 0
    case RootOwnerRevoked => 1
    case RootAuthoritySuperseded => 2
    case RootVersionMismatch => 3
    case LinkedCredentialRevoked => 4
    case CredentialRevoked => 5
    case CredentialExpired => 6
    case RootAuthorityExpired => 7
    case ChainValid => 8
  }

  /** Inactive is for ever, and expired is never active again. */
  ghost predicate NoBetter(later: Reason, earlier: Reason) {
    && Priority(later) <= Priority(earlier)
    && (StatusOf(earlier).Inactive? ==> StatusOf(later).Inactive?)
    && (StatusOf(earlier).Expired? ==> !StatusOf(later).Active?)
  }

  /** For any growth of the chain, the reason of a reader only gives way to one of higher priority. */
  lemma RootNeverImproves(issuer: Field, note: RootStatusNote, earlier: Chain, later: Chain)
    requires Extends(later, earlier)
    ensures NoBetter(RootReason(issuer, note, later), RootReason(issuer, note, earlier))
  {
    ChainGrows(later, earlier);
    hide Nullifiers;
  }

  lemma RootedNeverImproves(issuer: Field, h: RootedHints, earlier: Chain, later: Chain)
    requires Extends(later, earlier)
    ensures NoBetter(RootedReason(issuer, h, later), RootedReason(issuer, h, earlier))
  {
    ChainGrows(later, earlier);
    RootNeverImproves(issuer, h.rootStatus, earlier, later);
    hide Nullifiers;
  }

  lemma InstagramNeverImproves(issuer: Field, h: InstagramHints, earlier: Chain, later: Chain)
    requires Extends(later, earlier)
    ensures NoBetter(InstagramReason(issuer, h, later), InstagramReason(issuer, h, earlier))
  {
    ChainGrows(later, earlier);
    if h.root.Some? { RootNeverImproves(issuer, h.root.value.rootStatus, earlier, later); }
    hide Nullifiers;
  }

  /** A credential's own revocation, and for a rooted one its authority's, is final: no extension of the chain revives it. */
  lemma RevocationIsFinal(issuer: Field, rooted: RootedHints, instagram: InstagramHints, earlier: Chain, later: Chain)
    requires Extends(later, earlier)
    ensures RevocationNullifier(issuer, rooted.status.revocationSecret, rooted.status.credentialType, rooted.claimsHash) in Nullifiers(earlier)
            || AuthorityNullifier(issuer, rooted.authority.revocationSecret, rooted.rootCommitment, rooted.claimsHash) in Nullifiers(earlier) ==>
              StatusOf(RootedReason(issuer, rooted, later)).Inactive?
    ensures RevocationNullifier(issuer, instagram.status.revocationSecret, INSTAGRAM, instagram.claimsHash) in Nullifiers(earlier) ==>
              StatusOf(InstagramReason(issuer, instagram, later)).Inactive?
  {
    ChainGrows(later, earlier);
    RootedActiveIff(issuer, rooted, later);
    InstagramActiveIff(issuer, instagram, later);
    hide Nullifiers, RootedReason, InstagramReason, RevocationNullifier, AuthorityNullifier;
  }

  // ----- what holds between credentials -----

  /** On one chain, both kinds of rooted credential report the root's own state when it is dead, and are active only if it is. */
  lemma ReadersAgreeOnTheRoot(issuer: Field, rooted: RootedHints, instagram: InstagramHints, chain: Chain)
    requires chain != [] && instagram.root.Some?
    ensures var root := RootReason(issuer, rooted.rootStatus, chain);
            if root != ChainValid then RootedReason(issuer, rooted, chain) == root
            else RootedReason(issuer, rooted, chain) !in {RootLineageRevokedOrRecovered, RootOwnerRevoked}
    ensures var root := RootReason(issuer, instagram.root.value.rootStatus, chain);
            if root != ChainValid then InstagramReason(issuer, instagram, chain) == root
            else InstagramReason(issuer, instagram, chain) !in {RootLineageRevokedOrRecovered, RootOwnerRevoked}
  {
    hide Nullifiers;
  }

  /** Lineage kill: once either nullifier of a root is on chain, no credential under that root secret is active again. */
  lemma LineageKill(issuer: Field, secret: Field, root: Field, earlier: Chain, later: Chain,
                    rooted: RootedHints, instagram: InstagramHints)
    requires Extends(later, earlier)
    requires RootNullifier(issuer, secret, root) in Nullifiers(earlier) || RootOwnerNullifier(issuer, secret, root) in Nullifiers(earlier)
    ensures rooted.rootStatus == RootStatusNote(root, secret) ==> StatusOf(RootedReason(issuer, rooted, later)).Inactive?
    ensures instagram.root.Some? && instagram.root.value.rootStatus == RootStatusNote(root, secret) ==>
              StatusOf(InstagramReason(issuer, instagram, later)).Inactive?
  {
    ChainGrows(later, earlier);
    hide Nullifiers;
  }

  /** A root or authority kill switch, of any issuer, secret, root and claims. */
  ghost predicate RootKillSwitch(f: Field) {
    f.Siloed? && f.inner.Poseidon?
    && f.inner.separator in {ROOT_REVOCATION, ROOT_OWNER_REVOCATION, ROOT_AUTHORITY_REVOCATION}
  }

  /** No root or authority kill switch changes the reading of an independent Instagram credential. */
  lemma IndependentOfRoots(issuer: Field, h: InstagramHints, chain: Chain, other: Chain)
    requires chain != [] && other != [] && h.root.None? && Tip(chain) == Tip(other)
    requires forall f :: f in Nullifiers(chain) && f !in Nullifiers(other) ==> RootKillSwitch(f)
    requires forall f :: f in Nullifiers(other) && f !in Nullifiers(chain) ==> RootKillSwitch(f)
    ensures InstagramReason(issuer, h, other) == InstagramReason(issuer, h, chain)
  {
    var f := RevocationNullifier(issuer, h.status.revocationSecret, INSTAGRAM, h.claimsHash);
    assert !RootKillSwitch(f);
    hide Nullifiers;
  }

  /** A linked status whose secret was derived from one root secret is never active against another. */
  lemma LinkedToOneRootSecret(issuer: Field, h: InstagramHints, rootSecret: Field, chain: Chain)
    requires chain != [] && h.root.Some? && h.status.revocationSecret == LinkedInstagramStatusSecret(rootSecret, h.claimsHash)
    requires h.root.value.rootStatus.revocationSecret != rootSecret
    ensures StatusOf(InstagramReason(issuer, h, chain)).Inactive?
  {
    var mine, theirs := [h.root.value.rootStatus.revocationSecret, INSTAGRAM, h.claimsHash], [rootSecret, INSTAGRAM, h.claimsHash];
    assert mine[0] != theirs[0];
    hide Nullifiers;
  }
}
