/**
  The wallet's local storage: cached credential references, and beside them the private witnesses that must
  outlive every rewrite of that cache.
 */
module Storage {
  import opened Wrappers
  import opened Numerals

  datatype Kind = Passport | Instagram

  datatype Mode = Independent | Rooted

  datatype PassportWitness = PassportWitness(
    minAgeProven: int, nationality: string, nationalityBlind: string, expiryTs: string, expiryBlind: string)

  /** The optional fields that a witness record carries along. */
  datatype Details = Details(
    issuanceKind: Option<string>, ghostOwner: Option<string>, ghostDerivationVersion: Option<string>,
    renewalTxHash: Option<string>, recoveryTxHash: Option<string>, normalizedClaims: Option<string>)

  datatype Handle = Handle(handle: string, hash: string, blind: string)

  datatype Ref = Ref(
    id: string, ownerAddress: string, kind: Kind, status: string, claimsHash: string, createdAt: string,
    issuanceTxHash: Option<string>, issuerAddress: Option<string>, mode: Option<Mode>,
    rootCommitment: Option<string>, details: Details, passportWitness: Option<PassportWitness>,
    instagramHandle: Option<string>, handleHash: Option<string>, handleBlind: Option<string>)

  datatype PassportRecord = PassportRecord(claimsHash: string, createdAt: string, details: Details, committed: PassportWitness)

  datatype InstagramRecord = InstagramRecord(
    claimsHash: string, createdAt: string, ghostOwner: Option<string>, ghostDerivationVersion: Option<string>, handle: Handle)

  // ----- keys -----

  predicate IsSpace(c: char) { c == ' ' || '\t' <= c <= '\r' }

  function Trimmed(s: string): string {
    if s == [] then []
    else if IsSpace(s[0]) then Trimmed(s[1..])
    else if IsSpace(s[|s| - 1]) then Trimmed(s[..|s| - 1])
    else s
  }

  function Lower(s: string): string {
    seq(|s|, i requires 0 <= i < |s| => if 'A' <= s[i] <= 'Z' then s[i] - 'A' + 'a' else s[i])
  }

  function NormalizeScope(value: Option<string>): string {
    if value.None? then "" else Lower(Trimmed(value.value))
  }

  function Text(value: Option<string>): string { if value.None? then "" else value.value }

  function ModeText(mode: Option<Mode>): string {
    match mode
    case None => ""
    case Some(Independent) => "passport"
    case Some(Rooted) => "rooted"
  }

  function KindText(kind: Kind): string { if kind.Passport? then "passport" else "instagram" }

  /** `parts.join(":")` */
  function Join(parts: seq<string>): string {
    if parts == [] then "" else if |parts| == 1 then parts[0] else parts[0] + ":" + Join(parts[1..])
  }

  lemma {:induction false} JoinInjective(a: seq<string>, b: seq<string>)
    requires |a| == |b| && Join(a) == Join(b) && forall i :: 0 <= i < |a| ==> ':' !in a[i] && ':' !in b[i]
    ensures a == b
  {
    if |a| > 1 {
      FirstPart(a[0], Join(a[1..]), b[0], Join(b[1..]));
      JoinInjective(a[1..], b[1..]);
      assert a == [a[0]] + a[1..] && b == [b[0]] + b[1..];
    }
  }

  function PassportParts(ref: Ref): seq<string> {
    [NormalizeScope(ref.issuerAddress), NormalizeScope(Some(ref.ownerAddress)), ModeText(ref.mode), Text(ref.rootCommitment), ref.claimsHash]
  }

  function PassportKey(ref: Ref): string { Join(PassportParts(ref)) }

  function InstagramParts(ref: Ref): seq<string> {
    [NormalizeScope(ref.issuerAddress), NormalizeScope(Some(ref.ownerAddress)), ref.claimsHash]
  }

  function InstagramKey(ref: Ref): string { Join(InstagramParts(ref)) }

  function CredentialParts(ref: Ref): seq<string> {
    [NormalizeScope(ref.issuerAddress), NormalizeScope(Some(ref.ownerAddress)), KindText(ref.kind),
     ModeText(ref.mode), ref.claimsHash, Text(ref.rootCommitment)]
  }

  function CredentialKey(ref: Ref): string { Join(CredentialParts(ref)) }

  predicate SameScope(ref: Ref, ownerAddress: string, issuerAddress: Option<string>) {
    && NormalizeScope(Some(ref.ownerAddress)) == NormalizeScope(Some(ownerAddress))
    && NormalizeScope(ref.issuerAddress) == NormalizeScope(issuerAddress)
  }

  /** No part of the key of a reference contains a colon. */
  predicate Colonless(ref: Ref) {
    ':' !in NormalizeScope(ref.issuerAddress) && ':' !in NormalizeScope(Some(ref.ownerAddress)) && ':' !in Text(ref.rootCommitment) && ':' !in ref.claimsHash
  }

  /** Two credentials share a passport witness exactly when issuer, owner, mode, root and claims agree. */
  lemma PassportKeyIff(p: Ref, q: Ref)
    requires Colonless(p) && Colonless(q)
    ensures PassportKey(p) == PassportKey(q) <==>
              && NormalizeScope(p.issuerAddress) == NormalizeScope(q.issuerAddress)
              && NormalizeScope(Some(p.ownerAddress)) == NormalizeScope(Some(q.ownerAddress))
              && p.mode == q.mode && Text(p.rootCommitment) == Text(q.rootCommitment) && p.claimsHash == q.claimsHash
  {
    hide NormalizeScope, Text, Join;
    ModeTexts(p.mode, q.mode);
    hide ModeText;
    var a, b := PassportParts(p), PassportParts(q);
    if PassportKey(p) == PassportKey(q) {
      JoinInjective(a, b);
      assert a[0] == b[0] && a[1] == b[1] && a[2] == b[2] && a[3] == b[3] && a[4] == b[4];
    }
  }

  /** An Instagram witness is shared across modes and roots, so that linking finds it again. */
  lemma InstagramKeyIff(p: Ref, q: Ref)
    requires Colonless(p) && Colonless(q)
    ensures InstagramKey(p) == InstagramKey(q) <==>
              && NormalizeScope(p.issuerAddress) == NormalizeScope(q.issuerAddress)
              && NormalizeScope(Some(p.ownerAddress)) == NormalizeScope(Some(q.ownerAddress)) && p.claimsHash == q.claimsHash
  {
    hide NormalizeScope, Join;
    var a, b := InstagramParts(p), InstagramParts(q);
    if InstagramKey(p) == InstagramKey(q) {
      JoinInjective(a, b);
      assert a[0] == b[0] && a[1] == b[1] && a[2] == b[2];
    }
  }

  /** Two references are of one cached credential exactly when scope, kind, mode, claims and root agree. */
  lemma CredentialKeyIff(p: Ref, q: Ref)
    requires Colonless(p) && Colonless(q)
    ensures CredentialKey(p) == CredentialKey(q) <==>
              && NormalizeScope(p.issuerAddress) == NormalizeScope(q.issuerAddress)
              && NormalizeScope(Some(p.ownerAddress)) == NormalizeScope(Some(q.ownerAddress))
              && p.kind == q.kind && p.mode == q.mode && p.claimsHash == q.claimsHash && Text(p.rootCommitment) == Text(q.rootCommitment)
  {
    hide NormalizeScope, Text, Join;
    ModeTexts(p.mode, q.mode);
    KindTexts(p.kind, q.kind);
    hide ModeText, KindText;
    var a, b := CredentialParts(p), CredentialParts(q);
    if CredentialKey(p) == CredentialKey(q) {
      JoinInjective(a, b);
      assert a[0] == b[0] && a[1] == b[1] && a[2] == b[2] && a[3] == b[3] && a[4] == b[4] && a[5] == b[5];
    }
  }

  lemma KindTexts(k: Kind, l: Kind)
    ensures ':' !in KindText(k) && ':' !in KindText(l) && (KindText(k) == KindText(l) ==> k == l)
  {
    assert KindText(Passport)[0] == 'p' && KindText(Instagram)[0] == 'i';
  }

  lemma ModeTexts(m: Option<Mode>, n: Option<Mode>)
    ensures ':' !in ModeText(m) && ':' !in ModeText(n) && (ModeText(m) == ModeText(n) ==> m == n)
  {
    assert ModeText(Some(Independent))[0] == 'p' && ModeText(Some(Rooted))[0] == 'r';
  }

  /** Scopes are compared up to surrounding space and letter case: a normal form is its own. */
  lemma NormalScopeIsNormal(value: Option<string>)
    ensures NormalizeScope(Some(NormalizeScope(value))) == NormalizeScope(value)
    ensures forall c :: c in NormalizeScope(value) ==> !('A' <= c <= 'Z')
  {
    if value.Some? {
      var trimmed := Trimmed(value.value);
      TrimmedEnds(value.value);
      var lower := Lower(trimmed);
      assert forall i :: 0 <= i < |lower| ==> !('A' <= lower[i] <= 'Z') && (IsSpace(lower[i]) <==> IsSpace(trimmed[i]));
      assert Trimmed(lower) == lower;
      assert Lower(lower) == lower;
    }
  }

  lemma {:induction false} TrimmedEnds(s: string)
    ensures var t := Trimmed(s); t == "" || (!IsSpace(t[0]) && !IsSpace(t[|t| - 1]))
  {
    if s != [] {
      if IsSpace(s[0]) { TrimmedEnds(s[1..]); } else if IsSpace(s[|s| - 1]) { TrimmedEnds(s[..|s| - 1]); }
    }
  }

  predicate AllSpaces(s: string) { forall i :: 0 <= i < |s| ==> IsSpace(s[i]) }

  lemma {:induction false} TrimsAround(before: string, text: string, after: string)
    requires AllSpaces(before) && AllSpaces(after)
    ensures Trimmed(before + text + after) == Trimmed(text)
    decreases |before| + |text| + |after|
  {
    var s := before + text + after;
    if before != "" {
      assert s[1..] == before[1..] + text + after;
      TrimsAround(before[1..], text, after);
    } else if text == "" {
      if after != "" {
        assert s[1..] == before + text + after[1..];
        TrimsAround(before, text, after[1..]);
      }
    } else if IsSpace(text[0]) {
      assert s[1..] == before + text[1..] + after;
      TrimsAround(before, text[1..], after);
    } else if after != "" {
      assert s[..|s| - 1] == before + text + after[..|after| - 1];
      TrimsAround(before, text, after[..|after| - 1]);
    } else {
      assert s == text;
    }
  }

  /** Space around a scope and the case of its letters do not matter, and a trimmed lower-case text is itself. */
  lemma ScopeIgnores(before: string, text: string, after: string)
    requires AllSpaces(before) && AllSpaces(after)
    ensures NormalizeScope(Some(before + text + after)) == NormalizeScope(Some(text)) == NormalizeScope(Some(Lower(text)))
    ensures Lower(text) == text && (text == "" || (!IsSpace(text[0]) && !IsSpace(text[|text| - 1]))) ==> NormalizeScope(Some(text)) == text
  {
    TrimsAround(before, text, after);
    LowerTrims(text);
    var trimmed := Trimmed(text);
    assert Lower(Lower(trimmed)) == Lower(trimmed);
  }

  lemma {:induction false} LowerTrims(s: string)
    ensures Trimmed(Lower(s)) == Lower(Trimmed(s))
  {
    if s != [] {
      var l := Lower(s);
      assert (IsSpace(l[0]) <==> IsSpace(s[0])) && (IsSpace(l[|s| - 1]) <==> IsSpace(s[|s| - 1]));
      if IsSpace(s[0]) {
        assert l[1..] == Lower(s[1..]);
        LowerTrims(s[1..]);
      } else if IsSpace(s[|s| - 1]) {
        assert l[..|s| - 1] == Lower(s[..|s| - 1]);
        LowerTrims(s[..|s| - 1]);
      }
    }
  }

  // ----- the stored state and its operations -----

  datatype Profile = Profile(address: string, publicKey: Option<string>)

  datatype Phase = Prepared | Submitted

  /** The record of a recovery under way. */
  datatype Pending = Pending(phase: Phase, target: Profile, recovered: Ref, recoveryTxHash: Option<string>)

  /** The credential references as written, the two witness sidecars, and the rest of the wallet's state. */
  datatype Store = Store(
    refs: seq<Ref>, passports: map<string, PassportRecord>, instagrams: map<string, InstagramRecord>,
    profile: Option<Profile>, recoveryTarget: Option<Profile>, pending: Option<Pending>)

  predicate Present(value: Option<string>) { value.Some? && value.value != "" }

  function SavePassportWitness(s: Store, ref: Ref): Store {
    if !ref.kind.Passport? || ref.passportWitness.None? then s
    else s.(passports := s.passports[PassportKey(ref) :=
      PassportRecord(ref.claimsHash, ref.createdAt, ref.details, ref.passportWitness.value)])
  }

  predicate HasHandle(ref: Ref) {
    ref.kind.Instagram? && Present(ref.instagramHandle) && Present(ref.handleHash) && Present(ref.handleBlind)
  }

  function HandleOf(ref: Ref): Handle
    requires HasHandle(ref)
  {
    Handle(ref.instagramHandle.value, ref.handleHash.value, ref.handleBlind.value)
  }

  function SaveInstagramWitness(s: Store, ref: Ref): Store {
    if !HasHandle(ref) then s
    else s.(instagrams := s.instagrams[InstagramKey(ref) :=
      InstagramRecord(ref.claimsHash, ref.createdAt, ref.details.ghostOwner, ref.details.ghostDerivationVersion, HandleOf(ref))])
  }

  function SaveWitness(s: Store, ref: Ref): Store { SaveInstagramWitness(SavePassportWitness(s, ref), ref) }

  function Or(first: Option<string>, second: Option<string>): Option<string> { if first.Some? then first else second }

  function HydratePassport(s: Store, ref: Ref): Ref {
    if !ref.kind.Passport? || ref.passportWitness.Some? || PassportKey(ref) !in s.passports then ref
    else
      var record := s.passports[PassportKey(ref)];
      var d, e := record.details, ref.details;
      ref.(createdAt := record.createdAt,
           details := Details(Or(Or(d.issuanceKind, e.issuanceKind), Some("a2")), Or(d.ghostOwner, e.ghostOwner),
                              Or(d.ghostDerivationVersion, e.ghostDerivationVersion), Or(d.renewalTxHash, e.renewalTxHash),
                              Or(d.recoveryTxHash, e.recoveryTxHash), Or(d.normalizedClaims, e.normalizedClaims)),
           passportWitness := Some(record.committed))
  }

  function HydrateInstagram(s: Store, ref: Ref): Ref {
    if !ref.kind.Instagram? || InstagramKey(ref) !in s.instagrams then ref
    else
      var record := s.instagrams[InstagramKey(ref)];
      ref.(createdAt := record.createdAt,
           details := ref.details.(ghostOwner := Or(record.ghostOwner, ref.details.ghostOwner),
                                   ghostDerivationVersion := Or(record.ghostDerivationVersion, ref.details.ghostDerivationVersion)),
           instagramHandle := Some(record.handle.handle), handleHash := Some(record.handle.hash), handleBlind := Some(record.handle.blind))
  }

  function Hydrate(s: Store, ref: Ref): Ref { HydrateInstagram(s, HydratePassport(s, ref)) }

  function LoadRefs(s: Store): seq<Ref> { HydrateAll(s, s.refs) }

  function HydrateAll(s: Store, refs: seq<Ref>): seq<Ref> {
    seq(|refs|, i requires 0 <= i < |refs| => Hydrate(s, refs[i]))
  }

  function SaveWitnesses(s: Store, refs: seq<Ref>): Store {
    if refs == [] then s else SaveWitness(SaveWitnesses(s, refs[..|refs| - 1]), refs[|refs| - 1])
  }

  function SaveRefs(s: Store, refs: seq<Ref>): Store { SaveWitnesses(s, refs).(refs := refs) }

  /** Entries of a Map in insertion order: setting a known key keeps its place. */
  function MapSet(entries: seq<(string, Ref)>, key: string, value: Ref): seq<(string, Ref)> {
    if entries == [] then [(key, value)]
    else if entries[0].0 == key then [(key, value)] + entries[1..]
    else [entries[0]] + MapSet(entries[1..], key, value)
  }

  function Canonical(s: Store, chainRefs: seq<Ref>): seq<(string, Ref)> {
    if chainRefs == [] then []
    else
      var last := chainRefs[|chainRefs| - 1];
      MapSet(Canonical(s, chainRefs[..|chainRefs| - 1]), CredentialKey(last), Hydrate(s, last))
  }

  function Outside(refs: seq<Ref>, ownerAddress: string, issuerAddress: Option<string>): seq<Ref> {
    if refs == [] then []
    else Outside(refs[..|refs| - 1], ownerAddress, issuerAddress)
         + if SameScope(refs[|refs| - 1], ownerAddress, issuerAddress) then [] else [refs[|refs| - 1]]
  }

  predicate AllInScope(refs: seq<Ref>, ownerAddress: string, issuerAddress: Option<string>) {
    forall i :: 0 <= i < |refs| ==> SameScope(refs[i], ownerAddress, issuerAddress)
  }

  function ReplaceFromChain(s: Store, ownerAddress: string, issuerAddress: Option<string>, chainRefs: seq<Ref>): Store {
    if AllInScope(chainRefs, ownerAddress, issuerAddress) then SaveRefs(s, Outside(LoadRefs(s), ownerAddress, issuerAddress)) else s
  }

  function Replaced(refs: seq<Ref>, ref: Ref): seq<Ref> {
    seq(|refs|, i requires 0 <= i < |refs| => if CredentialKey(refs[i]) == CredentialKey(ref) then ref else refs[i])
  }

  function Upserted(refs: seq<Ref>, ref: Ref): seq<Ref> {
    if exists i :: 0 <= i < |refs| && CredentialKey(refs[i]) == CredentialKey(ref) then Replaced(refs, ref) else [ref] + refs
  }

  function Upsert(s: Store, ref: Ref): Store { SaveRefs(s, Upserted(LoadRefs(s), ref)) }

  function Clear(s: Store): Store { s.(refs := [], profile := None, recoveryTarget := None, pending := None) }

  /** A record whose target has no public key does not load. */
  function LoadPending(s: Store): Option<Pending> {
    if s.pending.Some? && s.pending.value.target.publicKey.None? then None else s.pending
  }

  // ----- no witness is lost -----

  /** The text after the last colon. */
  function Suffix(s: string): string {
    if s == [] || s[|s| - 1] == ':' then [] else Suffix(s[..|s| - 1]) + [s[|s| - 1]]
  }

  lemma {:induction false} SuffixOf(prefix: string, text: string)
    requires ':' !in text
    ensures Suffix(prefix + ":" + text) == text
  {
    var s := prefix + ":" + text;
    if text != [] {
      SuffixOf(prefix, text[..|text| - 1]);
      assert s[..|s| - 1] == prefix + ":" + text[..|text| - 1];
    }
  }

  /** The claims hash determines the witness. */
  datatype Claims = Claims(passportOf: string -> PassportWitness, handleOf: string -> Handle)

  ghost predicate SoundRef(ref: Ref, claims: Claims) {
    && ':' !in ref.claimsHash
    && (ref.kind.Passport? && ref.passportWitness.Some? ==> ref.passportWitness.value == claims.passportOf(ref.claimsHash))
    && (HasHandle(ref) ==> HandleOf(ref) == claims.handleOf(ref.claimsHash))
  }

  ghost predicate Sound(s: Store, claims: Claims) {
    && (forall k :: k in s.passports ==> s.passports[k].committed == claims.passportOf(Suffix(k)))
    && (forall k :: k in s.instagrams ==> s.instagrams[k].handle == claims.handleOf(Suffix(k)))
    && forall i :: 0 <= i < |s.refs| ==> SoundRef(s.refs[i], claims)
  }

  ghost predicate SoundRefs(refs: seq<Ref>, claims: Claims) {
    forall i :: 0 <= i < |refs| ==> SoundRef(refs[i], claims)
  }

  /** Every saved witness is still there, unaltered. */
  ghost predicate Keeps(before: Store, after: Store) {
    && (forall k :: k in before.passports ==> k in after.passports && after.passports[k].committed == before.passports[k].committed)
    && (forall k :: k in before.instagrams ==> k in after.instagrams && after.instagrams[k].handle == before.instagrams[k].handle)
  }

  lemma JoinSuffix(parts: seq<string>)
    requires |parts| > 1 && ':' !in parts[|parts| - 1]
    ensures Suffix(Join(parts)) == parts[|parts| - 1]
  {
    var prefix := JoinEnds(parts);
    SuffixOf(prefix, parts[|parts| - 1]);
  }

  lemma {:induction false} JoinEnds(parts: seq<string>) returns (prefix: string)
    requires |parts| > 1
    ensures Join(parts) == prefix + ":" + parts[|parts| - 1]
  {
    if |parts| == 2 {
      prefix := parts[0];
    } else {
      var rest := JoinEnds(parts[1..]);
      prefix := parts[0] + ":" + rest;
      assert Join(parts) == parts[0] + ":" + Join(parts[1..]);
    }
  }

  lemma KeySuffixes(ref: Ref)
    requires ':' !in ref.claimsHash
    ensures Suffix(PassportKey(ref)) == ref.claimsHash == Suffix(InstagramKey(ref))
  {
    hide Suffix, Join, NormalizeScope, ModeText, Text;
    JoinSuffix(PassportParts(ref));
    JoinSuffix(InstagramParts(ref));
  }

  lemma SaveWitnessKeeps(s: Store, ref: Ref, claims: Claims)
    requires Sound(s, claims) && SoundRef(ref, claims)
    ensures Sound(SaveWitness(s, ref), claims) && Keeps(s, SaveWitness(s, ref))
  {
    KeySuffixes(ref);
    hide Suffix, PassportKey, InstagramKey;
  }

  lemma {:induction false} SaveWitnessesKeep(s: Store, refs: seq<Ref>, claims: Claims)
    requires Sound(s, claims) && SoundRefs(refs, claims)
    ensures Sound(SaveWitnesses(s, refs), claims) && Keeps(s, SaveWitnesses(s, refs))
    ensures SaveWitnesses(s, refs).refs == s.refs
  {
    hide SoundRef, SaveWitness, Sound;
    if refs != [] {
      SaveWitnessesKeep(s, refs[..|refs| - 1], claims);
      SaveWitnessKeeps(SaveWitnesses(s, refs[..|refs| - 1]), refs[|refs| - 1], claims);
      SameRefs(SaveWitnesses(s, refs[..|refs| - 1]), refs[|refs| - 1]);
    }
  }

  lemma SameRefs(s: Store, ref: Ref)
    ensures SaveWitness(s, ref) == s.(passports := SaveWitness(s, ref).passports, instagrams := SaveWitness(s, ref).instagrams)
  {
    hide PassportKey, InstagramKey;
  }

  lemma HydrateKeeps(s: Store, ref: Ref, claims: Claims)
    requires Sound(s, claims) && SoundRef(ref, claims)
    ensures SoundRef(Hydrate(s, ref), claims) && CredentialKey(Hydrate(s, ref)) == CredentialKey(ref)
  {
    KeySuffixes(ref);
    hide Suffix, PassportKey, InstagramKey;
  }

  lemma LoadKeeps(s: Store, claims: Claims)
    requires Sound(s, claims)
    ensures SoundRefs(LoadRefs(s), claims)
  {
    forall i | 0 <= i < |s.refs| ensures SoundRef(LoadRefs(s)[i], claims) { HydrateKeeps(s, s.refs[i], claims); }
  }

  lemma SaveRefsKeeps(s: Store, refs: seq<Ref>, claims: Claims)
    requires Sound(s, claims) && SoundRefs(refs, claims)
    ensures Sound(SaveRefs(s, refs), claims) && Keeps(s, SaveRefs(s, refs))
  {
    SaveWitnessesKeep(s, refs, claims);
    hide SoundRef, SaveWitnesses;
  }

  lemma {:induction false} OutsideKeeps(refs: seq<Ref>, ownerAddress: string, issuerAddress: Option<string>, claims: Claims)
    requires SoundRefs(refs, claims)
    ensures SoundRefs(Outside(refs, ownerAddress, issuerAddress), claims)
  {
    hide SoundRef, SameScope;
    if refs != [] { OutsideKeeps(refs[..|refs| - 1], ownerAddress, issuerAddress, claims); }
  }

  // ----- any sequence of operations -----

  datatype Op =
    | Save(ref: Ref)
    | SaveAll(refs: seq<Ref>)
    | Put(ref: Ref)
    | Replace(ownerAddress: string, issuerAddress: Option<string>, chainRefs: seq<Ref>)
    | Wipe
    | SetProfile(newProfile: Option<Profile>)
    | SetTarget(target: Option<Profile>)
    | SetPending(newPending: Option<Pending>)

  function Apply(s: Store, op: Op): Store {
    match op
    case Save(ref) => SaveWitness(s, ref)
    case SaveAll(refs) => SaveRefs(s, refs)
    case Put(ref) => Upsert(s, ref)
    case Replace(owner, issuer, chainRefs) => ReplaceFromChain(s, owner, issuer, chainRefs)
    case Wipe => Clear(s)
    case SetProfile(p) => s.(profile := p)
    case SetTarget(t) => s.(recoveryTarget := t)
    case SetPending(p) => s.(pending := p)
  }

  function RunOps(s: Store, ops: seq<Op>): Store
    decreases |ops|
  {
    if ops == [] then s else RunOps(Apply(s, ops[0]), ops[1..])
  }

  ghost predicate SoundOp(op: Op, claims: Claims) {
    match op
    case Save(ref) => SoundRef(ref, claims)
    case SaveAll(refs) => SoundRefs(refs, claims)
    case Put(ref) => SoundRef(ref, claims)
    case _ => true
  }

  lemma PutKeeps(s: Store, ref: Ref, claims: Claims)
    requires Sound(s, claims) && SoundRef(ref, claims)
    ensures Sound(Upsert(s, ref), claims) && Keeps(s, Upsert(s, ref))
  {
    LoadKeeps(s, claims);
    hide SoundRef, SaveRefs, LoadRefs, CredentialKey;
    assert SoundRefs(Upserted(LoadRefs(s), ref), claims);
    SaveRefsKeeps(s, Upserted(LoadRefs(s), ref), claims);
  }

  lemma ApplyKeeps(s: Store, op: Op, claims: Claims)
    requires Sound(s, claims) && SoundOp(op, claims)
    ensures Sound(Apply(s, op), claims) && Keeps(s, Apply(s, op))
  {
    match op
    case Save(ref) => SaveWitnessKeeps(s, ref, claims);
    case SaveAll(refs) => SaveRefsKeeps(s, refs, claims);
    case Put(ref) => PutKeeps(s, ref, claims);
    case Replace(owner, issuer, chainRefs) =>
      LoadKeeps(s, claims);
      OutsideKeeps(LoadRefs(s), owner, issuer, claims);
      SaveRefsKeeps(s, Outside(LoadRefs(s), owner, issuer), claims);
    case _ =>
  }

  /** Whatever happens to the cache, no saved witness is lost or altered. */
  lemma {:induction false} NothingLost(s: Store, ops: seq<Op>, claims: Claims)
    requires Sound(s, claims) && forall i :: 0 <= i < |ops| ==> SoundOp(ops[i], claims)
    ensures Sound(RunOps(s, ops), claims) && Keeps(s, RunOps(s, ops))
    decreases |ops|
  {
    hide Apply, SoundOp, Sound;
    if ops != [] {
      ApplyKeeps(s, ops[0], claims);
      NothingLost(Apply(s, ops[0]), ops[1..], claims);
    }
  }

  /** The reference as the chain tells it, without its private part. */
  function Public(ref: Ref): Ref {
    ref.(passportWitness := None, instagramHandle := None, handleHash := None, handleBlind := None)
  }

  /** A passport witness once saved comes back with the credential, after any operations. */
  lemma PassportWitnessReturns(s: Store, ref: Ref, ops: seq<Op>, claims: Claims)
    requires Sound(s, claims) && SoundRef(ref, claims) && forall i :: 0 <= i < |ops| ==> SoundOp(ops[i], claims)
    requires ref.kind.Passport? && ref.passportWitness.Some?
    ensures Hydrate(RunOps(SaveWitness(s, ref), ops), Public(ref)).passportWitness == ref.passportWitness
  {
    var saved := SaveWitness(s, ref);
    assert PassportKey(ref) in saved.passports && saved.passports[PassportKey(ref)].committed == ref.passportWitness.value;
    assert PassportKey(Public(ref)) == PassportKey(ref);
    SaveWitnessKeeps(s, ref, claims);
    NothingLost(saved, ops, claims);
    hide PassportKey, InstagramKey, RunOps, SaveWitness, Sound;
  }

  /** Hydration adds a private part, and the dates and hashes recorded with it, and changes nothing else. */
  lemma HydrationAddsOnly(s: Store, ref: Ref)
    ensures var h := Hydrate(s, ref);
            && h == ref.(createdAt := h.createdAt, details := h.details, passportWitness := h.passportWitness,
                         instagramHandle := h.instagramHandle, handleHash := h.handleHash, handleBlind := h.handleBlind)
            && (ref.passportWitness.Some? ==> h.passportWitness == ref.passportWitness)
            && (ref.details.recoveryTxHash.Some? ==> h.details.recoveryTxHash.Some?)
  {
    hide PassportKey, InstagramKey;
  }

  /** What was saved comes back whole: the reference, its dates, hashes and witness; a passport of no recorded kind is an a2. */
  lemma HydrationRestores(s: Store, ref: Ref)
    requires ref.passportWitness.Some? <==> ref.kind.Passport?
    requires if ref.kind.Instagram? then HasHandle(ref) else ref.instagramHandle == ref.handleHash == ref.handleBlind == None
    ensures Hydrate(SaveWitness(s, ref), Public(ref))
            == if ref.kind.Passport? then ref.(details := ref.details.(issuanceKind := Or(ref.details.issuanceKind, Some("a2")))) else ref
  {
    assert PassportKey(Public(ref)) == PassportKey(ref) && InstagramKey(Public(ref)) == InstagramKey(ref);
    hide PassportKey, InstagramKey;
  }

  /** Where the chain's reference and the saved one differ, what was saved wins, and what was not saved stays the chain's. */
  lemma HydrationPrefersSaved(s: Store, saved: Ref, ref: Ref)
    requires saved.kind.Passport? && ref.kind.Passport? && saved.passportWitness.Some? && ref.passportWitness.None?
    requires PassportKey(saved) == PassportKey(ref)
    ensures var h, d, e := Hydrate(SaveWitness(s, saved), ref), saved.details, ref.details;
            && h.createdAt == saved.createdAt && h.passportWitness == saved.passportWitness && h.details.issuanceKind.Some?
            && (d.issuanceKind.Some? ==> h.details.issuanceKind == d.issuanceKind)
            && h.details.ghostOwner == (if d.ghostOwner.Some? then d.ghostOwner else e.ghostOwner)
            && h.details.ghostDerivationVersion == (if d.ghostDerivationVersion.Some? then d.ghostDerivationVersion else e.ghostDerivationVersion)
            && h.details.renewalTxHash == (if d.renewalTxHash.Some? then d.renewalTxHash else e.renewalTxHash)
            && h.details.recoveryTxHash == (if d.recoveryTxHash.Some? then d.recoveryTxHash else e.recoveryTxHash)
            && h.details.normalizedClaims == (if d.normalizedClaims.Some? then d.normalizedClaims else e.normalizedClaims)
  {
    hide PassportKey, InstagramKey;
  }

  /** Only complete witnesses are saved: any other reference leaves the store as it was. */
  lemma OnlyCompleteSaved(s: Store, ref: Ref)
    requires ref.kind.Passport? ==> ref.passportWitness.None?
    requires ref.kind.Instagram? ==> var parts := {ref.instagramHandle, ref.handleHash, ref.handleBlind}; None in parts || Some("") in parts
    ensures SaveWitness(s, ref) == s
  {
  }

  /** Clearing forgets the wallet: what is left depends on the sidecars alone. */
  lemma ClearForgets(s: Store, t: Store)
    ensures Clear(s) == Clear(t) <==> s.passports == t.passports && s.instagrams == t.instagrams
    ensures LoadRefs(Clear(s)) == [] && LoadPending(Clear(s)).None?
  {
    hide Hydrate;
  }

  /** A saved recovery record loads back exactly when its target has a public key. */
  lemma PendingReturns(s: Store, p: Pending)
    ensures LoadPending(Apply(s, SetPending(Some(p)))) == if p.target.publicKey.Some? then Some(p) else None
    ensures LoadPending(Apply(s, SetPending(None))).None?
  {
  }

  /** Linking gives an independent Instagram reference a root. */
  function Linked(ref: Ref, root: string, id: string, txHash: Option<string>): Ref {
    ref.(mode := Some(Rooted), rootCommitment := Some(root), id := id, issuanceTxHash := Or(txHash, ref.issuanceTxHash))
  }

  /** An Instagram witness comes back too, also for the reference that linking makes of the credential. */
  lemma InstagramWitnessReturns(s: Store, ref: Ref, ops: seq<Op>, claims: Claims, root: string, id: string, txHash: Option<string>)
    requires Sound(s, claims) && SoundRef(ref, claims) && forall i :: 0 <= i < |ops| ==> SoundOp(ops[i], claims)
    requires HasHandle(ref)
    ensures var end := RunOps(SaveWitness(s, ref), ops);
            && HasHandle(Hydrate(end, Public(ref))) && HandleOf(Hydrate(end, Public(ref))) == HandleOf(ref)
            && HasHandle(Hydrate(end, Public(Linked(ref, root, id, txHash))))
            && HandleOf(Hydrate(end, Public(Linked(ref, root, id, txHash)))) == HandleOf(ref)
  {
    var saved := SaveWitness(s, ref);
    assert InstagramKey(ref) in saved.instagrams && saved.instagrams[InstagramKey(ref)].handle == HandleOf(ref);
    assert InstagramKey(Public(ref)) == InstagramKey(ref) == InstagramKey(Public(Linked(ref, root, id, txHash)));
    SaveWitnessKeeps(s, ref, claims);
    NothingLost(saved, ops, claims);
    hide PassportKey, InstagramKey, RunOps, SaveWitness, Sound;
  }

  // ----- replacing the references of one owner -----

  function Keys(entries: seq<(string, Ref)>): seq<string> {
    seq(|entries|, i requires 0 <= i < |entries| => entries[i].0)
  }

  /** Setting a key keeps the order of the keys, or appends it. */
  lemma {:induction false} MapSetKeys(entries: seq<(string, Ref)>, key: string, value: Ref)
    ensures Keys(MapSet(entries, key, value)) == if key in Keys(entries) then Keys(entries) else Keys(entries) + [key]
  {
    if entries == [] {
      assert Keys([(key, value)]) == [key];
    } else {
      var head, rest := entries[0], entries[1..];
      assert Keys(entries) == [head.0] + Keys(rest);
      if head.0 == key {
        assert Keys([(key, value)] + rest) == [key] + Keys(rest);
      } else {
        MapSetKeys(rest, key, value);
        assert Keys([head] + MapSet(rest, key, value)) == [head.0] + Keys(MapSet(rest, key, value));
      }
    }
  }

  /** Setting a key changes its entry alone. */
  lemma {:induction false} MapSetEntries(entries: seq<(string, Ref)>, key: string, value: Ref, e: (string, Ref))
    requires Distinct(Keys(entries))
    ensures e in MapSet(entries, key, value) <==> e == (key, value) || (e in entries && e.0 != key)
  {
    if entries != [] {
      var head, rest := entries[0], entries[1..];
      assert entries == [head] + rest;
      assert Keys(entries) == [head.0] + Keys(rest);
      assert Distinct(Keys(rest)) by {
        forall i, j | 0 <= i < j < |rest| ensures Keys(rest)[i] != Keys(rest)[j] {
          assert Keys(entries)[i + 1] != Keys(entries)[j + 1];
        }
      }
      forall i | 0 <= i < |rest| ensures rest[i].0 != head.0 { assert Keys(entries)[0] != Keys(entries)[i + 1]; }
      if head.0 != key { MapSetEntries(rest, key, value, e); }
    }
  }

  ghost predicate Distinct(keys: seq<string>) {
    forall i, j :: 0 <= i < j < |keys| ==> keys[i] != keys[j]
  }

  /** The last reference with this key. */
  function LastUnder(refs: seq<Ref>, key: string): Option<Ref> {
    if refs == [] then None
    else if CredentialKey(refs[|refs| - 1]) == key then Some(refs[|refs| - 1])
    else LastUnder(refs[..|refs| - 1], key)
  }

  lemma {:induction false} LastUnderMeans(refs: seq<Ref>, key: string)
    ensures match LastUnder(refs, key)
            case Some(r) => exists i :: 0 <= i < |refs| && refs[i] == r && CredentialKey(refs[i]) == key
                                        && forall j :: i < j < |refs| ==> CredentialKey(refs[j]) != key
            case None => forall i :: 0 <= i < |refs| ==> CredentialKey(refs[i]) != key
  {
    hide CredentialKey;
    if refs != [] {
      var n := |refs| - 1;
      if CredentialKey(refs[n]) == key { assert refs[n] == LastUnder(refs, key).value; } else { LastUnderMeans(refs[..n], key); }
    }
  }

  /** One entry per key of the chain: the last reference under it, hydrated. */
  lemma {:induction false} CanonicalEntries(s: Store, chainRefs: seq<Ref>)
    ensures Distinct(Keys(Canonical(s, chainRefs)))
    ensures forall e :: e in Canonical(s, chainRefs) <==>
              LastUnder(chainRefs, e.0).Some? && e.1 == Hydrate(s, LastUnder(chainRefs, e.0).value)
  {
    hide CredentialKey, Hydrate, Keys, MapSet;
    if chainRefs != [] {
      var n := |chainRefs| - 1;
      var before := Canonical(s, chainRefs[..n]);
      CanonicalEntries(s, chainRefs[..n]);
      var key, value := CredentialKey(chainRefs[n]), Hydrate(s, chainRefs[n]);
      MapSetKeys(before, key, value);
      forall e ensures e in Canonical(s, chainRefs) <==> LastUnder(chainRefs, e.0).Some? && e.1 == Hydrate(s, LastUnder(chainRefs, e.0).value) {
        MapSetEntries(before, key, value, e);
      }
    } else {
      NoKeys();
    }
  }

  lemma NoKeys()
    ensures Keys([]) == []
  {
  }

  function Scoped(s: Store, chainRefs: seq<Ref>): seq<Ref> {
    var entries := Canonical(s, chainRefs);
    seq(|entries|, i requires 0 <= i < |entries| => entries[i].1)
  }

  lemma HydrateKeepsKey(s: Store, ref: Ref)
    ensures CredentialKey(Hydrate(s, ref)) == CredentialKey(ref)
  {
    hide PassportKey, InstagramKey;
  }

  /**
    What a replacement returns: exactly the keys of the chain, each once, and under each the last chain
    reference of that key with its private witness.
   */
  lemma ReplacementIsTheChain(s: Store, chainRefs: seq<Ref>)
    ensures forall i, j :: 0 <= i < j < |Scoped(s, chainRefs)| ==> CredentialKey(Scoped(s, chainRefs)[i]) != CredentialKey(Scoped(s, chainRefs)[j])
    ensures forall r :: r in Scoped(s, chainRefs) ==>
              LastUnder(chainRefs, CredentialKey(r)).Some? && r == Hydrate(s, LastUnder(chainRefs, CredentialKey(r)).value)
    ensures forall c :: c in chainRefs ==> exists r :: r in Scoped(s, chainRefs) && CredentialKey(r) == CredentialKey(c)
  {
    hide CredentialKey, Hydrate, LastUnder, Canonical;
    var entries, result := Canonical(s, chainRefs), Scoped(s, chainRefs);
    CanonicalEntries(s, chainRefs);
    forall i | 0 <= i < |entries| ensures CredentialKey(result[i]) == entries[i].0 {
      assert entries[i] in entries;
      LastUnderMeans(chainRefs, entries[i].0);
      HydrateKeepsKey(s, LastUnder(chainRefs, entries[i].0).value);
    }
    assert forall i :: 0 <= i < |entries| ==> Keys(entries)[i] == entries[i].0;
    forall c | c in chainRefs ensures exists r :: r in result && CredentialKey(r) == CredentialKey(c) {
      LastUnderMeans(chainRefs, CredentialKey(c));
      var e := (CredentialKey(c), Hydrate(s, LastUnder(chainRefs, CredentialKey(c)).value));
      assert e in entries;
      var i :| 0 <= i < |entries| && entries[i] == e;
      assert result[i] in result;
    }
  }

  /** References of other owners and issuers stay, all of them, in order. */
  lemma {:induction false} OutsideInOrder(refs: seq<Ref>, ownerAddress: string, issuerAddress: Option<string>) returns (positions: seq<nat>)
    ensures var kept := Outside(refs, ownerAddress, issuerAddress);
            && |positions| == |kept|
            && (forall k :: 0 <= k < |kept| ==> positions[k] < |refs| && kept[k] == refs[positions[k]])
            && (forall k, l :: 0 <= k < l < |kept| ==> positions[k] < positions[l])
            && (forall i :: 0 <= i < |refs| ==> (i in positions <==> !SameScope(refs[i], ownerAddress, issuerAddress)))
  {
    hide SameScope;
    positions := [];
    if refs != [] {
      var n := |refs| - 1;
      positions := OutsideInOrder(refs[..n], ownerAddress, issuerAddress);
      if !SameScope(refs[n], ownerAddress, issuerAddress) { positions := positions + [n]; }
    }
  }

  /** What a replacement leaves in the cache: all loaded references of other scopes, in order, and nothing else. */
  lemma ReplacementKeepsOthers(s: Store, ownerAddress: string, issuerAddress: Option<string>, chainRefs: seq<Ref>) returns (positions: seq<nat>)
    requires AllInScope(chainRefs, ownerAddress, issuerAddress)
    ensures var before, after := LoadRefs(s), ReplaceFromChain(s, ownerAddress, issuerAddress, chainRefs).refs;
            && |positions| == |after|
            && (forall k :: 0 <= k < |after| ==> positions[k] < |before| && after[k] == before[positions[k]])
            && (forall k, l :: 0 <= k < l < |after| ==> positions[k] < positions[l])
            && (forall i :: 0 <= i < |before| ==> (i in positions <==> !SameScope(before[i], ownerAddress, issuerAddress)))
  {
    positions := OutsideInOrder(LoadRefs(s), ownerAddress, issuerAddress);
    hide LoadRefs, Outside, SameScope, SaveWitnesses;
  }

  // ----- one reference per credential -----

  /** Cached references are of pairwise different credentials. */
  ghost predicate OnePerKey(refs: seq<Ref>) {
    forall i, j :: 0 <= i < j < |refs| ==> CredentialKey(refs[i]) != CredentialKey(refs[j])
  }

  ghost predicate Knows(refs: seq<Ref>, key: string) {
    exists i :: 0 <= i < |refs| && CredentialKey(refs[i]) == key
  }

  /**
    An upsert stores its reference and every loaded one of another credential: a known credential keeps its
    place in the list, a new one goes first, and the others keep their order.
   */
  lemma UpsertKeepsOthers(s: Store, ref: Ref)
    ensures var before, after := LoadRefs(s), Upsert(s, ref).refs;
            && ref in after && (OnePerKey(before) ==> OnePerKey(after))
            && if Knows(before, CredentialKey(ref)) then
                 && |after| == |before|
                 && forall i :: 0 <= i < |before| ==>
                      if CredentialKey(before[i]) == CredentialKey(ref) then after[i] == ref else after[i] == before[i]
               else |after| == |before| + 1 && after[0] == ref && forall i :: 0 <= i < |before| ==> after[i + 1] == before[i]
  {
    hide CredentialKey, LoadRefs, SaveWitnesses;
    var before, after := LoadRefs(s), Upsert(s, ref).refs;
    if Knows(before, CredentialKey(ref)) {
      var i :| 0 <= i < |before| && CredentialKey(before[i]) == CredentialKey(ref);
      assert after[i] == ref;
    } else {
      assert after[0] == ref;
    }
  }

  /** Counted: no loaded reference of another credential is dropped or doubled. */
  lemma UpsertCounts(s: Store, ref: Ref, other: Ref)
    requires CredentialKey(other) != CredentialKey(ref)
    ensures multiset(Upsert(s, ref).refs)[other] == multiset(LoadRefs(s))[other]
  {
    hide CredentialKey, LoadRefs, SaveWitnesses;
    ReplacedCounts(LoadRefs(s), ref, other);
    assert multiset([ref] + LoadRefs(s)) == multiset{ref} + multiset(LoadRefs(s));
  }

  lemma {:induction false} ReplacedCounts(refs: seq<Ref>, ref: Ref, other: Ref)
    requires CredentialKey(other) != CredentialKey(ref)
    ensures multiset(Replaced(refs, ref))[other] == multiset(refs)[other]
  {
    hide CredentialKey;
    if refs != [] {
      var rest, last := refs[..|refs| - 1], refs[|refs| - 1];
      ReplacedCounts(rest, ref, other);
      assert refs == rest + [last];
      assert Replaced(refs, ref) == Replaced(rest, ref) + [if CredentialKey(last) == CredentialKey(ref) then ref else last];
    }
  }

  lemma LoadedKeys(s: Store)
    ensures |LoadRefs(s)| == |s.refs| && forall i :: 0 <= i < |s.refs| ==> CredentialKey(LoadRefs(s)[i]) == CredentialKey(s.refs[i])
  {
    forall i | 0 <= i < |s.refs| ensures CredentialKey(LoadRefs(s)[i]) == CredentialKey(s.refs[i]) { HydrateKeepsKey(s, s.refs[i]); }
  }

  lemma ApplyKeepsOnePerKey(s: Store, op: Op)
    requires OnePerKey(s.refs) && (op.SaveAll? ==> OnePerKey(op.refs))
    ensures OnePerKey(Apply(s, op).refs)
  {
    hide CredentialKey, Hydrate, SaveWitnesses, SaveWitness;
    LoadedKeys(s);
    match op
    case Save(ref) => SameRefs(s, ref);
    case Put(ref) => UpsertKeepsOthers(s, ref);
    case Replace(owner, issuer, chainRefs) =>
      if AllInScope(chainRefs, owner, issuer) {
        var positions := ReplacementKeepsOthers(s, owner, issuer, chainRefs);
        hide LoadRefs, SameScope, ReplaceFromChain;
      }
    case _ =>
  }

  /** Whatever happens to the cache, no credential is ever in it twice. */
  lemma {:induction false} NeverTwice(s: Store, ops: seq<Op>)
    requires OnePerKey(s.refs) && forall i :: 0 <= i < |ops| ==> (ops[i].SaveAll? ==> OnePerKey(ops[i].refs))
    ensures OnePerKey(RunOps(s, ops).refs)
    decreases |ops|
  {
    hide Apply, OnePerKey;
    if ops != [] {
      ApplyKeepsOnePerKey(s, ops[0]);
      NeverTwice(Apply(s, ops[0]), ops[1..]);
    }
  }

  // ----- linking -----

  /** The independent form of the credential that linking converted. */
  predicate ConvertedFrom(ref: Ref, source: Ref) {
    && ref.kind == source.kind && ref.claimsHash == source.claimsHash && ref.mode != Some(Rooted)
    && NormalizeScope(Some(ref.ownerAddress)) == NormalizeScope(Some(source.ownerAddress))
    && NormalizeScope(ref.issuerAddress) == NormalizeScope(source.issuerAddress)
  }

  function Siblings(refs: seq<Ref>, source: Ref, linked: Ref): seq<Ref> {
    if refs == [] then []
    else Siblings(refs[..|refs| - 1], source, linked)
         + if refs[|refs| - 1].id == linked.id || ConvertedFrom(refs[|refs| - 1], source) then [] else [refs[|refs| - 1]]
  }

  function ReplaceLinked(refs: seq<Ref>, source: Ref, linked: Ref): seq<Ref> { [linked] + Siblings(refs, source, linked) }

  lemma {:induction false} SiblingsStay(refs: seq<Ref>, source: Ref, linked: Ref, ref: Ref)
    ensures multiset(Siblings(refs, source, linked))[ref]
            == if ref.id == linked.id || ConvertedFrom(ref, source) then 0 else multiset(refs)[ref]
  {
    hide ConvertedFrom;
    if refs != [] {
      var rest, last := refs[..|refs| - 1], refs[|refs| - 1];
      SiblingsStay(rest, source, linked, ref);
      assert refs == rest + [last];
      assert multiset(refs)[ref] == multiset(rest)[ref] + if last == ref then 1 else 0;
    }
  }

  /** Linking replaces the converted reference by the linked one, once, and drops no other. */
  lemma LinkingKeepsSiblings(refs: seq<Ref>, source: Ref, linked: Ref, ref: Ref)
    ensures multiset(ReplaceLinked(refs, source, linked))[ref]
            == if ref == linked then 1 else if ref.id == linked.id || ConvertedFrom(ref, source) then 0 else multiset(refs)[ref]
  {
    hide ConvertedFrom, Siblings;
    SiblingsStay(refs, source, linked, ref);
  }

  /** The linked form stands for the same credential, rooted, and takes the place of the independent one. */
  lemma LinkingConverts(refs: seq<Ref>, source: Ref, root: string, id: string, txHash: Option<string>)
    requires source.mode != Some(Rooted)
    ensures var linked := Linked(source, root, id, txHash); var after := ReplaceLinked(refs, source, linked);
            && linked.mode == Some(Rooted) && linked.rootCommitment == Some(root) && linked.id == id
            && InstagramKey(linked) == InstagramKey(source) && (txHash.Some? ==> linked.issuanceTxHash == txHash)
            && after[0] == linked && multiset(after)[linked] == 1 && multiset(after)[source] == 0
  {
    var linked := Linked(source, root, id, txHash);
    LinkingKeepsSiblings(refs, source, linked, source);
    LinkingKeepsSiblings(refs, source, linked, linked);
    assert InstagramParts(linked) == InstagramParts(source);
    hide Join, NormalizeScope, Siblings;
  }

  // ----- the storage itself -----

  const OUT_OF_SCOPE := "out of scope"
  const NO_PUBLIC_KEY := "no public key"

  /** The keys of the browser's local storage, written one at a time. */
  class WalletStorage {
    var refs: seq<Ref>
    var passports: map<string, PassportRecord>
    var instagrams: map<string, InstagramRecord>
    var profile: Option<Profile>
    var recoveryTarget: Option<Profile>
    var pending: Option<Pending>

    constructor ()
      ensures Contents() == Store([], map[], map[], None, None, None)
    {
      refs, passports, instagrams, profile, recoveryTarget, pending := [], map[], map[], None, None, None;
    }

    function Contents(): Store
      reads this
    {
      Store(refs, passports, instagrams, profile, recoveryTarget, pending)
    }

    method SaveCredentialPrivateWitness(ref: Ref)
      modifies this`passports, this`instagrams
      ensures Contents() == SaveWitness(old(Contents()), ref)
    {
      hide PassportKey, InstagramKey;
      if ref.kind.Passport? && ref.passportWitness.Some? {
        passports := passports[PassportKey(ref) := PassportRecord(ref.claimsHash, ref.createdAt, ref.details, ref.passportWitness.value)];
      }
      if HasHandle(ref) {
        instagrams := instagrams[InstagramKey(ref) :=
          InstagramRecord(ref.claimsHash, ref.createdAt, ref.details.ghostOwner, ref.details.ghostDerivationVersion, HandleOf(ref))];
      }
    }

    method LoadCredentialRefs() returns (loaded: seq<Ref>)
      ensures loaded == LoadRefs(Contents())
    {
      hide Hydrate;
      loaded := [];
      for i := 0 to |refs|
        invariant loaded == HydrateAll(Contents(), refs[..i])
      {
        loaded := loaded + [Hydrate(Contents(), refs[i])];
      }
      assert refs[..|refs|] == refs;
    }

    method SaveCredentialRefs(next: seq<Ref>)
      modifies this`passports, this`instagrams, this`refs
      ensures Contents() == SaveRefs(old(Contents()), next)
    {
      hide SaveWitness;
      for i := 0 to |next|
        invariant Contents() == SaveWitnesses(old(Contents()), next[..i])
        invariant refs == old(refs)
      {
        SameRefs(Contents(), next[i]);
        SaveCredentialPrivateWitness(next[i]);
        assert next[..i + 1][..i] == next[..i];
      }
      assert next[..|next|] == next;
      refs := next;
    }

    /** Throws without any change when the snapshot names a credential outside the scope. */
    method ReplaceCredentialRefsForOwnerFromChain(ownerAddress: string, issuerAddress: Option<string>, chainRefs: seq<Ref>)
      returns (r: Result<seq<Ref>>)
      modifies this`passports, this`instagrams, this`refs
      ensures Contents() == ReplaceFromChain(old(Contents()), ownerAddress, issuerAddress, chainRefs)
      ensures r.Ok? <==> AllInScope(chainRefs, ownerAddress, issuerAddress)
      ensures r.Ok? ==> r.value == Scoped(old(Contents()), chainRefs)
    {
      hide Hydrate, CredentialKey, SameScope, SaveRefs, LoadRefs;
      var canonical: seq<(string, Ref)> := [];
      for i := 0 to |chainRefs|
        invariant forall k :: 0 <= k < i ==> SameScope(chainRefs[k], ownerAddress, issuerAddress)
        invariant canonical == Canonical(Contents(), chainRefs[..i])
      {
        if !SameScope(chainRefs[i], ownerAddress, issuerAddress) { return Err(OUT_OF_SCOPE); }
        assert chainRefs[..i + 1][..i] == chainRefs[..i];
        canonical := MapSet(canonical, CredentialKey(chainRefs[i]), Hydrate(Contents(), chainRefs[i]));
      }
      assert chainRefs[..|chainRefs|] == chainRefs;
      var loaded := LoadCredentialRefs();
      var outsideScope: seq<Ref> := [];
      for i := 0 to |loaded|
        invariant outsideScope == Outside(loaded[..i], ownerAddress, issuerAddress)
      {
        assert loaded[..i + 1][..i] == loaded[..i];
        if !SameScope(loaded[i], ownerAddress, issuerAddress) { outsideScope := outsideScope + [loaded[i]]; }
      }
      assert loaded[..|loaded|] == loaded;
      r := Ok(seq(|canonical|, i requires 0 <= i < |canonical| => canonical[i].1));
      SaveCredentialRefs(outsideScope);
    }

    method UpsertCredentialRef(ref: Ref) returns (next: seq<Ref>)
      modifies this`passports, this`instagrams, this`refs
      ensures Contents() == Upsert(old(Contents()), ref) && next == refs
    {
      hide SaveWitnesses, LoadRefs, CredentialKey;
      var loaded := LoadCredentialRefs();
      var key := CredentialKey(ref);
      var found := false;
      next := [];
      for i := 0 to |loaded|
        invariant found <==> exists k :: 0 <= k < i && CredentialKey(loaded[k]) == key
        invariant next == Replaced(loaded[..i], ref)
      {
        if CredentialKey(loaded[i]) == key {
          found := true;
          next := next + [ref];
        } else {
          next := next + [loaded[i]];
        }
      }
      assert loaded[..|loaded|] == loaded;
      if !found { next := [ref] + loaded; }
      SaveCredentialRefs(next);
    }

    method ClearStoredWalletState()
      modifies this`refs, this`profile, this`recoveryTarget, this`pending
      ensures Contents() == Clear(old(Contents()))
    {
      refs := [];
      profile := None;
      pending := None;
      recoveryTarget := None;
    }

    method SavePendingFinalization(p: Pending)
      modifies this`pending
      ensures Contents() == Apply(old(Contents()), SetPending(Some(p)))
    {
      pending := Some(p);
    }

    method LoadPendingFinalization() returns (p: Option<Pending>)
      ensures p == LoadPending(Contents())
    {
      if pending.Some? && pending.value.target.publicKey.None? { return None; }
      p := pending;
    }

    method ClearPendingFinalization()
      modifies this`pending
      ensures Contents() == Apply(old(Contents()), SetPending(None))
    {
      pending := None;
    }

    method SaveRecoveryTargetProfile(target: Profile) returns (r: Result<()>)
      modifies this`recoveryTarget
      ensures r.Ok? <==> Present(target.publicKey)
      ensures Contents() == if r.Ok? then old(Contents()).(recoveryTarget := Some(target)) else old(Contents())
    {
      if !Present(target.publicKey) { return Err(NO_PUBLIC_KEY); }
      recoveryTarget := Some(target);
      r := Ok(());
    }
  }
}
