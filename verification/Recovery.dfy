/**
  Finishing a passport recovery: what is written to storage before, while and after the transaction lands,
  and what survives when the page dies at any point and is resumed.
 */
module Recovery {
  import opened Wrappers
  import opened Storage

  /** Where the running page is; its record is in the page's memory only. */
  datatype Step =
    | Idle
    | RecordSaved(p: Pending)       // before the transaction is sent
    | Sending(p: Pending)
    | Reading(p: Pending)           // about to read the destination's notes and status
    | ReadAsActive(p: Pending)
    | WitnessSaved(p: Pending)
    | Refreshed(p: Pending)
    | HintsLoaded(p: Pending)
    | RefStored(p: Pending)

  /** The page's step and its React state, the browser's storage, and what happened on chain. */
  datatype State = State(
    step: Step, memory: Option<Pending>, store: Store, sent: bool, recovered: bool, readActive: bool, first: Option<Pending>)

  datatype Event =
    | Prepare(p: Pending)
    | Send
    | Land
    | Mined(txHash: string)
    | ReadActive
    | SaveRecoveredWitness
    | Refresh(ownerAddress: string, issuerAddress: Option<string>, chainRefs: seq<Ref>)
    | LoadHints
    | StoreRef
    | ClearRecord
    | Resume
    | Throw
    | Crash
    | Other(op: Op)

  /** The reference of the recovered credential, as finalization stores it. */
  function RecoveredRef(p: Pending): Ref {
    p.recovered.(status := "active",
                 details := p.recovered.details.(recoveryTxHash := Or(p.recoveryTxHash, p.recovered.details.recoveryTxHash)))
  }

  function SubmittedRecord(p: Pending, txHash: string): Pending {
    p.(phase := Phase.Submitted, recoveryTxHash := Some(txHash),
       recovered := p.recovered.(details := p.recovered.details.(recoveryTxHash := Some(txHash))))
  }

  /** What the recovery starts with: a rooted passport with its witness, and a target with a passkey. */
  predicate Complete(p: Pending) {
    && p.phase.Prepared? && Present(p.target.publicKey)
    && p.recovered.kind.Passport? && p.recovered.passportWitness.Some? && Present(p.recovered.rootCommitment)
  }

  /** A record that a resume can go on with. */
  predicate Resumable(p: Option<Pending>) {
    p.Some? && Present(p.value.target.publicKey) && Present(p.value.recovered.rootCommitment)
  }

  function Held(s: State): Option<Pending> {
    if s.memory.Some? then s.memory else LoadPending(s.store)
  }

  predicate Enabled(s: State, e: Event) {
    match e
    case Prepare(p) => s.step.Idle? && s.first.None? && Complete(p)
    case Send => s.step.RecordSaved?
    case Land => s.sent
    case Mined(_) => s.step.Sending?
    case ReadActive => s.step.Reading? && s.recovered
    case SaveRecoveredWitness => s.step.ReadAsActive?
    case Refresh(owner, issuer, chainRefs) => s.step.WitnessSaved? && AllInScope(chainRefs, owner, issuer)
    case LoadHints => s.step.Refreshed?
    case StoreRef => s.step.HintsLoaded?
    case ClearRecord => s.step.RefStored?
    case Resume => s.step.Idle? && Resumable(Held(s))
    case Throw => true
    case Crash => true
    case Other(op) => !op.Wipe? && !op.SetPending?
  }

  /** The witnesses that events bring along are those that the claims determine. */
  ghost predicate SoundEvent(e: Event, claims: Claims) {
    match e
    case Prepare(p) => SoundRef(p.recovered, claims)
    case Other(op) => SoundOp(op, claims)
    case _ => true
  }

  ghost predicate SoundEvents(events: seq<Event>, claims: Claims) {
    forall i :: 0 <= i < |events| ==> SoundEvent(events[i], claims)
  }

  function Next(s: State, e: Event): State
    requires Enabled(s, e)
  {
    match e
    case Prepare(p) => s.(step := RecordSaved(p), memory := Some(p), store := Apply(s.store, SetPending(Some(p))), first := Some(p))
    case Send => s.(step := Sending(s.step.p), sent := true)
    case Land => s.(recovered := true)
    case Mined(txHash) =>
      var p := SubmittedRecord(s.step.p, txHash);
      s.(step := Reading(p), memory := Some(p), store := Apply(s.store, SetPending(Some(p))))
    case ReadActive => s.(step := ReadAsActive(s.step.p), readActive := true)
    case SaveRecoveredWitness => s.(step := WitnessSaved(s.step.p), store := Apply(s.store, Save(RecoveredRef(s.step.p))))
    case Refresh(owner, issuer, chainRefs) => s.(step := Refreshed(s.step.p), store := Apply(s.store, Replace(owner, issuer, chainRefs)))
    case LoadHints => s.(step := HintsLoaded(s.step.p))
    case StoreRef => s.(step := RefStored(s.step.p), store := Apply(s.store, Put(RecoveredRef(s.step.p))))
    case ClearRecord => s.(step := Idle, memory := None, store := Apply(s.store, SetPending(None)))
    case Resume => s.(step := Reading(Held(s).value))
    case Throw => s.(step := Idle)
    case Crash => s.(step := Idle, memory := LoadPending(s.store))
    case Other(op) => s.(store := Apply(s.store, op))
  }

  predicate Run(start: State, events: seq<Event>, end: State)
    decreases |events|
  {
    if events == [] then end == start
    else Enabled(start, events[0]) && Run(Next(start, events[0]), events[1..], end)
  }

  ghost predicate Start(s: State, claims: Claims) {
    && s.step.Idle? && s.memory.None? && s.store.pending.None? && s.first.None?
    && !s.sent && !s.recovered && !s.readActive && Sound(s.store, claims)
  }

  // ----- what every step keeps -----

  /** Two records of one recovery: the same target, credential and witness. */
  predicate SameRecovery(p: Pending, q: Pending) {
    && p.target == q.target && PassportKey(p.recovered) == PassportKey(q.recovered)
    && p.recovered.kind == q.recovered.kind && p.recovered.claimsHash == q.recovered.claimsHash
    && p.recovered.passportWitness == q.recovered.passportWitness && p.recovered.rootCommitment == q.recovered.rootCommitment
  }

  /** The recovered witness is in the sidecar. */
  ghost predicate InSidecar(store: Store, p: Pending) {
    && PassportKey(p.recovered) in store.passports
    && p.recovered.passportWitness == Some(store.passports[PassportKey(p.recovered)].committed)
  }

  /** The recovered credential is in the cache: active, with its witness and the hash of its recovery. */
  ghost predicate StoredActive(store: Store, p: Pending) {
    exists r <- store.refs :: CredentialKey(r) == CredentialKey(p.recovered) && r.status == "active"
                              && r.passportWitness == p.recovered.passportWitness
                              && (p.recoveryTxHash.Some? ==> r.details.recoveryTxHash == p.recoveryTxHash)
  }

  /** The record of a recovery loads back: before the transaction is mined as prepared, then as submitted, with its hash. */
  ghost predicate Recorded(store: Store, p: Pending, mined: Option<string>) {
    var record := LoadPending(store);
    && record.Some? && SameRecovery(record.value, p) && (record.value.phase.Submitted? <==> mined.Some?)
    && (mined.Some? ==> record.value.recoveryTxHash == mined == record.value.recovered.details.recoveryTxHash)
  }

  lemma RecordLoads(s: Store, p: Pending, mined: Option<string>)
    requires Complete(p)
    ensures Recorded(Apply(s, SetPending(Some(if mined.Some? then SubmittedRecord(p, mined.value) else p))), p, mined)
  {
    if mined.Some? { assert PassportKey(SubmittedRecord(p, mined.value).recovered) == PassportKey(p.recovered); }
    hide PassportKey;
  }

  predicate AfterRead(step: Step) {
    step.ReadAsActive? || step.WitnessSaved? || step.Refreshed? || step.HintsLoaded? || step.RefStored?
  }

  predicate AfterSave(step: Step) { AfterRead(step) && !step.ReadAsActive? }

  ghost predicate Inv(s: State, claims: Claims) {
    && Sound(s.store, claims)
    && (s.readActive ==> s.recovered) && (s.recovered ==> s.sent) && (s.sent ==> s.first.Some?)
    && match s.first
       case None => s.step.Idle? && s.memory.None? && s.store.pending.None?
       case Some(p) =>
         && Present(p.target.publicKey) && Present(p.recovered.rootCommitment)
         && p.recovered.kind.Passport? && p.recovered.passportWitness.Some? && SoundRef(p.recovered, claims)
         && (!s.step.Idle? ==> SameRecovery(s.step.p, p))
         && (s.memory.Some? ==> SameRecovery(s.memory.value, p))
         && (if s.store.pending.Some? then SameRecovery(s.store.pending.value, p) else InSidecar(s.store, p) && s.readActive)
         && (AfterRead(s.step) ==> s.readActive) && (AfterSave(s.step) ==> InSidecar(s.store, p))
  }

  lemma SameSound(p: Pending, q: Pending, claims: Claims)
    requires SameRecovery(p, q) && q.recovered.kind.Passport? && SoundRef(q.recovered, claims)
    ensures SoundRef(RecoveredRef(p), claims) && PassportKey(RecoveredRef(p)) == PassportKey(q.recovered)
  {
    assert PassportKey(RecoveredRef(p)) == PassportKey(p.recovered);
    hide PassportKey;
  }

  lemma SidecarKept(before: Store, after: Store, p: Pending)
    requires Keeps(before, after) && InSidecar(before, p)
    ensures InSidecar(after, p)
  {
    hide PassportKey;
  }

  lemma SavedToSidecar(s: Store, p: Pending, first: Pending, claims: Claims)
    requires SameRecovery(p, first) && first.recovered.kind.Passport? && first.recovered.passportWitness.Some? && SoundRef(first.recovered, claims)
    ensures InSidecar(SaveWitness(s, RecoveredRef(p)), first)
  {
    SameSound(p, first, claims);
    hide PassportKey, InstagramKey;
  }

  /** The storage operations used here leave the pending record alone. */
  lemma SamePending(s: Store, op: Op)
    requires !op.Wipe? && !op.SetPending?
    ensures Apply(s, op).pending == s.pending
  {
    match op
    case Save(ref) => SameRefs(s, ref);
    case SaveAll(refs) => SavedPending(s, refs);
    case Put(ref) => SavedPending(s, Upserted(LoadRefs(s), ref));
    case Replace(owner, issuer, chainRefs) => SavedPending(s, Outside(LoadRefs(s), owner, issuer));
    case _ =>
  }

  lemma {:induction false} SavedPending(s: Store, refs: seq<Ref>)
    ensures SaveWitnesses(s, refs).pending == s.pending
  {
    hide SaveWitness;
    if refs != [] {
      SavedPending(s, refs[..|refs| - 1]);
      SameRefs(SaveWitnesses(s, refs[..|refs| - 1]), refs[|refs| - 1]);
    }
  }

  lemma StoreStep(s: State, op: Op, claims: Claims)
    requires Inv(s, claims) && SoundOp(op, claims) && !op.Wipe? && !op.SetPending?
    ensures Inv(s.(store := Apply(s.store, op)), claims)
  {
    ApplyKeeps(s.store, op, claims);
    SamePending(s.store, op);
    if s.first.Some? && InSidecar(s.store, s.first.value) { SidecarKept(s.store, Apply(s.store, op), s.first.value); }
    hide Apply, Sound, SoundOp, SameRecovery, InSidecar, Keeps, Present;
  }

  /** Writing the record touches no witness. */
  lemma RecordFrame(s: Store, record: Option<Pending>, claims: Claims)
    ensures Sound(Apply(s, SetPending(record)), claims) == Sound(s, claims)
    ensures forall p :: InSidecar(Apply(s, SetPending(record)), p) == InSidecar(s, p)
    ensures Apply(s, SetPending(record)).pending == record
  {
    hide PassportKey;
  }

  lemma PrepareKeeps(s: State, p: Pending, claims: Claims)
    requires Inv(s, claims) && Enabled(s, Prepare(p)) && SoundRef(p.recovered, claims)
    ensures Inv(Next(s, Prepare(p)), claims)
  {
    RecordFrame(s.store, Some(p), claims);
    assert SameRecovery(p, p);
    hide PassportKey, SoundRef, Apply, Sound, InSidecar, SameRecovery;
  }

  lemma SubmittedKeeps(s: State, txHash: string, claims: Claims)
    requires Inv(s, claims) && Enabled(s, Mined(txHash))
    ensures Inv(Next(s, Mined(txHash)), claims)
  {
    var p := SubmittedRecord(s.step.p, txHash);
    assert PassportKey(p.recovered) == PassportKey(s.step.p.recovered);
    RecordFrame(s.store, Some(p), claims);
    hide PassportKey, SoundRef, Apply, Sound, InSidecar;
  }

  lemma ClearKeeps(s: State, claims: Claims)
    requires Inv(s, claims) && Enabled(s, ClearRecord)
    ensures Inv(Next(s, ClearRecord), claims)
  {
    RecordFrame(s.store, None, claims);
    hide SoundRef, Apply, Sound, InSidecar, SameRecovery;
  }

  lemma SaveKeeps(s: State, claims: Claims)
    requires Inv(s, claims) && Enabled(s, SaveRecoveredWitness)
    ensures Inv(Next(s, SaveRecoveredWitness), claims)
  {
    hide Sound, SaveWitness, SoundRef, InSidecar, SameRecovery, RecoveredRef, PassportKey;
    SameSound(s.step.p, s.first.value, claims);
    StoreStep(s, Save(RecoveredRef(s.step.p)), claims);
    SavedToSidecar(s.store, s.step.p, s.first.value, claims);
  }

  lemma StoreRefKeeps(s: State, claims: Claims)
    requires Inv(s, claims) && Enabled(s, StoreRef)
    ensures Inv(Next(s, StoreRef), claims)
  {
    hide Sound, Apply, SoundRef, InSidecar, SameRecovery, RecoveredRef, PassportKey;
    SameSound(s.step.p, s.first.value, claims);
    StoreStep(s, Put(RecoveredRef(s.step.p)), claims);
  }

  /** The events that leave witnesses alone. */
  lemma OtherKeeps(s: State, e: Event, claims: Claims)
    requires Inv(s, claims) && Enabled(s, e)
    requires e.Send? || e.Land? || e.ReadActive? || e.LoadHints? || e.Resume? || e.Throw? || e.Crash?
    ensures Inv(Next(s, e), claims)
  {
    hide SoundRef, SameRecovery, InSidecar, Sound;
  }

  lemma NextKeeps(s: State, e: Event, claims: Claims)
    requires Inv(s, claims) && Enabled(s, e) && SoundEvent(e, claims)
    ensures Inv(Next(s, e), claims)
  {
    match e
    case Prepare(p) => PrepareKeeps(s, p, claims);
    case Mined(txHash) => SubmittedKeeps(s, txHash, claims);
    case SaveRecoveredWitness => SaveKeeps(s, claims);
    case StoreRef => StoreRefKeeps(s, claims);
    case ClearRecord => ClearKeeps(s, claims);
    case Other(op) => StoreStep(s, op, claims);
    case Refresh(owner, issuer, chainRefs) =>
      hide Sound, Apply, SoundRef, InSidecar, SameRecovery;
      StoreStep(s, Replace(owner, issuer, chainRefs), claims);
    case _ => OtherKeeps(s, e, claims);
  }

  lemma {:induction false} RunKeeps(start: State, events: seq<Event>, end: State, claims: Claims)
    requires Inv(start, claims) && Run(start, events, end) && SoundEvents(events, claims)
    ensures Inv(end, claims)
    decreases |events|
  {
    hide Inv, Enabled, Next, SoundEvent;
    if events != [] {
      NextKeeps(start, events[0], claims);
      RunKeeps(Next(start, events[0]), events[1..], end, claims);
    }
  }

  // ----- what every run shows -----

  lemma StartIsFine(s: State, claims: Claims)
    requires Start(s, claims)
    ensures Inv(s, claims)
  {
    hide Sound;
  }

  /**
    Crash safety: from the moment the record is saved, whatever throws, crashes and resumes, the recovered
    witness is in the pending record or in the sidecar; the record always loads back; and it is gone only
    after the destination was read as active and the witness saved.
   */
  lemma CrashSafe(start: State, events: seq<Event>, end: State, claims: Claims)
    requires Start(start, claims) && Run(start, events, end) && SoundEvents(events, claims) && end.first.Some?
    ensures var p := end.first.value;
            && (end.store.pending.Some? ==>
                  LoadPending(end.store) == end.store.pending && SameRecovery(end.store.pending.value, p))
            && (end.store.pending.None? ==> end.readActive && end.recovered && InSidecar(end.store, p))
  {
    assert Inv(start, claims);
    RunKeeps(start, events, end, claims);
    hide Run, SoundRef, SameRecovery, InSidecar;
  }

  /** Nothing is sent before its record is saved, so a recovery on chain always has one of the two. */
  lemma RecoveredHasWitness(start: State, events: seq<Event>, end: State, claims: Claims)
    requires Start(start, claims) && Run(start, events, end) && SoundEvents(events, claims) && end.recovered
    ensures end.first.Some?
    ensures end.store.pending.Some? ==> end.store.pending.value.recovered.passportWitness == end.first.value.recovered.passportWitness
    ensures end.store.pending.None? ==> InSidecar(end.store, end.first.value)
  {
    assert Inv(start, claims);
    RunKeeps(start, events, end, claims);
    hide Run, SoundRef, InSidecar;
  }

  lemma {:induction false} OneMore(start: State, events: seq<Event>, mid: State, e: Event)
    requires Run(start, events, mid) && Enabled(mid, e)
    ensures Run(start, events + [e], Next(mid, e))
    decreases |events|
  {
    hide Enabled, Next;
    if events == [] {
      assert [e][1..] == [];
      assert Run(Next(mid, e), [], Next(mid, e));
      assert events + [e] == [e];
    } else {
      OneMore(Next(start, events[0]), events[1..], mid, e);
      assert (events + [e])[1..] == events[1..] + [e];
    }
  }

  /** The steps of submission, one by one. */
  lemma SubmissionSteps(s: State, p: Pending, txHash: string)
    ensures s.step.Idle? && s.first.None? && Complete(p) ==>
              Enabled(s, Prepare(p))
              && Next(s, Prepare(p)) == s.(step := RecordSaved(p), memory := Some(p), store := Apply(s.store, SetPending(Some(p))), first := Some(p))
    ensures s.step.RecordSaved? ==> Enabled(s, Send) && Next(s, Send) == s.(step := Sending(s.step.p), sent := true)
    ensures s.sent ==> Enabled(s, Land) && Next(s, Land) == s.(recovered := true)
    ensures s.step.Sending? ==>
              var q := SubmittedRecord(s.step.p, txHash);
              Enabled(s, Mined(txHash)) && Next(s, Mined(txHash)) == s.(step := Reading(q), memory := Some(q), store := Apply(s.store, SetPending(Some(q))))
    ensures Enabled(s, Throw) && Next(s, Throw) == s.(step := Idle)
  {
    hide SubmittedRecord, Complete, Apply;
  }

  /** The steps of finalization, one by one. */
  lemma FinalizationSteps(s: State, owner: string, issuer: Option<string>, chainRefs: seq<Ref>)
    ensures s.step.ReadAsActive? ==>
              && Enabled(s, SaveRecoveredWitness)
              && Next(s, SaveRecoveredWitness) == s.(step := WitnessSaved(s.step.p), store := Apply(s.store, Save(RecoveredRef(s.step.p))))
    ensures s.step.WitnessSaved? ==>
              if !AllInScope(chainRefs, owner, issuer) then Apply(s.store, Replace(owner, issuer, chainRefs)) == s.store
              else
                && Enabled(s, Refresh(owner, issuer, chainRefs))
                && Next(s, Refresh(owner, issuer, chainRefs)) == s.(step := Refreshed(s.step.p), store := Apply(s.store, Replace(owner, issuer, chainRefs)))
    ensures s.step.Refreshed? ==> Enabled(s, LoadHints) && Next(s, LoadHints) == s.(step := HintsLoaded(s.step.p))
    ensures s.step.HintsLoaded? ==>
              Enabled(s, StoreRef) && Next(s, StoreRef) == s.(step := RefStored(s.step.p), store := Apply(s.store, Put(RecoveredRef(s.step.p))))
    ensures s.step.RefStored? ==>
              Enabled(s, ClearRecord) && Next(s, ClearRecord) == s.(step := Idle, memory := None, store := Apply(s.store, SetPending(None)))
    ensures Enabled(s, Throw) && Next(s, Throw) == s.(step := Idle)
    ensures Apply(s.store, Replace(owner, issuer, chainRefs)) == ReplaceFromChain(s.store, owner, issuer, chainRefs)
    ensures Apply(s.store, SetPending(None)) == s.store.(pending := None)
    ensures forall ref :: Apply(s.store, Save(ref)) == SaveWitness(s.store, ref) && Apply(s.store, Put(ref)) == Upsert(s.store, ref)
  {
    hide RecoveredRef, SaveWitness, Upsert, SaveRefs, AllInScope;
  }

  lemma First(s: State, e: Event, rest: seq<Event>, end: State)
    requires Enabled(s, e) && Run(Next(s, e), rest, end)
    ensures Run(s, [e] + rest, end)
  {
    hide Enabled, Next;
    assert ([e] + rest)[1..] == rest;
  }

  /** The step that finalization takes next, and where it leads. */
  function StepEvent(step: Step, owner: string, issuer: Option<string>, chainRefs: seq<Ref>): Event {
    match step
    case Reading(_) => ReadActive
    case ReadAsActive(_) => SaveRecoveredWitness
    case WitnessSaved(_) => Refresh(owner, issuer, chainRefs)
    case Refreshed(_) => LoadHints
    case HintsLoaded(_) => StoreRef
    case RefStored(_) => ClearRecord
    case _ => Throw
  }

  function StepsLeft(step: Step): nat {
    match step
    case Reading(_) => 6
    case ReadAsActive(_) => 5
    case WitnessSaved(_) => 4
    case Refreshed(_) => 3
    case HintsLoaded(_) => 2
    case RefStored(_) => 1
    case _ => 0
  }

  function StepAfter(step: Step): (next: Step)
    ensures StepsLeft(step) > 0 ==> StepsLeft(next) == StepsLeft(step) - 1
  {
    match step
    case Reading(p) => ReadAsActive(p)
    case ReadAsActive(p) => WitnessSaved(p)
    case WitnessSaved(p) => Refreshed(p)
    case Refreshed(p) => HintsLoaded(p)
    case HintsLoaded(p) => RefStored(p)
    case _ => Idle
  }

  function Remaining(step: Step, owner: string, issuer: Option<string>, chainRefs: seq<Ref>): seq<Event>
    decreases StepsLeft(step)
  {
    if StepsLeft(step) == 0 then []
    else [StepEvent(step, owner, issuer, chainRefs)] + Remaining(StepAfter(step), owner, issuer, chainRefs)
  }

  lemma StepTaken(s: State, owner: string, issuer: Option<string>, chainRefs: seq<Ref>)
    requires StepsLeft(s.step) > 0 && s.recovered && AllInScope(chainRefs, owner, issuer)
    ensures var e := StepEvent(s.step, owner, issuer, chainRefs);
            && Enabled(s, e) && Next(s, e).step == StepAfter(s.step) && Next(s, e).recovered && Next(s, e).first == s.first
            && (StepsLeft(s.step) == 1 ==> Next(s, e).store.pending.None? && Next(s, e).store.refs == s.store.refs)
  {
    hide RecoveredRef, SaveWitness, Upsert, ReplaceFromChain;
  }

  lemma StoreRefStores(s: State, owner: string, issuer: Option<string>, chainRefs: seq<Ref>)
    requires s.step.HintsLoaded? && Enabled(s, StoreRef)
    ensures StepEvent(s.step, owner, issuer, chainRefs) == StoreRef && StoredActive(Next(s, StoreRef).store, s.step.p)
  {
    hide RecoveredRef, StoredActive, Apply;
    PutStores(s.store, s.step.p);
  }

  lemma {:induction false} RemainingRun(s: State, owner: string, issuer: Option<string>, chainRefs: seq<Ref>) returns (done: State)
    requires StepsLeft(s.step) > 0 && s.recovered && AllInScope(chainRefs, owner, issuer)
    requires s.step.RefStored? ==> StoredActive(s.store, s.step.p)
    ensures Run(s, Remaining(s.step, owner, issuer, chainRefs), done)
    ensures done.store.pending.None? && done.first == s.first && StoredActive(done.store, s.step.p)
    decreases StepsLeft(s.step)
  {
    hide Enabled, Next, CredentialKey;
    var e := StepEvent(s.step, owner, issuer, chainRefs);
    StepTaken(s, owner, issuer, chainRefs);
    if s.step.HintsLoaded? { StoreRefStores(s, owner, issuer, chainRefs); }
    if StepsLeft(s.step) == 1 {
      done := Next(s, e);
      assert Run(done, [], done);
    } else {
      done := RemainingRun(Next(s, e), owner, issuer, chainRefs);
    }
    hide Run;
    First(s, e, Remaining(StepAfter(s.step), owner, issuer, chainRefs), done);
  }

  lemma PutStores(s: Store, p: Pending)
    ensures StoredActive(Apply(s, Put(RecoveredRef(p))), p)
  {
    UpsertKeepsOthers(s, RecoveredRef(p));
    hide LoadRefs, Upsert, Join;
    assert CredentialKey(RecoveredRef(p)) == CredentialKey(p.recovered);
    hide CredentialKey;
    assert RecoveredRef(p) in Apply(s, Put(RecoveredRef(p))).refs;
  }

  lemma SubmittedStored(s: Store, p: Pending, txHash: string)
    ensures StoredActive(s, SubmittedRecord(p, txHash)) == StoredActive(s, p.(recoveryTxHash := Some(txHash)))
  {
    var q := SubmittedRecord(p, txHash);
    assert CredentialKey(q.recovered) == CredentialKey(p.recovered);
    hide CredentialKey;
  }

  /** The way to the end after a resume. */
  function Finish(p: Pending, owner: string, issuer: Option<string>, chainRefs: seq<Ref>): seq<Event> {
    [Resume] + Remaining(Reading(p), owner, issuer, chainRefs)
  }

  lemma FinishRun(s: State, owner: string, issuer: Option<string>, chainRefs: seq<Ref>) returns (done: State)
    requires s.step.Idle? && s.recovered && Enabled(s, Resume) && AllInScope(chainRefs, owner, issuer)
    ensures Run(s, Finish(Held(s).value, owner, issuer, chainRefs), done)
    ensures done.store.pending.None? && done.first == s.first && StoredActive(done.store, Held(s).value)
  {
    hide Run, Remaining, StoredActive;
    var reading := Next(s, Resume);
    done := RemainingRun(reading, owner, issuer, chainRefs);
    First(s, Resume, Remaining(reading.step, owner, issuer, chainRefs), done);
  }

  lemma {:induction false} FinishIsSound(step: Step, owner: string, issuer: Option<string>, chainRefs: seq<Ref>, claims: Claims)
    ensures SoundEvents(Remaining(step, owner, issuer, chainRefs), claims)
    decreases StepsLeft(step)
  {
    if StepsLeft(step) > 0 { FinishIsSound(StepAfter(step), owner, issuer, chainRefs, claims); }
  }

  lemma ResumeIsSound(p: Pending, owner: string, issuer: Option<string>, chainRefs: seq<Ref>, claims: Claims)
    ensures SoundEvents(Finish(p, owner, issuer, chainRefs), claims)
  {
    FinishIsSound(Reading(p), owner, issuer, chainRefs, claims);
    hide Remaining;
  }

  /** A page that is idle after a crash can resume its record. */
  lemma ResumeEnabled(s: State, claims: Claims)
    requires Inv(s, claims) && s.step.Idle? && s.store.pending.Some?
    ensures Enabled(s, Resume) && s.first.Some?
  {
    hide Sound, SoundRef, InSidecar, PassportKey;
  }

  lemma ClearedIsSaved(s: State, claims: Claims)
    requires Inv(s, claims) && s.first.Some? && s.store.pending.None?
    ensures InSidecar(s.store, s.first.value)
  {
    hide Sound, SoundRef, InSidecar, SameRecovery;
  }

  /**
    And a recovery on chain can always be finished after any crash: one undisturbed resume does it, with the
    references that the chain holds for the working owner.
   */
  lemma CanFinish(start: State, events: seq<Event>, end: State, claims: Claims, owner: string, issuer: Option<string>, chainRefs: seq<Ref>)
    returns (done: State)
    requires Start(start, claims) && Run(start, events, end) && SoundEvents(events, claims)
    requires end.recovered && end.store.pending.Some? && end.step.Idle? && AllInScope(chainRefs, owner, issuer)
    ensures Enabled(end, Resume) && Run(end, Finish(Held(end).value, owner, issuer, chainRefs), done)
    ensures done.store.pending.None? && done.first == end.first && done.first.Some? && InSidecar(done.store, done.first.value)
    ensures StoredActive(done.store, Held(end).value)
  {
    StartIsFine(start, claims);
    hide Start, Inv, Run, SoundEvents, InSidecar, AllInScope, Finish, Enabled, Held, StoredActive;
    RunKeeps(start, events, end, claims);
    ResumeEnabled(end, claims);
    done := FinishRun(end, owner, issuer, chainRefs);
    ResumeIsSound(Held(end).value, owner, issuer, chainRefs, claims);
    RunKeeps(end, Finish(Held(end).value, owner, issuer, chainRefs), done, claims);
    ClearedIsSaved(done, claims);
  }

  // ----- the page -----

  /**
    The page's recovery functions. What the wallet and the chain answer is a parameter. A ghost field follows
    the run, so that a crash between any two writes is a state of the run.
   */
  class RecoveryPage {
    const storage: WalletStorage
    var memory: Option<Pending>
    ghost var progress: State  // the step and the chain; what is held and stored is in the fields

    constructor (storage: WalletStorage)
      ensures this.storage == storage && memory == LoadPending(storage.Contents())
      ensures Now().step.Idle? && Now().first.None? && !Now().sent && !Now().recovered && !Now().readActive
    {
      this.storage := storage;
      memory := LoadPending(storage.Contents());
      progress := State(Idle, None, storage.Contents(), false, false, false, None);
    }

    ghost function Now(): State
      reads this, storage
    {
      progress.(memory := memory, store := storage.Contents())
    }

    /** Records a step of the run whose writes have been made. */
    ghost method Take(start: State, before: State, soFar: seq<Event>, e: Event) returns (events: seq<Event>)
      requires Run(start, soFar, before) && Enabled(before, e)
      requires Next(before, e).memory == memory && Next(before, e).store == storage.Contents()
      modifies this`progress
      ensures events == soFar + [e] && Run(start, events, Now()) && Now() == Next(before, e)
    {
      hide Run, Enabled, Next, WalletStorage.Contents;
      OneMore(start, soFar, before, e);
      progress := Next(before, e);
      events := soFar + [e];
    }

    method SavePending(p: Pending)
      modifies this`memory, storage`pending
      ensures storage.Contents() == Apply(old(storage.Contents()), SetPending(Some(p))) && memory == Some(p)
    {
      storage.SavePendingFinalization(p);
      memory := Some(p);
    }

    /** The witness first, the record last. */
    method CompleteFinalization(p: Pending, owner: string, issuer: Option<string>, chainRefs: seq<Ref>,
                                ghost start: State, ghost soFar: seq<Event>)
      returns (done: bool, ghost events: seq<Event>)
      requires Now().step == ReadAsActive(p) && Run(start, soFar, Now())
      modifies this, storage
      ensures Run(start, events, Now()) && Now().step.Idle?
      ensures done <==> AllInScope(chainRefs, owner, issuer)
      ensures done ==> Now().store.pending.None? && Now().memory.None? && StoredActive(storage.Contents(), p)
    {
      hide Enabled, Next, Apply, Run, RecoveredRef, SaveWitness, Upsert, ReplaceFromChain, Scoped, AllInScope, WalletStorage.Contents;
      ghost var before := Now();
      FinalizationSteps(before, owner, issuer, chainRefs);
      storage.SaveCredentialPrivateWitness(RecoveredRef(p));
      events := Take(start, before, soFar, SaveRecoveredWitness);

      before := Now();
      FinalizationSteps(before, owner, issuer, chainRefs);
      var workingRefs := storage.ReplaceCredentialRefsForOwnerFromChain(owner, issuer, chainRefs);
      done := workingRefs.Ok?;
      if !done {
        events := Take(start, before, events, Throw);
        return;
      }
      events := Take(start, before, events, Refresh(owner, issuer, chainRefs));

      before := Now();
      FinalizationSteps(before, owner, issuer, chainRefs);
      events := Take(start, before, events, LoadHints);

      before := Now();
      FinalizationSteps(before, owner, issuer, chainRefs);
      var next := storage.UpsertCredentialRef(RecoveredRef(p));
      PutStores(before.store, p);
      events := Take(start, before, events, StoreRef);

      before := Now();
      FinalizationSteps(before, owner, issuer, chainRefs);
      storage.ClearPendingFinalization();
      memory := None;
      events := Take(start, before, events, ClearRecord);
    }

    /** Reads the destination's notes and status; a resumed or a first finalization goes on from here. */
    method ReadAndComplete(p: Pending, notesFound: bool, active: bool, owner: string, issuer: Option<string>, chainRefs: seq<Ref>,
                           ghost start: State, ghost soFar: seq<Event>)
      returns (done: bool, ghost events: seq<Event>)
      requires Now().step == Reading(p) && Run(start, soFar, Now())
      requires notesFound && active ==> Now().recovered
      modifies this, storage
      ensures Run(start, events, Now()) && Now().step.Idle?
      ensures done <==> notesFound && active && AllInScope(chainRefs, owner, issuer)
      ensures done ==> Now().store.pending.None? && Now().memory.None? && StoredActive(storage.Contents(), p)
    {
      hide Run, AllInScope, WalletStorage.Contents;
      if !notesFound || !active {
        events := Take(start, Now(), soFar, Throw);
        return false, events;
      }
      events := Take(start, Now(), soFar, Event.ReadActive);
      done, events := CompleteFinalization(p, owner, issuer, chainRefs, start, events);
    }

    /** Saves the record, sends, and saves it again when the transaction is mined. */
    method Submit(p: Pending, mined: Option<string>) returns (submitted: Option<Pending>, ghost events: seq<Event>)
      requires Now().step.Idle? && Now().first.None? && Complete(p)
      modifies this, storage
      ensures Run(old(Now()), events, Now()) && (mined.Some? ==> Now().recovered)
      ensures submitted == if mined.Some? then Some(SubmittedRecord(p, mined.value)) else None
      ensures Recorded(storage.Contents(), p, mined)
      ensures Now().step == if submitted.Some? then Reading(submitted.value) else Idle
    {
      ghost var before, txHash := Now(), if mined.Some? then mined.value else "";
      assert Run(before, [], before);
      hide Run, Enabled, Next, Apply, SubmittedRecord, Complete, Recorded, WalletStorage.Contents;
      SubmissionSteps(before, p, txHash);
      RecordLoads(before.store, p, None);
      SavePending(p);
      events := Take(before, before, [], Prepare(p));
      SubmissionSteps(Now(), p, txHash);
      events := Take(old(Now()), Now(), events, Send);
      SubmissionSteps(Now(), p, txHash);
      if mined.None? {
        submitted := None;
        events := Take(old(Now()), Now(), events, Throw);
        return;
      }
      events := Take(old(Now()), Now(), events, Land);
      submitted := Some(SubmittedRecord(p, mined.value));
      before := Now();
      SubmissionSteps(before, p, txHash);
      RecordLoads(before.store, p, mined);
      SavePending(submitted.value);
      events := Take(old(Now()), before, events, Mined(mined.value));
    }

    /** A whole first attempt. */
    method StartRootRecovery(p: Pending, mined: Option<string>, notesFound: bool, active: bool,
                             owner: string, issuer: Option<string>, chainRefs: seq<Ref>)
      returns (done: bool, ghost events: seq<Event>)
      requires Now().step.Idle? && Now().first.None? && Complete(p)
      requires notesFound && active ==> mined.Some?
      modifies this, storage
      ensures Run(old(Now()), events, Now()) && Now().step.Idle?
      ensures done <==> mined.Some? && notesFound && active && AllInScope(chainRefs, owner, issuer)
      ensures done ==> Now().store.pending.None? && Now().memory.None? && StoredActive(storage.Contents(), p.(recoveryTxHash := mined))
    {
      hide Run, AllInScope, SubmittedRecord, Complete, WalletStorage.Contents;
      var submitted;
      submitted, events := Submit(p, mined);
      if submitted.None? { return false, events; }
      done, events := ReadAndComplete(submitted.value, notesFound, active, owner, issuer, chainRefs, old(Now()), events);
      hide StoredActive;
      SubmittedStored(storage.Contents(), p, mined.value);
    }

    /** Goes on with the record in memory, or else in storage; without one, or without a passkey, it does nothing. */
    method ResumeRecovery(destinationOpens: bool, notesFound: bool, active: bool, owner: string, issuer: Option<string>, chainRefs: seq<Ref>)
      returns (done: bool, ghost events: seq<Event>)
      requires Now().step.Idle? && (notesFound && active ==> Now().recovered)
      modifies this, storage
      ensures Run(old(Now()), events, Now()) && Now().step.Idle?
      ensures done <==> Resumable(Held(old(Now()))) && destinationOpens && notesFound && active && AllInScope(chainRefs, owner, issuer)
      ensures done ==> Now().store.pending.None? && Now().memory.None? && StoredActive(storage.Contents(), Held(old(Now())).value)
    {
      events := [];
      assert Run(Now(), [], Now());
      hide Run, AllInScope, WalletStorage.Contents;
      var p := memory;
      if p.None? { p := storage.LoadPendingFinalization(); }
      assert p == Held(Now());
      if p.None? || !Present(p.value.target.publicKey) || !destinationOpens || !Present(p.value.recovered.rootCommitment) {
        return false, events;
      }
      events := Take(Now(), Now(), events, Resume);
      done, events := ReadAndComplete(p.value, notesFound, active, owner, issuer, chainRefs, old(Now()), events);
    }
  }
}
