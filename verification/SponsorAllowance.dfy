/**
  The sponsored allowance: five slots per credential and day, each spent by a nullifier that anyone holding
  the credential may emit. The client picks the least free slot, sends, and retries after a collision that
  the chain confirms.
 */
module SponsorAllowance {
  import opened Wrappers
  import opened Ledger

  const RATE_LIMIT := 0x4d414752
  const WINDOW_SECONDS := 86_400
  const SLOT_COUNT := 5
  const UNAVAILABLE := "Aztec block is unavailable while checking the sponsored verification allowance."
  const BAD_COUNT := "This login must request between one and five sponsored checks per credential."
  const WRONG_NOTE := "Credential status note does not match the selected credential."

  const NO_NOTE := "An authenticated credential status note is required to check the sponsored allowance."

  /** The authenticated status note of the selected credential. */
  datatype Allowance = Allowance(issuer: Field, secret: Field, credentialType: Field, claims: Field)

  /** A request for slots: the selected credential and the status note hinted for it, if any. */
  datatype AllowanceInput = AllowanceInput(
    issuer: Field, credentialType: Field, claims: Field, note: Option<(Field, Field, Field)>)

  function StatusFields(input: AllowanceInput): Result<Allowance> {
    match input.note
    case None => Err(NO_NOTE)
    case Some((secret, credentialType, claims)) =>
      if credentialType != input.credentialType || claims != input.claims
      then Err(WRONG_NOTE)
      else Ok(Allowance(input.issuer, secret, credentialType, claims))
  }

  function Window(timestamp: nat): nat { timestamp / WINDOW_SECONDS }

  function SlotNullifier(a: Allowance, window: nat, slot: nat): Field {
    Siloed(a.issuer, Poseidon(RATE_LIMIT, [a.secret, a.credentialType, a.claims, Value(window), Value(slot)]))
  }

  /** Credentials, windows and slots never share a nullifier. */
  lemma SlotNullifierInjective(a: Allowance, w: nat, s: nat, b: Allowance, v: nat, t: nat)
    requires SlotNullifier(a, w, s) == SlotNullifier(b, v, t)
    ensures a == b && w == v && s == t
  {
    var x := [a.secret, a.credentialType, a.claims, Value(w), Value(s)];
    var y := [b.secret, b.credentialType, b.claims, Value(v), Value(t)];
    assert x == y;
    assert x[0] == y[0] && x[1] == y[1] && x[2] == y[2] && x[3] == y[3] && x[4] == y[4];
  }

  predicate Free(a: Allowance, window: nat, slot: nat, spent: set<Field>) {
    SlotNullifier(a, window, slot) !in spent
  }

  /** The least free slot, or SLOT_COUNT. */
  function LeastFree(a: Allowance, window: nat, spent: set<Field>, from: nat): (slot: nat)
    requires from <= SLOT_COUNT
    ensures from <= slot <= SLOT_COUNT && (slot < SLOT_COUNT ==> Free(a, window, slot, spent))
    ensures forall k :: from <= k < slot ==> !Free(a, window, k, spent)
    decreases SLOT_COUNT - from
  {
    if from == SLOT_COUNT || Free(a, window, from, spent) then from else LeastFree(a, window, spent, from + 1)
  }

  /** How many of the first `upTo` slots are free. */
  function FreeCount(a: Allowance, window: nat, spent: set<Field>, upTo: nat): (n: nat)
    ensures n <= upTo
  {
    if upTo == 0 then 0
    else FreeCount(a, window, spent, upTo - 1) + if Free(a, window, upTo - 1, spent) then 1 else 0
  }

  datatype Selection =
    | Selected(slot: nat, nullifier: Field, resetsAt: nat)
    | Exhausted(resetsAt: nat, hasRemaining: bool)
    | Unchecked(error: string)

  /** The selection that the chain up to one block calls for, in one window. */
  function Select(a: Allowance, window: nat, spent: set<Field>, required: nat): Selection {
    var available := FreeCount(a, window, spent, SLOT_COUNT);
    var resetsAt := (window + 1) * WINDOW_SECONDS;
    if available < required then Exhausted(resetsAt, available > 0)
    else
      var slot := LeastFree(a, window, spent, 0);
      Selected(slot, SlotNullifier(a, window, slot), resetsAt)
  }

  /** The note is taken exactly when it is the selected credential's own: of its type and claims. */
  lemma StatusFieldsIff(input: AllowanceInput, a: Allowance)
    ensures StatusFields(input) == Ok(a) <==> input == AllowanceInput(a.issuer, a.credentialType, a.claims, Some((a.secret, a.credentialType, a.claims)))
  {
  }

  /** The free slots of a credential in a window. */
  function FreeSlots(a: Allowance, window: nat, spent: set<Field>, upTo: nat): set<nat> {
    set k: nat | k < upTo && Free(a, window, k, spent)
  }

  lemma {:induction false} FreeCountCounts(a: Allowance, window: nat, spent: set<Field>, upTo: nat)
    ensures FreeCount(a, window, spent, upTo) == |FreeSlots(a, window, spent, upTo)|
  {
    hide Free;
    if upTo > 0 {
      FreeCountCounts(a, window, spent, upTo - 1);
      var last := upTo - 1;
      assert FreeSlots(a, window, spent, upTo) == FreeSlots(a, window, spent, last) + if Free(a, window, last, spent) then {last} else {};
    }
  }

  /** The second at which a window ends: the first that is in no window up to this one. */
  predicate EndsAt(window: nat, end: nat) { Window(end) == window + 1 && (forall t: nat :: t < end ==> Window(t) <= window) }

  lemma WindowEnds(window: nat)
    ensures EndsAt(window, (window + 1) * WINDOW_SECONDS)
  {
    forall t: nat | t < (window + 1) * WINDOW_SECONDS ensures Window(t) <= window {
    }
  }

  /**
    What a selection means: granted exactly when enough slots are free, with the least of them; refused it
    says whether any is left; either way it says when the window ends.
   */
  lemma SelectMeans(a: Allowance, window: nat, spent: set<Field>, required: nat)
    requires 1 <= required <= SLOT_COUNT
    ensures var free := FreeSlots(a, window, spent, SLOT_COUNT);
            match Select(a, window, spent, required)
            case Selected(slot, nullifier, resetsAt) =>
              && required <= |free| && slot in free && (forall k <- free :: slot <= k)
              && nullifier == SlotNullifier(a, window, slot) && EndsAt(window, resetsAt)
            case Exhausted(resetsAt, hasRemaining) =>
              |free| < required && (hasRemaining <==> free != {}) && EndsAt(window, resetsAt)
            case Unchecked(_) => false
  {
    FreeCountCounts(a, window, spent, SLOT_COUNT);
    WindowEnds(window);
    hide SlotNullifier, FreeCount, EndsAt;
    var slot, free := LeastFree(a, window, spent, 0), FreeSlots(a, window, spent, SLOT_COUNT);
    if free != {} {
      var k :| k in free;
      assert Free(a, window, k, spent);
    }
  }

  lemma {:induction false} NoneFreeBelow(a: Allowance, window: nat, spent: set<Field>, slot: nat)
    requires forall k :: 0 <= k < slot ==> !Free(a, window, k, spent)
    ensures FreeCount(a, window, spent, slot) == 0
  {
    if slot > 0 { NoneFreeBelow(a, window, spent, slot - 1); }
  }

  datatype SendOutcome =
    | Sent
    | Collision(nullifier: Field)  // AVM simulation failed on this duplicate nullifier: nothing was broadcast
    | Unclear                      // any other failure: the transaction may still land

  /** A slot tried, and how its send ended. */
  datatype Attempt = Attempt(slot: nat, outcome: SendOutcome)

  /** The wallet's view of the chain, and the history of its sends. */
  class SponsorWallet {
    const node: Node
    const hasPxe: bool  // a local PXE proves against its own synced anchor block
    var anchor: nat
    ghost var attempts: seq<Attempt>
    ghost var spends: seq<Field>

    ghost predicate Valid()
      reads this, node
    {
      node.Valid() && 1 <= anchor <= |node.chain|
    }

    /** The oldest time any later read or proof of this wallet can use. */
    ghost function Earliest(): nat
      requires Valid()
      reads this, node
    {
      if hasPxe then node.chain[anchor - 1].timestamp else Tip(node.chain)
    }

    constructor (node: Node, hasPxe: bool)
      requires node.Valid()
      ensures Valid() && this.node == node && this.hasPxe == hasPxe && attempts == [] && spends == []
    {
      this.node, this.hasPxe, anchor, attempts, spends := node, hasPxe, 1, [], [];
    }

    /** Synchronizes the PXE and reads its anchor time, which may lag the tip. */
    method GetAnchorTimestamp() returns (timestamp: nat)
      requires Valid() && hasPxe
      modifies this`anchor, node
      ensures Valid() && Extends(node.chain, old(node.chain)) && old(anchor) <= anchor
      ensures timestamp == node.chain[anchor - 1].timestamp
    {
      anchor := |node.chain|;
      timestamp := node.chain[anchor - 1].timestamp;
    }

    /**
      Proves and sends one login with a slot, in the window of the proof's anchor. The chain refuses a
      duplicate nullifier, and a failed simulation broadcasts nothing.
     */
    method Send(a: Allowance, slot: nat) returns (outcome: SendOutcome, ghost window: nat)
      requires Valid()
      modifies this, node
      ensures Valid() && Extends(node.chain, old(node.chain)) && old(anchor) <= anchor
      ensures attempts == old(attempts) + [Attempt(slot, outcome)]
      ensures Window(old(Earliest())) <= window <= Window(Tip(node.chain))
      ensures outcome.Sent? ==> spends == old(spends) + [SlotNullifier(a, window, slot)]
                                && SlotNullifier(a, window, slot) in Nullifiers(node.chain) - Nullifiers(old(node.chain))
      ensures outcome.Collision? ==> spends == old(spends)
      ensures outcome.Unclear? ==> spends == old(spends) || spends == old(spends) + [SlotNullifier(a, window, slot)]
    {
      attempts := attempts + [Attempt(slot, Unclear)];
      outcome, window := Unclear, Window(Earliest());
      EarliestIsPast();
    }

    lemma EarliestIsPast()
      requires Valid()
      ensures Earliest() <= Tip(node.chain) && Window(Earliest()) <= Window(Tip(node.chain))
    {
    }

    /** The window of the proof's anchor, or else of the latest block, and the number of a block no earlier than the anchor. */
    method ReadWindow() returns (r: Option<(nat, nat)>)
      requires Valid()
      modifies this`anchor, node
      ensures Valid() && Extends(node.chain, old(node.chain)) && old(anchor) <= anchor
      ensures node.keepsBlocks ==> r.Some?
      ensures r.Some? ==> Window(old(Earliest())) <= r.value.0 <= Window(Tip(node.chain))
                          && |old(node.chain)| <= r.value.1 <= |node.chain| && anchor <= r.value.1
                          && r.value.0 == Window(node.chain[(if hasPxe then anchor else r.value.1) - 1].timestamp)
    {
      var anchorTimestamp: Option<nat> := None;
      if hasPxe {
        var t := GetAnchorTimestamp();
        anchorTimestamp := Some(t);
      }
      var n := node.GetBlockNumber();
      var block := node.GetBlockData(n);
      if block.None? { return None; }
      r := Some((Window(if anchorTimestamp.Some? then anchorTimestamp.value else block.value.timestamp), n));
    }

    method SelectUnusedSlot(input: AllowanceInput, required: int) returns (r: Selection, ghost window: nat, ghost spent: set<Field>)
      requires Valid()
      modifies this`anchor, node
      ensures Valid() && Extends(node.chain, old(node.chain)) && old(anchor) <= anchor
      ensures !(1 <= required <= SLOT_COUNT) || StatusFields(input).Err? ==> r.Unchecked?
      ensures node.keepsBlocks && 1 <= required <= SLOT_COUNT && StatusFields(input).Ok? ==> !r.Unchecked?
      ensures Window(old(Earliest())) <= window <= Window(Tip(node.chain))
      ensures Nullifiers(old(node.chain)) <= spent <= Nullifiers(node.chain)
      ensures !r.Unchecked? ==> Nullifiers(node.chain[..anchor]) <= spent && (hasPxe ==> window == Window(node.chain[anchor - 1].timestamp))
      ensures !r.Unchecked? ==> r == Select(StatusFields(input).value, window, spent, required)
    {
      hide Nullifiers, SlotNullifier, StatusFields, Select, Window, UNAVAILABLE, BAD_COUNT;
      window, spent := Window(Tip(node.chain)), Nullifiers(node.chain);
      EarliestIsPast();
      if !(1 <= required <= SLOT_COUNT) {
        r := Unchecked(BAD_COUNT);
        return;
      }
      if StatusFields(input).Err? {
        r := Unchecked(StatusFields(input).error);
        return;
      }
      r, window, spent := SelectChecked(StatusFields(input).value, required);
    }

    /** The block and window first, then the slots at that block. */
    method SelectChecked(a: Allowance, required: nat) returns (r: Selection, ghost window: nat, ghost spent: set<Field>)
      requires Valid()
      modifies this`anchor, node
      ensures Valid() && Extends(node.chain, old(node.chain)) && old(anchor) <= anchor
      ensures node.keepsBlocks ==> !r.Unchecked?
      ensures Window(old(Earliest())) <= window <= Window(Tip(node.chain))
      ensures Nullifiers(old(node.chain)) <= spent <= Nullifiers(node.chain)
      ensures !r.Unchecked? ==> Nullifiers(node.chain[..anchor]) <= spent && (hasPxe ==> window == Window(node.chain[anchor - 1].timestamp))
      ensures !r.Unchecked? ==> r == Select(a, window, spent, required)
    {
      hide Nullifiers, Select, Window, UNAVAILABLE;
      var read := ReadWindow();
      if read.None? {
        r := Unchecked(UNAVAILABLE);
        window, spent := Window(Tip(node.chain)), Nullifiers(node.chain);
        TimePasses();
        return;
      }
      var (w, n) := read.value;
      window := w;
      label seen:
      r := SelectAt(a, w, n, required);
      spent := Nullifiers(node.chain[..n]);
      TimePasses@seen();
      ChainGrows(node.chain[..n], old(node.chain));
      ChainGrows(node.chain, node.chain[..n]);
      ChainGrows(node.chain[..n], node.chain[..anchor]);
    }

    /** The selection in a window, by the slots at one block. */
    method SelectAt(a: Allowance, w: nat, n: nat, required: nat) returns (r: Selection)
      requires Valid() && n <= |node.chain|
      modifies node
      ensures Valid() && Extends(node.chain, old(node.chain)) && node.chain[..n] == old(node.chain)[..n]
      ensures !r.Unchecked? && r == Select(a, w, Nullifiers(node.chain[..n]), required)
    {
      hide Nullifiers, SlotNullifier, LeastFree, FreeCount, Orderly;
      var slot, available := ReadSlots(a, w, n);
      if available < required { return Exhausted((w + 1) * WINDOW_SECONDS, available > 0); }
      r := Selected(slot, SlotNullifier(a, w, slot), (w + 1) * WINDOW_SECONDS);
    }

    /** Looks all five slots up at one block: the least free one, and how many are free. */
    method ReadSlots(a: Allowance, w: nat, n: nat) returns (slot: nat, available: nat)
      requires Valid() && n <= |node.chain|
      modifies node
      ensures Valid() && Extends(node.chain, old(node.chain)) && node.chain[..n] == old(node.chain)[..n]
      ensures slot == LeastFree(a, w, Nullifiers(node.chain[..n]), 0)
      ensures available == FreeCount(a, w, Nullifiers(node.chain[..n]), SLOT_COUNT)
    {
      hide Nullifiers;
      ghost var spent := Nullifiers(node.chain[..n]);
      var witnesses: seq<bool> := [];
      available := 0;
      for i := 0 to SLOT_COUNT
        invariant Valid() && Extends(node.chain, old(node.chain)) && node.chain[..n] == old(node.chain)[..n]
        invariant |witnesses| == i && forall k :: 0 <= k < i ==> (witnesses[k] <==> !Free(a, w, k, spent))
        invariant available == FreeCount(a, w, spent, i)
      {
        var member := node.HasNullifier(n, SlotNullifier(a, w, i));
        witnesses := witnesses + [member];
        if !member { available := available + 1; }
      }
      slot := 0;
      while slot < SLOT_COUNT && witnesses[slot]
        invariant 0 <= slot <= SLOT_COUNT && forall k :: 0 <= k < slot ==> !Free(a, w, k, spent)
      {
        slot := slot + 1;
      }
    }

    /** Later, the wallet reads no earlier time, and what was spent stays spent. */
    twostate lemma TimePasses()
      requires old(Valid()) && Valid() && Extends(node.chain, old(node.chain)) && old(anchor) <= anchor
      ensures old(Earliest()) <= Earliest() <= Tip(node.chain) && old(Tip(node.chain)) <= Tip(node.chain)
      ensures Window(old(Earliest())) <= Window(Earliest()) <= Window(Tip(node.chain)) && Window(old(Tip(node.chain))) <= Window(Tip(node.chain))
      ensures old(Nullifiers(node.chain)) <= Nullifiers(node.chain)
    {
      ChainGrows(node.chain, old(node.chain));
    }

    /**
      Whether a reported duplicate nullifier is this slot's, under the selection or (when the proof crossed
      midnight) under the new anchor, and is on the chain. The message alone is not enough evidence.
     */
    method CollisionConfirmed(a: Allowance, slot: nat, selected: Field, reported: Field) returns (confirmed: bool)
      requires Valid()
      modifies this`anchor, node
      ensures Valid() && Extends(node.chain, old(node.chain)) && old(anchor) <= anchor
      ensures confirmed ==> reported in Nullifiers(node.chain)
      ensures confirmed && reported != selected ==>
                exists v: nat :: Window(old(Earliest())) <= v <= Window(Tip(node.chain)) && reported == SlotNullifier(a, v, slot)
      ensures reported == selected && reported in Nullifiers(old(node.chain)) ==> confirmed
      ensures reported == SlotNullifier(a, Window(Tip(node.chain)), slot) && reported in Nullifiers(old(node.chain)) ==>
                confirmed || !node.keepsBlocks || Window(old(Earliest())) != Window(Tip(node.chain))
    {
      hide Nullifiers, SlotNullifier;
      EarliestIsPast();
      var collided := selected;
      if reported != collided {
        var timestamp: nat;
        if hasPxe {
          timestamp := GetAnchorTimestamp();
        } else {
          var n := node.GetBlockNumber();
          var block := node.GetBlockData(n);
          if block.None? { return false; }
          timestamp := block.value.timestamp;
        }
        collided := SlotNullifier(a, Window(timestamp), slot);
        if reported != collided { return false; }
        assert Window(old(Earliest())) <= Window(timestamp) <= Window(Tip(node.chain));
      }
      confirmed := node.HasNullifierNow(collided);
      ChainGrows(node.chain, old(node.chain));
    }

    /**
      Sends with the selected slot and sorts the failure: only a confirmed collision may be retried, since
      after any other error the slot may be spent.
     */
    method TrySlot(a: Allowance, slot: nat, selected: Field) returns (done: Option<SendResult>, collision: Field, ghost outcome: SendOutcome)
      requires Valid()
      modifies this, node
      ensures Valid() && Extends(node.chain, old(node.chain)) && old(anchor) <= anchor
      ensures attempts == old(attempts) + [Attempt(slot, outcome)]
      ensures spends == old(spends) || Spent(a, slot, Window(old(Earliest())), Window(Tip(node.chain)), old(spends), spends)
      ensures done == Some(Delivered) <==> outcome.Sent?
      ensures outcome == Collision(selected) && selected in Nullifiers(old(node.chain)) ==> done.None?
      ensures match done
              case None => outcome == Collision(collision) && spends == old(spends) && collision in Nullifiers(node.chain)
                           && (collision == selected || InWindows(a, slot, collision, Window(old(Earliest())), Window(Tip(node.chain))))
              case Some(r) => r.Failed?
                              || (r.Delivered? && spends != old(spends) && spends[|old(spends)|] in Nullifiers(node.chain) - Nullifiers(old(node.chain)))
    {
      hide Nullifiers, SlotNullifier, Orderly;
      var sending, proved := Send(a, slot);
      outcome := sending;
      label sent:
      TimePasses();
      collision := Value(0);
      match sending {
        case Sent => done := Some(Delivered);
        case Unclear => done := Some(Failed);
        case Collision(reported) =>
          var confirmed := CollisionConfirmed(a, slot, selected, reported);
          TimePasses@sent();
          if confirmed { done, collision := None, reported; } else { done := Some(Failed); }
      }
    }

    /**
      One login send. Under any concurrent spends it tries at most five slots and spends at most one of the
      credential's, the last one tried; while the day does not change, the tried slots strictly increase, and
      it does not give up with the last collision. It refuses only a day whose five slots are all spent.
     */
    method SendWithAvailableSlot(input: AllowanceInput) returns (r: SendResult)
      requires Valid()
      modifies this, node
      ensures Valid() && Extends(node.chain, old(node.chain)) && old(anchor) <= anchor
      ensures old(attempts) <= attempts && |attempts| <= |old(attempts)| + SLOT_COUNT
      ensures Outcome(input, r, attempts[|old(attempts)|..], Window(old(Earliest())), Window(Tip(node.chain)),
                      old(spends), spends, Nullifiers(old(node.chain)), Nullifiers(node.chain))
      ensures r.NoAllowance? ==>
                exists v: nat :: Window(old(Earliest())) <= v <= Window(Tip(node.chain)) && UsedUp(input, v, Nullifiers(node.chain), r)
      ensures r.NotChecked? ==> StatusFields(input).Err? || !node.keepsBlocks
      ensures Window(old(Earliest())) == Window(Tip(node.chain)) ==>
                !r.CollidedAgain? && Increasing(attempts[|old(attempts)|..])
    {
      hide Nullifiers, SlotNullifier, StatusFields, Orderly, LeastFree, FreeCount, Free, InWindows, UsedUp, Spent,
           Climbing, Outcome, Increasing, UNAVAILABLE, BAD_COUNT, WRONG_NOTE, NO_NOTE, Window;
      ghost var w := Window(Earliest());
      EarliestIsPast();
      var lastCollision := Value(0);
      ghost var tried: seq<Attempt> := [];
      ClimbingStarts(input, lastCollision, w, Window(Tip(node.chain)), Nullifiers(node.chain));
      for attempt := 0 to SLOT_COUNT + 1
        invariant Valid() && Extends(node.chain, old(node.chain)) && old(anchor) <= anchor
        invariant attempts == old(attempts) + tried && |tried| == attempt <= SLOT_COUNT
        invariant spends == old(spends)
        invariant w <= Window(Earliest()) <= Window(Tip(node.chain))
        invariant Climbing(input, tried, lastCollision, w, Window(Tip(node.chain)), Nullifiers(old(node.chain)), Nullifiers(node.chain))
      {
        // Rechecked even after the preflight: earlier sends may have advanced the day or the state.
        label round:
        assert attempts[|old(attempts)|..] == tried;
        TimePasses();
        var selected, window, spent := SelectUnusedSlot(input, 1);
        TimePasses@round();
        ClimbingWaits(input, tried, lastCollision, w, old@round(Window(Tip(node.chain))), Window(Tip(node.chain)),
                      Nullifiers(old(node.chain)), Nullifiers(old@round(node.chain)), Nullifiers(node.chain));
        ClimbingStops(input, tried, lastCollision, w, Window(Tip(node.chain)), spends, Nullifiers(old(node.chain)), Nullifiers(node.chain));
        match selected {
          case Unchecked(e) => return NotChecked(e);
          case Exhausted(resetsAt, hasRemaining) =>
            ExhaustedIsUsedUp(input, window, spent, Nullifiers(node.chain));
            return NoAllowance(resetsAt, hasRemaining);
          case Selected(_, _, _) =>
        }
        var a := StatusFields(input).value;
        var slot := selected.slot;
        SelectedIsLeast(a, window, spent);
        if attempt == SLOT_COUNT {
          SixthRound(input, tried, lastCollision, w, old@round(Window(Tip(node.chain))), window,
                     Nullifiers(old(node.chain)), Nullifiers(old@round(node.chain)), spent);
          return CollidedAgain(lastCollision);
        }
        label sending:
        var done, collision, outcome := TrySlot(a, slot, selected.nullifier);
        TimePasses@sending();
        ClimbingTries(input, tried, lastCollision, w, old@round(Window(Tip(node.chain))), Window(old@sending(Earliest())), Window(Tip(node.chain)),
                      window, slot, spent, outcome, Nullifiers(old(node.chain)), Nullifiers(old@round(node.chain)), Nullifiers(node.chain));
        tried := tried + [Attempt(slot, outcome)];
        assert attempts[|old(attempts)|..] == tried;
        if done.Some? {
          LastTry(input, done.value, tried, w, Window(old@sending(Earliest())), Window(Tip(node.chain)), slot, outcome, spends, old(spends),
                  Nullifiers(old(node.chain)), Nullifiers(old@sending(node.chain)), Nullifiers(node.chain));
          return done.value;
        }
        lastCollision := collision;
      }
      assert false;
    }
  }

  datatype SendResult =
    | Delivered
    | NoAllowance(resetsAt: nat, hasRemaining: bool)
    | NotChecked(error: string)
    | Failed                              // the error of the send, with an uncertain or unconfirmed cause
    | CollidedAgain(nullifier: Field)     // the last collision, after five rounds

  /** All five slots of the day are spent, and the result says when the next day starts. */
  ghost predicate UsedUp(input: AllowanceInput, window: nat, spent: set<Field>, r: SendResult) {
    && StatusFields(input).Ok? && r == NoAllowance((window + 1) * WINDOW_SECONDS, false)
    && forall k :: 0 <= k < SLOT_COUNT ==> !Free(StatusFields(input).value, window, k, spent)
  }

  lemma ExhaustedIsUsedUp(input: AllowanceInput, w: nat, before: set<Field>, after: set<Field>)
    requires StatusFields(input).Ok? && Select(StatusFields(input).value, w, before, 1).Exhausted? && before <= after
    ensures UsedUp(input, w, after, NoAllowance((w + 1) * WINDOW_SECONDS, false))
  {
    hide SlotNullifier, StatusFields;
    var a := StatusFields(input).value;
    NoneFree(a, w, before, SLOT_COUNT);
    forall k | 0 <= k < SLOT_COUNT ensures !Free(a, w, k, after) { assert !Free(a, w, k, before); }
  }

  lemma {:induction false} NoneFree(a: Allowance, window: nat, spent: set<Field>, upTo: nat)
    requires FreeCount(a, window, spent, upTo) == 0
    ensures forall k :: 0 <= k < upTo ==> !Free(a, window, k, spent)
  {
    if upTo > 0 { NoneFree(a, window, spent, upTo - 1); }
  }

  ghost predicate Increasing(tried: seq<Attempt>) {
    forall i, j :: 0 <= i < j < |tried| ==> tried[i].slot < tried[j].slot
  }

  ghost predicate AllCollided(tried: seq<Attempt>) {
    forall i :: 0 <= i < |tried| ==> tried[i].outcome.Collision?
  }

  /** The slot was the least free one in one of these windows, at a moment between these two. */
  ghost predicate Picked(input: AllowanceInput, slot: nat, from: nat, upTo: nat, early: set<Field>, late: set<Field>) {
    && StatusFields(input).Ok? && slot < SLOT_COUNT
    && exists w: nat, spent: set<Field> ::
         from <= w <= upTo && early <= spent <= late && slot == LeastFree(StatusFields(input).value, w, spent, 0)
  }

  ghost predicate Chosen(input: AllowanceInput, tried: seq<Attempt>, from: nat, upTo: nat, early: set<Field>, late: set<Field>) {
    forall i :: 0 <= i < |tried| ==> Picked(input, tried[i].slot, from, upTo, early, late)
  }

  lemma ChosenLater(input: AllowanceInput, tried: seq<Attempt>, from: nat, upTo: nat, longer: nat, early: set<Field>, late: set<Field>, later: set<Field>)
    requires Chosen(input, tried, from, upTo, early, late) && upTo <= longer && late <= later
    ensures Chosen(input, tried, from, longer, early, later)
  {
    hide StatusFields, LeastFree;
    forall i | 0 <= i < |tried| ensures Picked(input, tried[i].slot, from, longer, early, later) {
      assert Picked(input, tried[i].slot, from, upTo, early, late);
    }
  }

  lemma ChosenNext(input: AllowanceInput, tried: seq<Attempt>, window: nat, slot: nat, spent: set<Field>, outcome: SendOutcome,
                   from: nat, upTo: nat, longer: nat, early: set<Field>, late: set<Field>, later: set<Field>)
    requires Chosen(input, tried, from, upTo, early, late) && upTo <= longer && late <= later
    requires StatusFields(input).Ok? && from <= window <= upTo && early <= spent <= late
    requires slot == LeastFree(StatusFields(input).value, window, spent, 0) < SLOT_COUNT
    ensures Chosen(input, tried + [Attempt(slot, outcome)], from, longer, early, later)
  {
    hide StatusFields, LeastFree;
    ChosenLater(input, tried, from, upTo, longer, early, late, later);
    assert Picked(input, slot, from, longer, early, later);
    hide Picked;
  }

  /** The slots tried so far increase, and all up to the last of them are spent in the window. */
  ghost predicate ClimbedTo(a: Allowance, window: nat, tried: seq<Attempt>, spent: set<Field>) {
    && tried != [] && Increasing(tried) && tried[|tried| - 1].slot < SLOT_COUNT
    && forall s :: 0 <= s <= tried[|tried| - 1].slot ==> !Free(a, window, s, spent)
  }

  /** One more slot nullifier of the credential was spent, for this slot and a day within these. */
  ghost predicate Spent(a: Allowance, slot: nat, from: nat, upTo: nat, before: seq<Field>, after: seq<Field>) {
    |after| == |before| + 1 && before <= after && InWindows(a, slot, after[|before|], from, upTo)
  }

  lemma SpentLonger(a: Allowance, slot: nat, from: nat, upTo: nat, earlier: nat, later: nat, before: seq<Field>, after: seq<Field>)
    requires earlier <= from && upTo <= later && Spent(a, slot, from, upTo, before, after)
    ensures Spent(a, slot, earlier, later, before, after)
  {
    hide SlotNullifier;
  }

  ghost predicate InWindows(a: Allowance, slot: nat, nullifier: Field, from: nat, upTo: nat) {
    exists w: nat :: from <= w <= upTo && nullifier == SlotNullifier(a, w, slot)
  }

  lemma CollisionInWindow(a: Allowance, slot: nat, nullifier: Field, w: nat, selected: Field)
    requires selected == SlotNullifier(a, w, slot)
    requires nullifier == selected || InWindows(a, slot, nullifier, w, w)
    ensures nullifier == SlotNullifier(a, w, slot)
  {
  }

  /**
    What a send reports, against the attempts, what it spent and what the chain gained meanwhile: every slot
    tried was the least free one, all attempts but the last collided, and the result tells how the last ended.
   */
  ghost predicate Outcome(input: AllowanceInput, r: SendResult, tried: seq<Attempt>, from: nat, upTo: nat,
                          before: seq<Field>, after: seq<Field>, emittedBefore: set<Field>, emittedAfter: set<Field>) {
    && (StatusFields(input).Err? ==> r.NotChecked? && tried == [])
    && Chosen(input, tried, from, upTo, emittedBefore, emittedAfter)
    && (match r
        case Delivered => tried != [] && tried[|tried| - 1].outcome.Sent? && AllCollided(tried[..|tried| - 1])
        case Failed => tried != [] && !tried[|tried| - 1].outcome.Sent? && AllCollided(tried[..|tried| - 1])
        case CollidedAgain(nullifier) =>
          && |tried| == SLOT_COUNT && AllCollided(tried)
          && tried[|tried| - 1].outcome == Collision(nullifier) && nullifier in emittedAfter
        case _ => AllCollided(tried))
    && (after != before ==>
          (r.Delivered? || r.Failed?) && StatusFields(input).Ok? && tried != []
          && Spent(StatusFields(input).value, tried[|tried| - 1].slot, from, upTo, before, after))
    && (r.Delivered? ==> after != before && after[|before|] in emittedAfter - emittedBefore)
  }

  /** The state between two rounds: everything tried collided, and while the day lasts, the slots climb. */
  ghost predicate Climbing(input: AllowanceInput, tried: seq<Attempt>, lastCollision: Field, w: nat, tip: nat, early: set<Field>, now: set<Field>) {
    && AllCollided(tried) && Chosen(input, tried, w, tip, early, now)
    && (tried != [] ==>
          && StatusFields(input).Ok? && lastCollision in now && tried[|tried| - 1].outcome == Collision(lastCollision)
          && (tip == w ==> ClimbedTo(StatusFields(input).value, w, tried, now)))
  }

  lemma ClimbingStarts(input: AllowanceInput, lastCollision: Field, w: nat, tip: nat, now: set<Field>)
    ensures Climbing(input, [], lastCollision, w, tip, now, now)
  {
  }

  lemma ClimbingWaits(input: AllowanceInput, tried: seq<Attempt>, lastCollision: Field, w: nat, tip: nat, later: nat,
                      early: set<Field>, before: set<Field>, now: set<Field>)
    requires Climbing(input, tried, lastCollision, w, tip, early, before) && w <= tip <= later && before <= now
    ensures Climbing(input, tried, lastCollision, w, later, early, now)
  {
    hide StatusFields, SlotNullifier, Chosen;
    ChosenLater(input, tried, w, tip, later, early, before, now);
    if tried != [] && later == w {
      var a := StatusFields(input).value;
      forall s | 0 <= s <= tried[|tried| - 1].slot ensures !Free(a, w, s, now) { assert !Free(a, w, s, before); }
    }
  }

  /** A round that does not send reports a failed check or a used-up day. */
  lemma ClimbingStops(input: AllowanceInput, tried: seq<Attempt>, lastCollision: Field, w: nat, tip: nat, spends: seq<Field>,
                      early: set<Field>, now: set<Field>)
    requires Climbing(input, tried, lastCollision, w, tip, early, now)
    ensures tip == w ==> Increasing(tried)
    ensures forall e :: Outcome(input, NotChecked(e), tried, w, tip, spends, spends, early, now)
    ensures StatusFields(input).Ok? ==> forall t, more :: Outcome(input, NoAllowance(t, more), tried, w, tip, spends, spends, early, now)
    ensures StatusFields(input).Ok? && |tried| == SLOT_COUNT ==>
              Outcome(input, CollidedAgain(lastCollision), tried, w, tip, spends, spends, early, now)
  {
    hide StatusFields, SlotNullifier, Free, Spent;
    assert tried != [] ==> Picked(input, tried[0].slot, w, tip, early, now);
  }

  /** In the sixth round a free slot means that the day has changed. */
  lemma SixthRound(input: AllowanceInput, tried: seq<Attempt>, lastCollision: Field, w: nat, tip: nat, window: nat,
                   early: set<Field>, before: set<Field>, spent: set<Field>)
    requires Climbing(input, tried, lastCollision, w, tip, early, before) && |tried| == SLOT_COUNT && before <= spent
    requires LeastFree(StatusFields(input).value, window, spent, 0) < SLOT_COUNT
    ensures tip != w || window != w
  {
    hide StatusFields, SlotNullifier;
    if tip == w && window == w { TopReached(StatusFields(input).value, w, tried, before, spent); }
  }

  /** A send with the least free slot keeps climbing, and a confirmed collision keeps the state. */
  lemma ClimbingTries(input: AllowanceInput, tried: seq<Attempt>, lastCollision: Field, w: nat, tip: nat, proving: nat, later: nat,
                      window: nat, slot: nat, spent: set<Field>, outcome: SendOutcome, early: set<Field>, before: set<Field>, now: set<Field>)
    requires Climbing(input, tried, lastCollision, w, tip, early, before) && StatusFields(input).Ok?
    requires w <= tip <= later && w <= window <= later && w <= proving && early <= before <= spent <= now
    requires slot == LeastFree(StatusFields(input).value, window, spent, 0) < SLOT_COUNT
    ensures var next := tried + [Attempt(slot, outcome)];
            && AllCollided(tried) && Chosen(input, next, w, later, early, now) && (later == w ==> Increasing(next))
    ensures outcome.Collision? && outcome.nullifier in now
            && (outcome.nullifier == SlotNullifier(StatusFields(input).value, window, slot)
                || InWindows(StatusFields(input).value, slot, outcome.nullifier, proving, later)) ==>
              Climbing(input, tried + [Attempt(slot, outcome)], outcome.nullifier, w, later, early, now)
  {
    hide StatusFields, SlotNullifier, Chosen, LeastFree, ClimbedTo, Free, InWindows;
    var a := StatusFields(input).value;
    ChosenLater(input, tried, w, tip, later, early, before, now);
    ChosenNext(input, tried, window, slot, spent, outcome, w, later, later, early, now, now);
    if later == w {
      ClimbOn(a, w, tried, slot, outcome, before, spent);
      if outcome.Collision? && outcome.nullifier in now
         && (outcome.nullifier == SlotNullifier(a, w, slot) || InWindows(a, slot, outcome.nullifier, proving, later)) {
        if proving == w {
          CollisionInWindow(a, slot, outcome.nullifier, w, SlotNullifier(a, w, slot));
        } else {
          NoWindow(a, slot, outcome.nullifier, proving, later);
        }
        Climb(a, w, tried, slot, outcome, before, spent, now);
      }
    }
  }

  lemma NoWindow(a: Allowance, slot: nat, nullifier: Field, from: nat, upTo: nat)
    requires upTo < from
    ensures !InWindows(a, slot, nullifier, from, upTo)
  {
  }

  /** The last send decides the result. */
  lemma LastTry(input: AllowanceInput, r: SendResult, tried: seq<Attempt>, w: nat, proving: nat, tip: nat, slot: nat, outcome: SendOutcome,
                after: seq<Field>, before: seq<Field>, early: set<Field>, seen: set<Field>, now: set<Field>)
    requires StatusFields(input).Ok? && tried != [] && tried[|tried| - 1] == Attempt(slot, outcome) && w <= proving
    requires AllCollided(tried[..|tried| - 1]) && Chosen(input, tried, w, tip, early, now) && early <= seen
    requires (r.Delivered? && outcome.Sent?) || (r.Failed? && !outcome.Sent?)
    requires after == before || Spent(StatusFields(input).value, slot, proving, tip, before, after)
    requires r.Delivered? ==> after != before && after[|before|] in now - seen
    ensures Outcome(input, r, tried, w, tip, before, after, early, now)
  {
    hide StatusFields, SlotNullifier, Chosen, AllCollided;
    if after != before { SpentLonger(StatusFields(input).value, slot, proving, tip, w, tip, before, after); }
    hide Spent;
  }

  /** What a selection of one slot means: the least free slot, at a time when it was free. */
  lemma SelectedIsLeast(a: Allowance, w: nat, spent: set<Field>)
    requires Select(a, w, spent, 1).Selected?
    ensures LeastFree(a, w, spent, 0) < SLOT_COUNT
  {
    hide SlotNullifier;
    var slot := LeastFree(a, w, spent, 0);
    if slot == SLOT_COUNT { NoneFreeBelow(a, w, spent, slot); }
  }

  /** The next slot lies above those tried, whether or not the send succeeds. */
  lemma ClimbOn(a: Allowance, w: nat, tried: seq<Attempt>, slot: nat, outcome: SendOutcome, before: set<Field>, spent: set<Field>)
    requires tried == [] || ClimbedTo(a, w, tried, before)
    requires before <= spent && slot == LeastFree(a, w, spent, 0) < SLOT_COUNT
    ensures Increasing(tried + [Attempt(slot, outcome)])
    ensures tried != [] ==> tried[|tried| - 1].slot < slot
  {
    hide SlotNullifier;
    assert tried != [] && slot <= tried[|tried| - 1].slot ==> !Free(a, w, slot, before);
    assert !Free(a, w, slot, before) ==> !Free(a, w, slot, spent);
    var next := tried + [Attempt(slot, outcome)];
    forall i, j | 0 <= i < j < |next| ensures next[i].slot < next[j].slot {
      assert next[i] == tried[i];
      if j == |tried| && i < j - 1 { assert tried[i].slot < tried[j - 1].slot; }
    }
  }

  lemma Climb(a: Allowance, w: nat, tried: seq<Attempt>, slot: nat, outcome: SendOutcome,
              before: set<Field>, spent: set<Field>, after: set<Field>)
    requires tried == [] || ClimbedTo(a, w, tried, before)
    requires before <= spent <= after && slot == LeastFree(a, w, spent, 0) < SLOT_COUNT
    requires SlotNullifier(a, w, slot) in after
    ensures ClimbedTo(a, w, tried + [Attempt(slot, outcome)], after)
  {
    hide SlotNullifier;
    ClimbOn(a, w, tried, slot, outcome, before, spent);
    forall s | 0 <= s <= slot ensures !Free(a, w, s, after) {
      if s < slot { assert !Free(a, w, s, spent); }
    }
  }

  /** After five climbing rounds every slot is spent. */
  lemma TopReached(a: Allowance, w: nat, tried: seq<Attempt>, before: set<Field>, spent: set<Field>)
    requires ClimbedTo(a, w, tried, before) && |tried| == SLOT_COUNT && before <= spent
    ensures LeastFree(a, w, spent, 0) == SLOT_COUNT
  {
    hide SlotNullifier;
    assert tried[0].slot < tried[1].slot < tried[2].slot < tried[3].slot < tried[4].slot;
    assert tried[4].slot == 4;
    var slot := LeastFree(a, w, spent, 0);
    assert slot < SLOT_COUNT ==> !Free(a, w, slot, before);
    assert !Free(a, w, slot, before) ==> !Free(a, w, slot, spent);
  }
}
