/**
  Any number of wallets sharing sponsored allowances on one chain. Each selects from some block it has seen
  and sends later; logins land, collide or get lost in any order, each in the day it was selected for.
 */
module SponsorClients {
  import opened Ledger
  import opened SponsorAllowance

  type ClientId = nat

  datatype Pending = Pending(allowance: Allowance, window: nat, slot: nat)

  /** The chain, the selections not yet settled, and the logins that landed, oldest first. */
  datatype State = State(chain: Chain, pending: map<ClientId, Pending>, landed: seq<Pending>)

  datatype Event =
    | Select(client: ClientId, allowance: Allowance, window: nat, checkedAt: nat)
    | Land(client: ClientId, timestamp: nat)
    | Collide(client: ClientId)
    | GiveUp(client: ClientId)
    | Unrelated(block: Block)

  ghost predicate NoSlots(nullifiers: set<Field>) {
    forall a: Allowance, w: nat, t: nat :: SlotNullifier(a, w, t) !in nullifiers
  }

  ghost predicate Enabled(s: State, e: Event) {
    && s.chain != []
    && match e
       case Select(c, a, w, n) => 0 < n <= |s.chain| && SponsorAllowance.Select(a, w, Nullifiers(s.chain[..n]), 1).Selected?
       case Land(c, timestamp) =>
         && c in s.pending && Tip(s.chain) <= timestamp
         && Free(s.pending[c].allowance, s.pending[c].window, s.pending[c].slot, Nullifiers(s.chain))
       case Collide(c) =>
         && c in s.pending
         && !Free(s.pending[c].allowance, s.pending[c].window, s.pending[c].slot, Nullifiers(s.chain))
       case GiveUp(c) => c in s.pending
       case Unrelated(block) => Tip(s.chain) <= block.timestamp && NoSlots(block.nullifiers)
  }

  function Next(s: State, e: Event): State
    requires Enabled(s, e)
  {
    match e
    case Select(c, a, w, n) =>
      s.(pending := s.pending[c := Pending(a, w, SponsorAllowance.Select(a, w, Nullifiers(s.chain[..n]), 1).slot)])
    case Land(c, timestamp) =>
      var p := s.pending[c];
      State(s.chain + [Block(timestamp, {SlotNullifier(p.allowance, p.window, p.slot)})], s.pending - {c}, s.landed + [p])
    case Collide(c) => s.(pending := s.pending - {c})
    case GiveUp(c) => s.(pending := s.pending - {c})
    case Unrelated(block) => s.(chain := s.chain + [block])
  }

  ghost predicate Start(s: State) {
    Orderly(s.chain) && NoSlots(Nullifiers(s.chain)) && s.pending == map[] && s.landed == []
  }

  ghost predicate Run(start: State, events: seq<Event>, end: State)
    decreases |events|
  {
    if events == [] then end == start
    else Enabled(start, events[0]) && Run(Next(start, events[0]), events[1..], end)
  }

  // ----- what is spent -----

  /** The slots at which logins of one credential and day landed, in landing order. */
  function Slots(landed: seq<Pending>, a: Allowance, w: nat): seq<nat> {
    if landed == [] then []
    else
      var last := landed[|landed| - 1];
      Slots(landed[..|landed| - 1], a, w) + if last.allowance == a && last.window == w then [last.slot] else []
  }

  /** The first n slots. */
  function UpTo(n: nat): seq<nat> { seq(n, i => i) }

  /** The used slots are exactly those below the least free one. */
  ghost predicate UsedIsPrefix(a: Allowance, w: nat, spent: set<Field>) {
    forall t: nat :: SlotNullifier(a, w, t) in spent <==> t < LeastFree(a, w, spent, 0)
  }

  ghost predicate AllPrefixes(spent: set<Field>) {
    forall a: Allowance, w: nat :: UsedIsPrefix(a, w, spent)
  }

  ghost predicate InOrder(s: State, spent: set<Field>) {
    forall a: Allowance, w: nat :: Slots(s.landed, a, w) == UpTo(LeastFree(a, w, spent, 0))
  }

  ghost predicate Waiting(s: State, spent: set<Field>) {
    forall c :: c in s.pending ==>
      s.pending[c].slot < SLOT_COUNT && SpentBelow(s.pending[c], spent)
  }

  ghost predicate SpentBelow(p: Pending, spent: set<Field>) {
    forall t: nat :: t < p.slot ==> !Free(p.allowance, p.window, t, spent)
  }

  ghost predicate Snapshots(chain: Chain) {
    forall n :: 0 < n <= |chain| ==> AllPrefixes(Nullifiers(chain[..n]))
  }

  ghost predicate Inv(s: State) {
    && Orderly(s.chain) && Snapshots(s.chain)
    && InOrder(s, Nullifiers(s.chain)) && Waiting(s, Nullifiers(s.chain))
  }

  // ----- every run keeps it -----

  lemma Appended(chain: Chain, block: Block)
    requires Orderly(chain) && Tip(chain) <= block.timestamp
    ensures Orderly(chain + [block]) && Nullifiers(chain + [block]) == Nullifiers(chain) + block.nullifiers
  {
    assert (chain + [block])[..|chain|] == chain;
  }

  lemma SnapshotsKept(chain: Chain, block: Block)
    requires Snapshots(chain) && AllPrefixes(Nullifiers(chain + [block]))
    ensures Snapshots(chain + [block])
  {
    hide Nullifiers, AllPrefixes;
    var next := chain + [block];
    forall n | 0 < n <= |next| ensures AllPrefixes(Nullifiers(next[..n])) {
      if n <= |chain| { assert next[..n] == chain[..n]; } else { assert next[..n] == next; }
    }
  }

  /** Looking at an emitted set, only membership of the five slots counts. */
  lemma {:induction false} SameLeastFree(a: Allowance, w: nat, spent: set<Field>, after: set<Field>, from: nat)
    requires from <= SLOT_COUNT
    requires forall t: nat :: SlotNullifier(a, w, t) in spent <==> SlotNullifier(a, w, t) in after
    ensures LeastFree(a, w, spent, from) == LeastFree(a, w, after, from)
    decreases SLOT_COUNT - from
  {
    hide SlotNullifier;
    if from < SLOT_COUNT { SameLeastFree(a, w, spent, after, from + 1); }
  }

  /** Spending the least free slot of a credential and day moves its least free slot up by one. */
  lemma SpendLeastFree(a: Allowance, w: nat, spent: set<Field>, after: set<Field>)
    requires UsedIsPrefix(a, w, spent) && LeastFree(a, w, spent, 0) < SLOT_COUNT
    requires after == spent + {SlotNullifier(a, w, LeastFree(a, w, spent, 0))}
    ensures LeastFree(a, w, after, 0) == LeastFree(a, w, spent, 0) + 1 && UsedIsPrefix(a, w, after)
  {
    var slot := LeastFree(a, w, spent, 0);
    forall t: nat ensures SlotNullifier(a, w, t) in after <==> t <= slot {
      if SlotNullifier(a, w, t) == SlotNullifier(a, w, slot) { SlotNullifierInjective(a, w, t, a, w, slot); }
    }
    hide SlotNullifier;
    var least := LeastFree(a, w, after, 0);
    assert least < SLOT_COUNT ==> Free(a, w, least, after);
  }

  lemma SelectKeeps(s: State, e: Event)
    requires Inv(s) && Enabled(s, e) && e.Select?
    ensures Inv(Next(s, e))
  {
    var a, w, seen := e.allowance, e.window, Nullifiers(s.chain[..e.checkedAt]);
    SelectedIsLeast(a, w, seen);
    ChainGrows(s.chain, s.chain[..e.checkedAt]);
    hide Nullifiers, SlotNullifier, Snapshots;
    var slot := LeastFree(a, w, seen, 0);
    assert slot == Next(s, e).pending[e.client].slot;
    forall t: nat | t < slot ensures !Free(a, w, t, Nullifiers(s.chain)) {
      assert !Free(a, w, t, seen);
    }
  }

  /** A login that lands takes the slot numbered by how many landed before it in that day. */
  lemma LandsNext(s: State, c: ClientId)
    requires Inv(s) && c in s.pending && Free(s.pending[c].allowance, s.pending[c].window, s.pending[c].slot, Nullifiers(s.chain))
    ensures var p := s.pending[c];
            p.slot == LeastFree(p.allowance, p.window, Nullifiers(s.chain), 0) == |Slots(s.landed, p.allowance, p.window)|
  {
    var spent, p := Nullifiers(s.chain), s.pending[c];
    assert s.chain[..|s.chain|] == s.chain;
    assert AllPrefixes(spent);
    assert UsedIsPrefix(p.allowance, p.window, spent);
    hide Nullifiers, SlotNullifier, Snapshots;
    var least := LeastFree(p.allowance, p.window, spent, 0);
    assert Slots(s.landed, p.allowance, p.window) == UpTo(least);
    assert SpentBelow(p, spent);
  }

  lemma LandKeeps(s: State, e: Event)
    requires Inv(s) && Enabled(s, e) && e.Land?
    ensures Inv(Next(s, e))
  {
    var p, spent := s.pending[e.client], Nullifiers(s.chain);
    LandsNext(s, e.client);
    var block := Block(e.timestamp, {SlotNullifier(p.allowance, p.window, p.slot)});
    Appended(s.chain, block);
    var next := Next(s, e);
    var after := Nullifiers(next.chain);
    assert s.chain[..|s.chain|] == s.chain;
    assert AllPrefixes(spent);
    hide Nullifiers, Snapshots;
    forall a: Allowance, w: nat ensures UsedIsPrefix(a, w, after) && Slots(next.landed, a, w) == UpTo(LeastFree(a, w, after, 0)) {
      LandMoves(s.landed, p, a, w, spent, after);
      assert next.landed == s.landed + [p];
    }
    assert AllPrefixes(after);
    SnapshotsKept(s.chain, block);
    StillWaiting(s, next, spent, after);
  }

  lemma StillWaiting(s: State, next: State, spent: set<Field>, after: set<Field>)
    requires Waiting(s, spent) && spent <= after
    requires forall c :: c in next.pending ==> c in s.pending && next.pending[c] == s.pending[c]
    ensures Waiting(next, after)
  {
    hide SlotNullifier, SpentBelow;
    forall c | c in next.pending ensures next.pending[c].slot < SLOT_COUNT && SpentBelow(next.pending[c], after) {
      StaySpent(s.pending[c], spent, after);
    }
  }

  lemma StaySpent(p: Pending, spent: set<Field>, after: set<Field>)
    requires SpentBelow(p, spent) && spent <= after
    ensures SpentBelow(p, after)
  {
    hide SlotNullifier;
    forall t: nat | t < p.slot ensures !Free(p.allowance, p.window, t, after) {
      assert !Free(p.allowance, p.window, t, spent);
    }
  }

  lemma LandMoves(landed: seq<Pending>, p: Pending, a: Allowance, w: nat, spent: set<Field>, after: set<Field>)
    requires UsedIsPrefix(a, w, spent) && UsedIsPrefix(p.allowance, p.window, spent)
    requires Slots(landed, a, w) == UpTo(LeastFree(a, w, spent, 0))
    requires p.slot == LeastFree(p.allowance, p.window, spent, 0) < SLOT_COUNT
    requires after == spent + {SlotNullifier(p.allowance, p.window, p.slot)}
    ensures UsedIsPrefix(a, w, after) && Slots(landed + [p], a, w) == UpTo(LeastFree(a, w, after, 0))
  {
    assert (landed + [p])[..|landed|] == landed;
    if p.allowance == a && p.window == w {
      SpendLeastFree(a, w, spent, after);
    } else {
      forall t: nat ensures SlotNullifier(a, w, t) in spent <==> SlotNullifier(a, w, t) in after {
        if SlotNullifier(a, w, t) == SlotNullifier(p.allowance, p.window, p.slot) {
          SlotNullifierInjective(a, w, t, p.allowance, p.window, p.slot);
        }
      }
      hide SlotNullifier;
      SameLeastFree(a, w, spent, after, 0);
    }
  }

  lemma UnrelatedKeeps(s: State, e: Event)
    requires Inv(s) && Enabled(s, e) && e.Unrelated?
    ensures Inv(Next(s, e))
  {
    Appended(s.chain, e.block);
    var spent, next := Nullifiers(s.chain), Next(s, e);
    var after := Nullifiers(next.chain);
    assert s.chain[..|s.chain|] == s.chain;
    assert AllPrefixes(spent);
    hide Nullifiers, Snapshots, SlotNullifier;
    forall a: Allowance, w: nat ensures UsedIsPrefix(a, w, after) && LeastFree(a, w, after, 0) == LeastFree(a, w, spent, 0) {
      forall t: nat ensures SlotNullifier(a, w, t) in spent <==> SlotNullifier(a, w, t) in after {
        assert SlotNullifier(a, w, t) !in e.block.nullifiers;
      }
      assert UsedIsPrefix(a, w, spent);
      SameLeastFree(a, w, spent, after, 0);
    }
    assert AllPrefixes(after);
    SnapshotsKept(s.chain, e.block);
    StillWaiting(s, next, spent, after);
  }

  lemma NextKeeps(s: State, e: Event)
    requires Inv(s) && Enabled(s, e)
    ensures Inv(Next(s, e))
  {
    match e
    case Select(_, _, _, _) => SelectKeeps(s, e);
    case Land(_, _) => LandKeeps(s, e);
    case Unrelated(_) => UnrelatedKeeps(s, e);
    case Collide(_) => StillWaiting(s, Next(s, e), Nullifiers(s.chain), Nullifiers(s.chain));
    case GiveUp(_) => StillWaiting(s, Next(s, e), Nullifiers(s.chain), Nullifiers(s.chain));
  }

  lemma {:induction false} RunKeeps(start: State, events: seq<Event>, end: State)
    requires Inv(start) && Run(start, events, end)
    ensures Inv(end)
    decreases |events|
  {
    hide Inv, Enabled, Next;
    if events != [] {
      NextKeeps(start, events[0]);
      RunKeeps(Next(start, events[0]), events[1..], end);
    }
  }

  lemma StartKeeps(s: State)
    requires Start(s)
    ensures Inv(s)
  {
    hide SlotNullifier;
    forall n | 0 < n <= |s.chain| ensures AllPrefixes(Nullifiers(s.chain[..n])) {
      ChainGrows(s.chain, s.chain[..n]);
    }
  }

  // ----- what every run shows -----

  /**
    In every run the logins of a credential in a day land at the slots 0, 1, 2, ... in this order, and these
    are exactly the slots spent on chain: never more than five.
   */
  lemma EveryRun(start: State, events: seq<Event>, end: State, a: Allowance, w: nat)
    requires Start(start) && Run(start, events, end)
    ensures var n := |Slots(end.landed, a, w)|;
            && n <= SLOT_COUNT && Slots(end.landed, a, w) == UpTo(n)
            && forall t: nat :: SlotNullifier(a, w, t) in Nullifiers(end.chain) <==> t < n
  {
    StartKeeps(start);
    RunKeeps(start, events, end);
    assert end.chain[..|end.chain|] == end.chain;
    assert AllPrefixes(Nullifiers(end.chain));
    assert UsedIsPrefix(a, w, Nullifiers(end.chain));
    hide Nullifiers, SlotNullifier, Snapshots, Run;
  }

  /** Whatever block a client looks at, the slot it selects is the number of slots spent by then. */
  lemma SelectsTheCount(start: State, events: seq<Event>, end: State, e: Event)
    requires Start(start) && Run(start, events, end) && e.Select? && Enabled(end, e)
    ensures var seen := Nullifiers(end.chain[..e.checkedAt]);
            Next(end, e).pending[e.client].slot == SLOT_COUNT - FreeCount(e.allowance, e.window, seen, SLOT_COUNT)
  {
    StartKeeps(start);
    RunKeeps(start, events, end);
    var seen := Nullifiers(end.chain[..e.checkedAt]);
    assert AllPrefixes(seen);
    assert UsedIsPrefix(e.allowance, e.window, seen);
    hide Nullifiers, SlotNullifier, Snapshots, Run;
    CountFromPrefix(e.allowance, e.window, seen, SLOT_COUNT);
  }

  lemma {:induction false} CountFromPrefix(a: Allowance, w: nat, spent: set<Field>, upTo: nat)
    requires UsedIsPrefix(a, w, spent)
    ensures var n := LeastFree(a, w, spent, 0);
            FreeCount(a, w, spent, upTo) == if upTo <= n then 0 else upTo - n
  {
    hide SlotNullifier;
    if upTo > 0 { CountFromPrefix(a, w, spent, upTo - 1); }
  }
}
