/**
  The login of one wallet with several requirements: first every requirement is checked against the
  sponsored allowance, counting the slots each credential will need, then every login is sent.
 */
module Preflight {
  import opened Wrappers
  import opened Numerals
  import opened Ledger
  import opened SponsorAllowance

  /** A requirement with its resolved credential, whose claims hash was read from a note on chain. */
  datatype Verification = Verification(
    credentialType: nat, claimsHash: nat, issuer: Field, note: Option<(Field, Field, Field)>)

  datatype LoginResult =
    | Verified
    | Refused(requirement: nat, check: Selection)  // a check failed: nothing was sent
    | Stopped(requirement: nat, send: SendResult)

  /** The claims hash is stored as the decimal text of its value. */
  function ClaimsText(v: Verification): string { Decimal(v.claimsHash) }

  /** The slots are counted under the text of the claims hash ... */
  function AllowanceKey(v: Verification): string { Decimal(v.credentialType) + ":" + ClaimsText(v) }

  /** ... but spent under the value that text reads as. */
  function Input(v: Verification): AllowanceInput {
    DecimalParses(v.claimsHash);
    AllowanceInput(v.issuer, Value(v.credentialType), Value(ParseDecimal(ClaimsText(v))), v.note)
  }

  /** A requirement can be checked exactly when its status note is of its own credential; then the note's secret decides the slots. */
  lemma InputIff(v: Verification, secret: Field)
    ensures StatusFields(Input(v)) == Ok(Allowance(v.issuer, secret, Value(v.credentialType), Value(v.claimsHash))) <==>
              v.note == Some((secret, Value(v.credentialType), Value(v.claimsHash)))
    ensures StatusFields(Input(v)).Ok? ==>
              v.note.Some? && StatusFields(Input(v)) == Ok(Allowance(v.issuer, v.note.value.0, Value(v.credentialType), Value(v.claimsHash)))
  {
    DecimalParses(v.claimsHash);
    hide Decimal, ParseDecimal;
  }

  /** What a check looks up and what it counts under. */
  datatype Check = Check(allowance: Allowance, key: string)

  predicate Resolved(vs: seq<Verification>) {
    forall i :: 0 <= i < |vs| ==> StatusFields(Input(vs[i])).Ok?
  }

  function Checks(vs: seq<Verification>): (checks: seq<Check>)
    requires Resolved(vs)
    ensures |checks| == |vs|
  {
    seq(|vs|, i requires 0 <= i < |vs| => Check(StatusFields(Input(vs[i])).value, AllowanceKey(vs[i])))
  }

  function CountKey(checks: seq<Check>, key: string): (n: nat)
    ensures n <= |checks|
  {
    if checks == [] then 0
    else CountKey(checks[..|checks| - 1], key) + if checks[|checks| - 1].key == key then 1 else 0
  }

  function CountAllowance(checks: seq<Check>, a: Allowance): (n: nat)
    ensures n <= |checks|
  {
    if checks == [] then 0
    else CountAllowance(checks[..|checks| - 1], a) + if checks[|checks| - 1].allowance == a then 1 else 0
  }

  // ----- what the checks promise -----

  /** Every check in turn finds as many free slots as its key was seen so far. */
  ghost predicate Passes(checks: seq<Check>, window: nat, spent: set<Field>) {
    forall n :: 0 <= n < |checks| ==>
      CountKey(checks[..n + 1], checks[n].key) <= FreeCount(checks[n].allowance, window, spent, SLOT_COUNT)
  }

  /** Every credential has a free slot for each of its requirements. */
  ghost predicate Enough(checks: seq<Check>, window: nat, spent: set<Field>) {
    forall i :: 0 <= i < |checks| ==>
      CountAllowance(checks, checks[i].allowance) <= FreeCount(checks[i].allowance, window, spent, SLOT_COUNT)
  }

  /** Checks of one credential count under one key. */
  ghost predicate OneKeyEach(checks: seq<Check>) {
    forall i, j :: 0 <= i < |checks| && 0 <= j < |checks| && checks[i].allowance == checks[j].allowance ==> checks[i].key == checks[j].key
  }

  /** Checks that count under one key are of one credential and one status note. */
  ghost predicate OneNoteEach(checks: seq<Check>) {
    forall i, j :: 0 <= i < |checks| && 0 <= j < |checks| && checks[i].key == checks[j].key ==> checks[i].allowance == checks[j].allowance
  }

  /** Some credential is asked for more often than there are slots. */
  ghost predicate Overfull(checks: seq<Check>) {
    exists i :: 0 <= i < |checks| && CountAllowance(checks, checks[i].allowance) > SLOT_COUNT
  }

  /** Two requirements count under one key exactly when credential type and claims hash agree. */
  lemma KeyIff(u: Verification, v: Verification)
    ensures AllowanceKey(u) == AllowanceKey(v) <==> u.credentialType == v.credentialType && u.claimsHash == v.claimsHash
  {
    DecimalParses(u.credentialType);
    DecimalParses(v.credentialType);
    DecimalParses(u.claimsHash);
    DecimalParses(v.claimsHash);
    hide Decimal, ParseDecimal;
    if AllowanceKey(u) == AllowanceKey(v) {
      FirstPart(Decimal(u.credentialType), ClaimsText(u), Decimal(v.credentialType), ClaimsText(v));
    }
  }

  /** The text counted and the value spent never part: one credential has one key. */
  lemma EqualCredentialsShareAKey(vs: seq<Verification>)
    requires Resolved(vs)
    ensures OneKeyEach(Checks(vs))
  {
    forall i, j | 0 <= i < |vs| && 0 <= j < |vs| && Checks(vs)[i].allowance == Checks(vs)[j].allowance
      ensures Checks(vs)[i].key == Checks(vs)[j].key
    {
      DecimalParses(vs[i].claimsHash);
      DecimalParses(vs[j].claimsHash);
      hide Decimal, ParseDecimal;
      KeyIff(vs[i], vs[j]);
    }
  }

  lemma {:induction false} CountsAgree(checks: seq<Check>, a: Allowance, key: string)
    requires forall i :: 0 <= i < |checks| && checks[i].allowance == a ==> checks[i].key == key
    ensures CountAllowance(checks, a) <= CountKey(checks, key)
  {
    if checks != [] { CountsAgree(checks[..|checks| - 1], a, key); }
  }

  /** When one credential has one key, an entry of another credential under that key is counted in addition. */
  lemma {:induction false} CountsMore(checks: seq<Check>, a: Allowance, key: string, m: nat)
    requires forall i :: 0 <= i < |checks| && checks[i].allowance == a ==> checks[i].key == key
    requires m < |checks| ==> checks[m].allowance != a && checks[m].key == key
    ensures CountAllowance(checks, a) + (if m < |checks| then 1 else 0) <= CountKey(checks, key)
  {
    if checks != [] { CountsMore(checks[..|checks| - 1], a, key, m); }
  }

  /** When one key means one credential, the key counts no more than the credential. */
  lemma {:induction false} KeysAgree(checks: seq<Check>, a: Allowance, key: string)
    requires forall i :: 0 <= i < |checks| && checks[i].key == key ==> checks[i].allowance == a
    ensures CountKey(checks, key) <= CountAllowance(checks, a)
  {
    if checks != [] { KeysAgree(checks[..|checks| - 1], a, key); }
  }

  lemma {:induction false} CountGrows(checks: seq<Check>, n: nat, key: string)
    requires n <= |checks|
    ensures CountKey(checks[..n], key) <= CountKey(checks, key)
    decreases |checks| - n
  {
    if n < |checks| {
      assert checks[..n + 1][..n] == checks[..n];
      CountGrows(checks, n + 1, key);
    } else {
      assert checks[..n] == checks;
    }
  }

  lemma {:induction false} LastOf(checks: seq<Check>, a: Allowance, i: nat) returns (last: nat)
    requires i < |checks| && checks[i].allowance == a
    ensures i <= last < |checks| && checks[last].allowance == a
    ensures CountAllowance(checks[..last + 1], a) == CountAllowance(checks, a)
  {
    var n := |checks| - 1;
    if checks[n].allowance == a {
      last := n;
      assert checks[..n + 1] == checks;
    } else {
      last := LastOf(checks[..n], a, i);
      assert checks[..n][..last + 1] == checks[..last + 1];
    }
  }

  lemma PassingIsEnough(checks: seq<Check>, window: nat, spent: set<Field>)
    requires OneKeyEach(checks) && Passes(checks, window, spent)
    ensures Enough(checks, window, spent)
  {
    hide FreeCount, CountKey, CountAllowance;
    forall i | 0 <= i < |checks|
      ensures CountAllowance(checks, checks[i].allowance) <= FreeCount(checks[i].allowance, window, spent, SLOT_COUNT)
    {
      var last := LastOf(checks, checks[i].allowance, i);
      CountsAgree(checks[..last + 1], checks[i].allowance, checks[last].key);
    }
  }

  /** For every requirement list, checks that pass leave a slot for every requirement. */
  lemma PreflightSuffices(vs: seq<Verification>, window: nat, spent: set<Field>)
    requires Resolved(vs) && Passes(Checks(vs), window, spent)
    ensures Enough(Checks(vs), window, spent)
  {
    EqualCredentialsShareAKey(vs);
    hide Checks, Passes, Enough, OneKeyEach;
    PassingIsEnough(Checks(vs), window, spent);
  }

  /** The first `used` slots of a credential in a window. */
  function FirstSlots(a: Allowance, window: nat, used: nat): set<Field> {
    set k: nat | k < used :: SlotNullifier(a, window, k)
  }

  lemma {:induction false} FirstSlotsFree(a: Allowance, b: Allowance, window: nat, used: nat, upTo: nat)
    ensures FreeCount(b, window, FirstSlots(a, window, used), upTo) == if a != b then upTo else if used <= upTo then upTo - used else 0
  {
    if upTo > 0 {
      FirstSlotsFree(a, b, window, used, upTo - 1);
      var slot, spent := upTo - 1, FirstSlots(a, window, used);
      assert slot < used ==> SlotNullifier(a, window, slot) in spent;
      if SlotNullifier(b, window, slot) in spent {
        var k: nat :| k < used && SlotNullifier(b, window, slot) == SlotNullifier(a, window, k);
        SlotNullifierInjective(b, window, slot, a, window, k);
      }
    }
  }

  lemma {:induction false} LastOfKey(checks: seq<Check>, i: nat) returns (last: nat)
    requires i < |checks|
    ensures last < |checks| && checks[last].key == checks[i].key
    ensures CountKey(checks[..last + 1], checks[i].key) == CountKey(checks, checks[i].key)
  {
    var n := |checks| - 1;
    if checks[n].key == checks[i].key {
      last := n;
      assert checks[..n + 1] == checks;
    } else {
      last := LastOfKey(checks[..n], i);
      assert checks[..n][..last + 1] == checks[..last + 1];
    }
  }

  /** With one status note per key, enough slots let every check pass. */
  lemma EnoughPasses(checks: seq<Check>, window: nat, spent: set<Field>)
    requires OneNoteEach(checks) && Enough(checks, window, spent)
    ensures Passes(checks, window, spent)
  {
    hide FreeCount, CountKey, CountAllowance;
    forall n | 0 <= n < |checks|
      ensures CountKey(checks[..n + 1], checks[n].key) <= FreeCount(checks[n].allowance, window, spent, SLOT_COUNT)
    {
      CountGrows(checks, n + 1, checks[n].key);
      KeysAgree(checks, checks[n].allowance, checks[n].key);
    }
  }

  /** Two status notes under one key are counted together: enough slots for both may still be refused. */
  lemma TwoNotesRefused(checks: seq<Check>, i: nat, j: nat, window: nat) returns (spent: set<Field>)
    requires i < |checks| && j < |checks| && checks[i].key == checks[j].key && checks[i].allowance != checks[j].allowance
    requires OneKeyEach(checks) && !Overfull(checks)
    ensures Enough(checks, window, spent) && !Passes(checks, window, spent)
  {
    hide FreeCount, CountKey, CountAllowance, SlotNullifier, FirstSlots;
    var last := LastOfKey(checks, i);
    var a := checks[last].allowance;
    CountsMore(checks, a, checks[last].key, if checks[i].allowance == a then j else i);
    var used := SLOT_COUNT - CountAllowance(checks, a);
    spent := FirstSlots(a, window, used);
    FirstSlotsFree(a, a, window, used, SLOT_COUNT);
    forall n | 0 <= n < |checks|
      ensures CountAllowance(checks, checks[n].allowance) <= FreeCount(checks[n].allowance, window, spent, SLOT_COUNT)
    {
      FirstSlotsFree(a, checks[n].allowance, window, used, SLOT_COUNT);
    }
  }

  ghost predicate Exact(checks: seq<Check>) {
    forall window: nat, spent: set<Field> :: Passes(checks, window, spent) <==> Enough(checks, window, spent)
  }

  /**
    The checks never pass with too few slots. They pass in every chain state with enough slots exactly when
    requirements of one type and claims hash use one status note, or one is asked for too often anyway.
   */
  lemma PreflightExactIff(vs: seq<Verification>)
    requires Resolved(vs)
    ensures Exact(Checks(vs)) <==> OneNoteEach(Checks(vs)) || Overfull(Checks(vs))
  {
    EqualCredentialsShareAKey(vs);
    var checks := Checks(vs);
    hide Checks, Resolved, FreeCount, CountKey, CountAllowance, Passes, Enough;
    if OneNoteEach(checks) || Overfull(checks) {
      forall window: nat, spent ensures Passes(checks, window, spent) <==> Enough(checks, window, spent) {
        if Passes(checks, window, spent) { PassingIsEnough(checks, window, spent); }
        if Enough(checks, window, spent) {
          if Overfull(checks) { OverfullFails(checks, window, spent); } else { EnoughPasses(checks, window, spent); }
        }
      }
    } else {
      var i, j :| 0 <= i < |checks| && 0 <= j < |checks| && checks[i].key == checks[j].key && checks[i].allowance != checks[j].allowance;
      var spent := TwoNotesRefused(checks, i, j, 0);
    }
  }

  lemma OverfullFails(checks: seq<Check>, window: nat, spent: set<Field>)
    requires Overfull(checks)
    ensures !Enough(checks, window, spent)
  {
    hide FreeCount, CountAllowance;
    var i :| 0 <= i < |checks| && CountAllowance(checks, checks[i].allowance) > SLOT_COUNT;
    assert FreeCount(checks[i].allowance, window, spent, SLOT_COUNT) <= SLOT_COUNT;
  }

  // ----- the login -----

  /** Where a login's allowance slot lies. */
  datatype Place = Place(window: nat, slot: nat)

  function NullifierAt(a: Allowance, p: Place): Field { SlotNullifier(a, p.window, p.slot) }

  /** The logins that landed, one per requirement in order, each with a slot of its own credential. */
  ghost predicate Landed(checks: seq<Check>, places: seq<Place>, from: nat, upTo: nat, spends: seq<Field>) {
    && |places| <= |checks| && |places| <= |spends|
    && forall j :: 0 <= j < |places| ==>
         from <= places[j].window <= upTo && spends[j] == NullifierAt(checks[j].allowance, places[j])
  }

  ghost predicate Distinct(fields: seq<Field>) {
    forall i, j :: 0 <= i < j < |fields| ==> fields[i] != fields[j]
  }

  function Elements(fields: seq<Field>): set<Field> { set f | f in fields }

  lemma {:induction false} FewerFree(a: Allowance, window: nat, spent: set<Field>, after: set<Field>, upTo: nat)
    requires spent <= after
    ensures FreeCount(a, window, after, upTo) <= FreeCount(a, window, spent, upTo)
  {
    hide SlotNullifier;
    if upTo > 0 { FewerFree(a, window, spent, after, upTo - 1); }
  }

  /** One more nullifier takes at most one slot, and only of its own credential. */
  lemma {:induction false} OneFewer(a: Allowance, window: nat, spent: set<Field>, b: Allowance, p: Place, upTo: nat)
    ensures var after := FreeCount(a, window, spent + {NullifierAt(b, p)}, upTo);
            FreeCount(a, window, spent, upTo) <= after + (if a == b && p.slot < upTo then 1 else 0)
  {
    if upTo > 0 {
      OneFewer(a, window, spent, b, p, upTo - 1);
      if SlotNullifier(a, window, upTo - 1) == NullifierAt(b, p) {
        SlotNullifierInjective(a, window, upTo - 1, b, p.window, p.slot);
      }
    }
  }

  lemma {:induction false} FreeAfterLanding(checks: seq<Check>, places: seq<Place>, from: nat, upTo: nat, spends: seq<Field>,
                                            a: Allowance, window: nat, spent: set<Field>)
    requires Landed(checks, places, from, upTo, spends)
    ensures FreeCount(a, window, spent, SLOT_COUNT)
            <= FreeCount(a, window, spent + Elements(spends[..|places|]), SLOT_COUNT) + CountAllowance(checks[..|places|], a)
  {
    hide FreeCount, SlotNullifier;
    var n := |places|;
    if n == 0 {
      assert spent + Elements(spends[..n]) == spent;
    } else {
      FreeAfterLanding(checks, places[..n - 1], from, upTo, spends, a, window, spent);
      var before := spent + Elements(spends[..n - 1]);
      OneFewer(a, window, before, checks[n - 1].allowance, places[n - 1], SLOT_COUNT);
      assert spends[..n] == spends[..n - 1] + [spends[n - 1]];
      assert spent + Elements(spends[..n]) == before + {spends[n - 1]};
      assert checks[..n][..n - 1] == checks[..n - 1];
    }
  }

  lemma {:induction false} StillToCome(checks: seq<Check>, i: nat)
    requires i < |checks|
    ensures CountAllowance(checks[..i], checks[i].allowance) < CountAllowance(checks, checks[i].allowance)
  {
    var n := |checks| - 1;
    if i == n {
      assert checks[..i] == checks[..n];
    } else {
      StillToCome(checks[..n], i);
      assert checks[..n][..i] == checks[..i];
    }
  }

  /** While only this login spends, the credential of the next requirement still has a free slot. */
  lemma SlotLeft(checks: seq<Check>, places: seq<Place>, from: nat, upTo: nat, spends: seq<Field>,
                 window: nat, before: set<Field>, now: set<Field>)
    requires Enough(checks, window, before) && |places| < |checks|
    requires Landed(checks, places, from, upTo, spends) && now <= before + Elements(spends[..|places|])
    ensures FreeCount(checks[|places|].allowance, window, now, SLOT_COUNT) > 0
  {
    hide FreeCount, SlotNullifier, CountAllowance, Elements;
    var a := checks[|places|].allowance;
    FreeAfterLanding(checks, places, from, upTo, spends, a, window, before);
    StillToCome(checks, |places|);
    FewerFree(a, window, now, before + Elements(spends[..|places|]), SLOT_COUNT);
  }

  /** The map counts, for every key, the checks made under it. */
  ghost predicate Counted(counts: map<string, nat>, checks: seq<Check>) {
    forall key :: (if key in counts then counts[key] else 0) == CountKey(checks, key)
  }

  lemma ChecksGrow(vs: seq<Verification>, i: nat)
    requires i < |vs| && Resolved(vs[..i]) && StatusFields(Input(vs[i])).Ok?
    ensures Resolved(vs[..i + 1])
    ensures Checks(vs[..i + 1]) == Checks(vs[..i]) + [Check(StatusFields(Input(vs[i])).value, AllowanceKey(vs[i]))]
  {
    hide StatusFields, AllowanceKey, Input;
  }

  lemma CountedOneMore(counts: map<string, nat>, checks: seq<Check>, check: Check)
    requires Counted(counts, checks)
    ensures Counted(counts[check.key := CountKey(checks, check.key) + 1], checks + [check])
  {
    assert (checks + [check])[..|checks|] == checks;
  }

  lemma PassedOneMore(checks: seq<Check>, check: Check, w: nat, before: set<Field>, spent: set<Field>)
    requires Passes(checks, w, before) && before <= spent
    requires CountKey(checks, check.key) + 1 <= FreeCount(check.allowance, w, spent, SLOT_COUNT)
    ensures Passes(checks + [check], w, before)
  {
    hide FreeCount;
    var next := checks + [check];
    assert next[..|checks|] == checks;
    FewerFree(check.allowance, w, before, spent, SLOT_COUNT);
    forall n | 0 <= n < |next| ensures CountKey(next[..n + 1], next[n].key) <= FreeCount(next[n].allowance, w, before, SLOT_COUNT) {
      if n < |checks| { assert next[..n + 1] == checks[..n + 1]; } else { assert next[..n + 1] == next; }
    }
  }

  /** In one of these windows and at a moment between these two, the chain has fewer free slots than counted. */
  ghost predicate Lacks(a: Allowance, required: nat, refused: Selection, from: nat, upTo: nat, early: set<Field>, late: set<Field>) {
    exists w: nat, spent: set<Field> :: from <= w <= upTo && early <= spent <= late && refused == Select(a, w, spent, required)
  }

  lemma LacksAt(a: Allowance, required: nat, refused: Selection, window: nat, spent: set<Field>,
                from: nat, upTo: nat, early: set<Field>, late: set<Field>)
    requires from <= window <= upTo && early <= spent <= late && refused == Select(a, window, spent, required)
    ensures Lacks(a, required, refused, from, upTo, early, late)
  {
    hide Select;
  }

  /**
    Why a check refuses: the count of its key is over the limit, the status note does not fit or a block is
    gone; or some chain state during the checks has fewer free slots than counted.
   */
  ghost predicate RefusedAt(vs: seq<Verification>, at: nat, refused: Selection, keepsBlocks: bool,
                            from: nat, upTo: nat, early: set<Field>, late: set<Field>)
    requires at < |vs| && Resolved(vs[..at])
  {
    var required := CountKey(Checks(vs[..at]), AllowanceKey(vs[at])) + 1;
    var fields := StatusFields(Input(vs[at]));
    match refused
    case Unchecked(_) => required > SLOT_COUNT || fields.Err? || !keepsBlocks
    case Exhausted(_, _) =>
      fields.Ok? && Lacks(fields.value, required, refused, from, upTo, early, late)
    case Selected(_, _, _) => false
  }

  /** While the day does not change, passing checks say so of the chain before the first of them. */
  method CheckAll(wallet: SponsorWallet, vs: seq<Verification>) returns (refused: Option<Selection>, at: nat)
    requires wallet.Valid()
    modifies wallet`anchor, wallet.node
    ensures wallet.Valid() && Extends(wallet.node.chain, old(wallet.node.chain)) && old(wallet.anchor) <= wallet.anchor
    ensures refused.Some? ==> at < |vs| && Resolved(vs[..at])
    ensures refused.Some? ==>
              RefusedAt(vs, at, refused.value, wallet.node.keepsBlocks, Window(old(wallet.Earliest())), Window(Tip(wallet.node.chain)),
                        Nullifiers(old(wallet.node.chain)), Nullifiers(wallet.node.chain))
    ensures refused.None? ==> Resolved(vs)
    ensures refused.None? && Window(old(wallet.Earliest())) == Window(Tip(wallet.node.chain)) ==>
              Passes(Checks(vs), Window(old(wallet.Earliest())), Nullifiers(old(wallet.node.chain)))
  {
    hide Nullifiers, SlotNullifier, StatusFields, Orderly, FreeCount, LeastFree, CountKey, Window, AllowanceKey, Select;
    ghost var w, before := Window(wallet.Earliest()), Nullifiers(wallet.node.chain);
    wallet.TimePasses();
    var checksPerCredential: map<string, nat> := map[];
    for i := 0 to |vs|
      invariant wallet.Valid() && Extends(wallet.node.chain, old(wallet.node.chain)) && old(wallet.anchor) <= wallet.anchor
      invariant Resolved(vs[..i])
      invariant Counted(checksPerCredential, Checks(vs[..i]))
      invariant Window(Tip(wallet.node.chain)) == w ==> Passes(Checks(vs[..i]), w, before)
    {
      label round:
      wallet.TimePasses();
      var allowanceKey := AllowanceKey(vs[i]);
      ghost var counts, checks := checksPerCredential, Checks(vs[..i]);
      var requiredSlots := (if allowanceKey in checksPerCredential then checksPerCredential[allowanceKey] else 0) + 1;
      assert requiredSlots == CountKey(checks, allowanceKey) + 1;
      checksPerCredential := checksPerCredential[allowanceKey := requiredSlots];
      var selected, window, spent := wallet.SelectUnusedSlot(Input(vs[i]), requiredSlots);
      wallet.TimePasses@round();
      if !selected.Selected? {
        CheckRefuses(vs, i, selected, wallet.node.keepsBlocks, window, spent, w, Window(Tip(wallet.node.chain)), before, Nullifiers(wallet.node.chain));
        return Some(selected), i;
      }
      SelectedHasSlots(StatusFields(Input(vs[i])).value, window, spent, requiredSlots);
      ghost var check := Check(StatusFields(Input(vs[i])).value, allowanceKey);
      ChecksGrow(vs, i);
      CountedOneMore(counts, checks, check);
      if Window(Tip(wallet.node.chain)) == w { PassedOneMore(checks, check, w, before, spent); }
    }
    assert vs[..|vs|] == vs;
    refused, at := None, |vs|;
  }

  lemma CheckRefuses(vs: seq<Verification>, at: nat, refused: Selection, keepsBlocks: bool, window: nat, spent: set<Field>,
                     from: nat, upTo: nat, early: set<Field>, late: set<Field>)
    requires at < |vs| && Resolved(vs[..at]) && from <= window <= upTo && early <= spent <= late && !refused.Selected?
    requires var required := CountKey(Checks(vs[..at]), AllowanceKey(vs[at])) + 1;
             if refused.Unchecked? then required > SLOT_COUNT || StatusFields(Input(vs[at])).Err? || !keepsBlocks
             else StatusFields(Input(vs[at])).Ok? && refused == Select(StatusFields(Input(vs[at])).value, window, spent, required)
    ensures RefusedAt(vs, at, refused, keepsBlocks, from, upTo, early, late)
  {
    hide StatusFields, Select, Lacks, CountKey, Checks, AllowanceKey, Input;
    if refused.Exhausted? {
      var required := CountKey(Checks(vs[..at]), AllowanceKey(vs[at])) + 1;
      LacksAt(StatusFields(Input(vs[at])).value, required, refused, window, spent, from, upTo, early, late);
    }
  }

  lemma StoppedEarlier(input: AllowanceInput, send: SendResult, attempts: seq<Attempt>, keepsBlocks: bool,
                       from: nat, upTo: nat, earlier: nat, late: set<Field>)
    requires StoppedBy(input, send, attempts, keepsBlocks, from, upTo, late) && earlier <= from
    ensures StoppedBy(input, send, attempts, keepsBlocks, earlier, upTo, late)
  {
    hide UsedUp;
  }

  lemma SelectedHasSlots(a: Allowance, window: nat, spent: set<Field>, required: nat)
    requires Select(a, window, spent, required).Selected?
    ensures required <= FreeCount(a, window, spent, SLOT_COUNT)
  {
    hide SlotNullifier;
  }

  /** Why a send stops the login. */
  ghost predicate StoppedBy(input: AllowanceInput, send: SendResult, attempts: seq<Attempt>, keepsBlocks: bool,
                            from: nat, upTo: nat, late: set<Field>) {
    match send
    case Delivered => false
    case NoAllowance(_, _) => exists v: nat :: from <= v <= upTo && UsedUp(input, v, late, send)
    case NotChecked(_) => !keepsBlocks
    case Failed => attempts != [] && !attempts[|attempts| - 1].outcome.Sent?
    case CollidedAgain(nullifier) => from < upTo && nullifier in late
  }

  /** Sends one login per requirement, in order, up to the first that fails. */
  method SendAll(wallet: SponsorWallet, vs: seq<Verification>)
    returns (stopped: Option<(nat, SendResult)>, ghost places: seq<Place>)
    requires wallet.Valid() && Resolved(vs)
    modifies wallet, wallet.node
    ensures wallet.Valid() && Extends(wallet.node.chain, old(wallet.node.chain)) && old(wallet.anchor) <= wallet.anchor
    ensures old(wallet.spends) <= wallet.spends
    ensures if stopped.None? then |places| == |vs| == |wallet.spends| - |old(wallet.spends)|
            else stopped.value.0 == |places| < |vs|
                 && StoppedBy(Input(vs[|places|]), stopped.value.1, wallet.attempts, wallet.node.keepsBlocks,
                              Window(old(wallet.Earliest())), Window(Tip(wallet.node.chain)), Nullifiers(wallet.node.chain))
                 && |places| <= |wallet.spends| - |old(wallet.spends)| <= |places| + (if stopped.value.1.Failed? then 1 else 0)
    ensures Elements(wallet.spends[|old(wallet.spends)|..|old(wallet.spends)| + |places|]) !! Nullifiers(old(wallet.node.chain))
    ensures Landed(Checks(vs), places, Window(old(wallet.Earliest())), Window(Tip(wallet.node.chain)), wallet.spends[|old(wallet.spends)|..])
    ensures Distinct(wallet.spends[|old(wallet.spends)|..|old(wallet.spends)| + |places|])
    ensures Window(old(wallet.Earliest())) == Window(Tip(wallet.node.chain))
            && Enough(Checks(vs), Window(old(wallet.Earliest())), Nullifiers(old(wallet.node.chain)))
            && Nullifiers(wallet.node.chain) <= Nullifiers(old(wallet.node.chain)) + Elements(wallet.spends[|old(wallet.spends)|..])
            && stopped.Some? ==>
              stopped.value.1.Failed? || stopped.value.1.NotChecked?
  {
    hide Nullifiers, SlotNullifier, StatusFields, Orderly, FreeCount, Window, AllowanceKey, UsedUp, Elements, InWindows,
         Chosen, AllCollided, Increasing;
    ghost var w, before := Window(wallet.Earliest()), Nullifiers(wallet.node.chain);
    ghost var checks := Checks(vs);
    wallet.TimePasses();
    places := [];
    NoElements();
    for i := 0 to |vs|
      invariant wallet.Valid() && Extends(wallet.node.chain, old(wallet.node.chain)) && old(wallet.anchor) <= wallet.anchor
      invariant old(wallet.spends) <= wallet.spends && |places| == i == |wallet.spends| - |old(wallet.spends)|
      invariant Landed(checks, places, w, Window(Tip(wallet.node.chain)), wallet.spends[|old(wallet.spends)|..])
      invariant Elements(wallet.spends[|old(wallet.spends)|..]) !! before
      invariant Distinct(wallet.spends[|old(wallet.spends)|..]) && Elements(wallet.spends[|old(wallet.spends)|..]) <= Nullifiers(wallet.node.chain)
    {
      label round:
      wallet.TimePasses();
      ghost var spends := wallet.spends[|old(wallet.spends)|..];
      var r := wallet.SendWithAvailableSlot(Input(vs[i]));
      wallet.TimePasses@round();
      wallet.TimePasses();
      if !r.Delivered? {
        if r.NoAllowance? && Window(Tip(wallet.node.chain)) == w && Enough(checks, w, before)
           && Nullifiers(wallet.node.chain) <= before + Elements(spends) {
          NotUsedUp(checks, places, w, spends, before, Nullifiers(wallet.node.chain), Input(vs[i]), r);
        }
        assert wallet.spends[|old(wallet.spends)|..|old(wallet.spends)| + |places|] == spends;
        stopped := Some((i, r));
        return;
      }
      ghost var place := PlaceOf(checks[i].allowance, wallet.attempts[|wallet.attempts| - 1].slot,
                                 wallet.spends[|old@round(wallet.spends)|], Window(old@round(wallet.Earliest())), Window(Tip(wallet.node.chain)));
      ghost var x := wallet.spends[|old@round(wallet.spends)|];
      assert wallet.spends[|old(wallet.spends)|..] == spends + [x];
      StillDistinct(spends, x, Nullifiers(old@round(wallet.node.chain)));
      places := places + [place];
    }
    assert wallet.spends[|old(wallet.spends)|..|old(wallet.spends)| + |places|] == wallet.spends[|old(wallet.spends)|..];
    stopped := None;
  }

  lemma PlaceOf(a: Allowance, slot: nat, nullifier: Field, from: nat, upTo: nat) returns (p: Place)
    requires InWindows(a, slot, nullifier, from, upTo)
    ensures from <= p.window <= upTo && p.slot == slot && nullifier == NullifierAt(a, p)
  {
    var w: nat :| from <= w <= upTo && nullifier == SlotNullifier(a, w, slot);
    p := Place(w, slot);
  }

  lemma NoElements()
    ensures Elements([]) == {}
  {
  }

  lemma StillDistinct(fields: seq<Field>, x: Field, emitted: set<Field>)
    requires Distinct(fields) && Elements(fields) <= emitted && x !in emitted
    ensures Distinct(fields + [x]) && Elements(fields + [x]) == Elements(fields) + {x}
  {
    forall i | 0 <= i < |fields| ensures fields[i] != x { assert fields[i] in Elements(fields); }
  }

  /** A login alone on its credentials never finds its next credential used up. */
  lemma NotUsedUp(checks: seq<Check>, places: seq<Place>, window: nat, spends: seq<Field>,
                  before: set<Field>, now: set<Field>, input: AllowanceInput, r: SendResult)
    requires Enough(checks, window, before) && |places| < |checks| && |spends| == |places|
    requires Landed(checks, places, window, window, spends) && now <= before + Elements(spends)
    requires StatusFields(input) == Ok(checks[|places|].allowance)
    ensures !UsedUp(input, window, now, r)
  {
    hide SlotNullifier, StatusFields, Enough, Landed, Elements;
    assert spends[..|places|] == spends;
    SlotLeft(checks, places, window, window, spends, window, before, now);
    if UsedUp(input, window, now, r) { NoneFreeBelow(checks[|places|].allowance, window, now, SLOT_COUNT); }
  }

  /**
    One login. A failed check means nothing was sent. The logins that land spend pairwise distinct
    nullifiers, slot by slot of their own credentials. And when every check passes, nobody else spends and
    the day does not change, every send finds a free slot.
   */
  method RunLogin(wallet: SponsorWallet, vs: seq<Verification>)
    returns (r: LoginResult, ghost places: seq<Place>)
    requires wallet.Valid()
    modifies wallet, wallet.node
    ensures wallet.Valid() && Extends(wallet.node.chain, old(wallet.node.chain)) && old(wallet.anchor) <= wallet.anchor
    ensures r.Refused? ==>
              && wallet.spends == old(wallet.spends) && wallet.attempts == old(wallet.attempts)
              && r.requirement < |vs| && Resolved(vs[..r.requirement])
              && RefusedAt(vs, r.requirement, r.check, wallet.node.keepsBlocks, Window(old(wallet.Earliest())),
                           Window(Tip(wallet.node.chain)), Nullifiers(old(wallet.node.chain)), Nullifiers(wallet.node.chain))
    ensures !r.Refused? ==>
              && Resolved(vs) && old(wallet.spends) <= wallet.spends && |places| <= |wallet.spends| - |old(wallet.spends)|
              && Landed(Checks(vs), places, Window(old(wallet.Earliest())), Window(Tip(wallet.node.chain)), wallet.spends[|old(wallet.spends)|..])
              && Distinct(wallet.spends[|old(wallet.spends)|..|old(wallet.spends)| + |places|])
    ensures r.Verified? ==> |places| == |vs| == |wallet.spends| - |old(wallet.spends)|
    ensures r.Stopped? ==>
              && r.requirement == |places| < |vs|
              && StoppedBy(Input(vs[|places|]), r.send, wallet.attempts, wallet.node.keepsBlocks,
                           Window(old(wallet.Earliest())), Window(Tip(wallet.node.chain)), Nullifiers(wallet.node.chain))
    ensures r.Stopped?
            && Window(old(wallet.Earliest())) == Window(Tip(wallet.node.chain))
            && Nullifiers(wallet.node.chain) <= Nullifiers(old(wallet.node.chain)) + Elements(wallet.spends[|old(wallet.spends)|..]) ==>
              r.send.Failed? || r.send.NotChecked?
  {
    hide Nullifiers, SlotNullifier, StatusFields, Orderly, FreeCount, Window, AllowanceKey, Elements, Landed,
         Passes, Enough, Checks, RefusedAt, StoppedBy;
    ghost var w, before := Window(wallet.Earliest()), Nullifiers(wallet.node.chain);
    places := [];
    var refused, at := CheckAll(wallet, vs);
    wallet.TimePasses();
    if refused.Some? { return Refused(at, refused.value), []; }
    label checked:
    var stopped;
    stopped, places := SendAll(wallet, vs);
    wallet.TimePasses@checked();
    LandedLonger(Checks(vs), places, Window(old@checked(wallet.Earliest())), Window(Tip(wallet.node.chain)), w, wallet.spends[|old(wallet.spends)|..]);
    if stopped.None? { return Verified, places; }
    StoppedEarlier(Input(vs[|places|]), stopped.value.1, wallet.attempts, wallet.node.keepsBlocks,
                   Window(old@checked(wallet.Earliest())), Window(Tip(wallet.node.chain)), w, Nullifiers(wallet.node.chain));
    r := Stopped(stopped.value.0, stopped.value.1);
    ghost var own := wallet.spends[|old(wallet.spends)|..];
    if !r.send.Failed? && w == Window(Tip(wallet.node.chain))
       && Nullifiers(wallet.node.chain) <= before + Elements(own) {
      assert own == wallet.spends[|old(wallet.spends)|..|old(wallet.spends)| + |places|];
      assert Nullifiers(old@checked(wallet.node.chain)) == before;
      PreflightSuffices(vs, w, before);
    }
  }

  /** Two logins of one credential that land on one day take different slots. */
  lemma SlotsDiffer(checks: seq<Check>, places: seq<Place>, window: nat, spends: seq<Field>, i: nat, j: nat)
    requires Landed(checks, places, window, window, spends) && Distinct(spends[..|places|])
    requires i < j < |places| && checks[i].allowance == checks[j].allowance
    ensures places[i].slot != places[j].slot
  {
    hide SlotNullifier;
    assert spends[..|places|][i] == spends[i] && spends[..|places|][j] == spends[j];
    assert places[i].window == places[j].window == window;
  }

  lemma LandedLonger(checks: seq<Check>, places: seq<Place>, from: nat, upTo: nat, earlier: nat, spends: seq<Field>)
    requires earlier <= from && Landed(checks, places, from, upTo, spends)
    ensures Landed(checks, places, earlier, upTo, spends)
  {
    hide SlotNullifier;
  }
}
