/**
  The guard that keeps private passport artifacts out of API payloads: a worklist scan of a JSON value for
  forbidden keys, once in the client and once, with more keys, in the service.
 */
module ArtifactScan {
  import opened Wrappers

  datatype Json =
    | Null
    | Bool(b: bool)
    | Number(n: int)
    | Text(text: string)
    | Array(items: seq<Json>)
    | Object(members: seq<Member>)

  datatype Member = Member(key: string, value: Json)

  const CLIENT_KEYS: set<string> := {
    "proofs", "outerProof", "zkPassportOuterProof", "outerPublicInputs", "zkPassportOuterPublicInputs",
    "queryResult", "originalQuery", "committedInputs", "uniqueIdentifier", "scopedNullifier", "nationalityAlpha3",
    "expiryTs", "nationalityBlind", "expiryBlind", "localWitness", "hintedRootStatusNote", "hintedRootAuthorityNote"}

  const REVOCATION_KEYS: set<string> := {"revocationSecret", "revocation_secret"}

  const SERVER_KEYS: set<string> := {
    "proofs", "outerProof", "zkPassportOuterProof", "outerPublicInputs", "zkPassportOuterPublicInputs",
    "queryResult", "originalQuery", "committedInputs", "uniqueIdentifier", "scopedNullifier", "nationalityAlpha3",
    "expiryTs", "nationalityBlind", "expiryBlind", "localWitness", "hintedRootStatusNote", "hintedRootAuthorityNote",
    "revocationSecret", "revocation_secret"}

  /** The key occurs somewhere in the value, at any depth. */
  predicate Occurs(value: Json, key: string) {
    match value
    case Array(items) => exists i :: 0 <= i < |items| && Occurs(items[i], key)
    case Object(members) => exists i :: 0 <= i < |members| && (members[i].key == key || Occurs(members[i].value, key))
    case _ => false
  }

  /** No forbidden key at any depth. */
  predicate Clean(value: Json, forbidden: set<string>) {
    match value
    case Array(items) => forall i :: 0 <= i < |items| ==> Clean(items[i], forbidden)
    case Object(members) => forall i :: 0 <= i < |members| ==> members[i].key !in forbidden && Clean(members[i].value, forbidden)
    case _ => true
  }

  lemma {:induction false} CleanMeansNoneOccurs(value: Json, forbidden: set<string>)
    ensures Clean(value, forbidden) <==> forall key :: key in forbidden ==> !Occurs(value, key)
  {
    match value
    case Array(items) =>
      forall i | 0 <= i < |items| ensures Clean(items[i], forbidden) <==> forall key :: key in forbidden ==> !Occurs(items[i], key) {
        CleanMeansNoneOccurs(items[i], forbidden);
      }
    case Object(members) =>
      forall i | 0 <= i < |members|
        ensures Clean(members[i].value, forbidden) <==> forall key :: key in forbidden ==> !Occurs(members[i].value, key)
      {
        CleanMeansNoneOccurs(members[i].value, forbidden);
      }
      assert forall i :: 0 <= i < |members| ==> Occurs(value, members[i].key);
    case _ =>
  }

  // ----- the worklist -----

  /** How many values a value holds, itself included. */
  function Size(value: Json): nat {
    match value
    case Array(items) => 1 + Sizes(items)
    case Object(members) => 1 + MemberSizes(members)
    case _ => 1
  }

  function Sizes(values: seq<Json>): nat {
    if values == [] then 0 else Sizes(values[..|values| - 1]) + Size(values[|values| - 1])
  }

  function MemberSizes(members: seq<Member>): nat {
    if members == [] then 0 else MemberSizes(members[..|members| - 1]) + Size(members[|members| - 1].value)
  }

  lemma {:induction false} SizesAdd(a: seq<Json>, b: seq<Json>)
    ensures Sizes(a + b) == Sizes(a) + Sizes(b)
  {
    if b == [] {
      assert a + b == a;
    } else {
      var n := |b| - 1;
      SizesAdd(a, b[..n]);
      assert (a + b)[..|a + b| - 1] == a + b[..n];
    }
  }

  /** What is left to look at decides the rest of the scan. */
  ghost predicate AllClean(values: seq<Json>, forbidden: set<string>) {
    forall i :: 0 <= i < |values| ==> Clean(values[i], forbidden)
  }

  ghost predicate SomeOccurs(values: seq<Json>, key: string) {
    exists i :: 0 <= i < |values| && Occurs(values[i], key)
  }

  /**
    The scan ends for every finite value, and refuses exactly the values with a forbidden key at some depth,
    naming one of them.
   */
  method AssertNoPrivateArtifacts(value: Json, forbidden: set<string>) returns (found: Option<string>)
    ensures found.None? <==> Clean(value, forbidden)
    ensures found.Some? ==> found.value in forbidden && Occurs(value, found.value)
  {
    hide Clean, Occurs, Size, Sizes, MemberSizes;
    var stack := [value];
    Single(value, forbidden);
    while |stack| > 0
      invariant AllClean(stack, forbidden) <==> Clean(value, forbidden)
      invariant forall key :: SomeOccurs(stack, key) ==> Occurs(value, key)
      decreases Sizes(stack)
    {
      var current := stack[|stack| - 1];
      ghost var before := stack;
      stack := stack[..|stack| - 1];
      Popped(before, forbidden);
      match current {
        case Array(items) =>
          ArrayParts(items, forbidden);
          Pushed(stack, items, forbidden);
          stack := stack + items;
        case Object(members) =>
          ghost var rest := stack;
          MembersParts(members, forbidden);
          for i := 0 to |members|
            invariant stack == rest + Values(members[..i])
            invariant forall k :: 0 <= k < i ==> members[k].key !in forbidden
          {
            if members[i].key in forbidden {
              KeyOccurs(members, i);
              return Some(members[i].key);
            }
            assert members[..i + 1][..i] == members[..i];
            stack := stack + [members[i].value];
          }
          assert members[..|members|] == members;
          Pushed(rest, Values(members), forbidden);
        case _ =>
          PlainIsClean(current, forbidden);
      }
    }
    found := None;
  }

  function Values(members: seq<Member>): seq<Json> {
    if members == [] then [] else Values(members[..|members| - 1]) + [members[|members| - 1].value]
  }

  lemma Popped(stack: seq<Json>, forbidden: set<string>)
    requires stack != []
    ensures var rest, top := stack[..|stack| - 1], stack[|stack| - 1];
            && Sizes(stack) == Sizes(rest) + Size(top) && Size(top) >= 1
            && (AllClean(stack, forbidden) <==> AllClean(rest, forbidden) && Clean(top, forbidden))
            && forall key :: SomeOccurs(stack, key) <==> SomeOccurs(rest, key) || Occurs(top, key)
  {
    hide Clean, Occurs;
    assert stack == stack[..|stack| - 1] + [stack[|stack| - 1]];
    Pushed(stack[..|stack| - 1], [stack[|stack| - 1]], forbidden);
    Single(stack[|stack| - 1], forbidden);
  }

  lemma Single(value: Json, forbidden: set<string>)
    ensures AllClean([value], forbidden) <==> Clean(value, forbidden)
    ensures forall key :: SomeOccurs([value], key) <==> Occurs(value, key)
  {
    hide Clean, Occurs;
    var one := [value];
    assert one[0] == value;
    forall key ensures SomeOccurs(one, key) <==> Occurs(value, key) {
      if Occurs(value, key) { assert Occurs(one[0], key); }
    }
  }

  lemma Pushed(rest: seq<Json>, more: seq<Json>, forbidden: set<string>)
    ensures Sizes(rest + more) == Sizes(rest) + Sizes(more)
    ensures AllClean(rest + more, forbidden) <==> AllClean(rest, forbidden) && AllClean(more, forbidden)
    ensures forall key :: SomeOccurs(rest + more, key) <==> SomeOccurs(rest, key) || SomeOccurs(more, key)
  {
    hide Clean, Occurs, Size, Sizes;
    SizesAdd(rest, more);
    var all := rest + more;
    assert forall i :: 0 <= i < |rest| ==> all[i] == rest[i];
    assert forall i :: 0 <= i < |more| ==> all[|rest| + i] == more[i];
    forall key ensures SomeOccurs(all, key) <==> SomeOccurs(rest, key) || SomeOccurs(more, key) {
      if SomeOccurs(rest, key) {
        var i :| 0 <= i < |rest| && Occurs(rest[i], key);
        assert Occurs(all[i], key);
      }
      if SomeOccurs(more, key) {
        var i :| 0 <= i < |more| && Occurs(more[i], key);
        assert Occurs(all[|rest| + i], key);
      }
    }
  }

  lemma ArrayParts(items: seq<Json>, forbidden: set<string>)
    ensures Clean(Array(items), forbidden) <==> AllClean(items, forbidden)
    ensures forall key :: Occurs(Array(items), key) <==> SomeOccurs(items, key)
    ensures Size(Array(items)) == 1 + Sizes(items)
  {
  }

  lemma {:induction false} ValuesAt(members: seq<Member>)
    ensures |Values(members)| == |members|
    ensures forall i :: 0 <= i < |members| ==> Values(members)[i] == members[i].value
  {
    if members != [] { ValuesAt(members[..|members| - 1]); }
  }

  lemma {:induction false} ValuesSize(members: seq<Member>)
    ensures Sizes(Values(members)) == MemberSizes(members)
  {
    hide Size;
    if members != [] {
      var prefix, last := members[..|members| - 1], members[|members| - 1];
      ValuesSize(prefix);
      assert Values(members) == Values(prefix) + [last.value];
      hide Values;
      OneMoreSize(Values(prefix), last.value);
    }
  }

  lemma OneMoreSize(values: seq<Json>, value: Json)
    ensures Sizes(values + [value]) == Sizes(values) + Size(value)
  {
    hide Size;
    assert (values + [value])[..|values|] == values;
  }

  lemma MembersParts(members: seq<Member>, forbidden: set<string>)
    ensures Clean(Object(members), forbidden) <==>
              AllClean(Values(members), forbidden) && forall i :: 0 <= i < |members| ==> members[i].key !in forbidden
    ensures forall key :: SomeOccurs(Values(members), key) ==> Occurs(Object(members), key)
    ensures Size(Object(members)) == 1 + Sizes(Values(members))
  {
    ValuesAt(members);
    ValuesSize(members);
    hide Values, Sizes, MemberSizes;
    assert forall i :: 0 <= i < |members| ==> Values(members)[i] == members[i].value;
  }

  lemma KeyOccurs(members: seq<Member>, i: nat)
    requires i < |members|
    ensures Occurs(Object(members), members[i].key)
  {
  }

  lemma PlainIsClean(value: Json, forbidden: set<string>)
    requires !value.Array? && !value.Object?
    ensures Clean(value, forbidden) && forall key :: !Occurs(value, key)
  {
  }

  // ----- the two copies -----

  lemma ServerKeysExtendClientKeys()
    ensures SERVER_KEYS == CLIENT_KEYS + REVOCATION_KEYS
  {
  }

  /** What the service accepts the client accepts; they differ exactly by the revocation secrets. */
  lemma {:induction false} ServerAcceptsLess(value: Json)
    ensures Clean(value, SERVER_KEYS) <==> Clean(value, CLIENT_KEYS) && forall key :: key in REVOCATION_KEYS ==> !Occurs(value, key)
  {
    ServerKeysExtendClientKeys();
    hide SERVER_KEYS, CLIENT_KEYS, REVOCATION_KEYS, Clean, Occurs;
    CleanMeansNoneOccurs(value, SERVER_KEYS);
    CleanMeansNoneOccurs(value, CLIENT_KEYS);
  }
}
