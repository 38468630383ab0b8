/**
  The disclosed MRZ bytes of a passport or an identity card (ICAO Doc 9303, Part 4 section 4.2.2 and
  Part 5 section 4.2.2), and the search for the document type whose disclosure a proof commits to.
  The disclosure commitment is an injective constructor; the other commitments of a proof differ from it.
 */
module Disclosure {
  import opened Wrappers
  import opened PassportExpiry

  const MRZ_LENGTH := 90

  datatype Layout = Passport | IdCard

  function NationalityAt(layout: Layout): nat { if layout.Passport? then 54 else 45 }

  function ExpiryAt(layout: Layout): nat { if layout.Passport? then 65 else 38 }

  function FirstByte(layout: Layout): int { if layout.Passport? then 'P' as int else 'I' as int }

  const SUBTYPES: seq<int> := Encode("<ABCDEFGHIJKLMNOPQRSTUVWXYZ0123456789")

  datatype Disclosed = Disclosed(mask: seq<int>, bytes: seq<int>)

  datatype Commitment = Disclose(disclosed: Disclosed) | OtherParameter(value: int)

  /** What a disclosure of these fields shows at position i; the later field wins. */
  function ByteAt(layout: Layout, documentType: seq<int>, nationality: seq<int>, expiry: seq<int>, i: nat): Option<int> {
    var n, e := NationalityAt(layout), ExpiryAt(layout);
    if e <= i < e + |expiry| then Some(expiry[i - e])
    else if n <= i < n + |nationality| then Some(nationality[i - n])
    else if i < |documentType| then Some(documentType[i])
    else None
  }

  function Shown(layout: Layout, documentType: seq<int>, nationality: seq<int>, expiry: seq<int>): Disclosed {
    Disclosed(
      seq(MRZ_LENGTH, i requires 0 <= i => if ByteAt(layout, documentType, nationality, expiry, i).Some? then 1 else 0),
      seq(MRZ_LENGTH, i requires 0 <= i =>
        match ByteAt(layout, documentType, nationality, expiry, i) case Some(b) => b case None => 0))
  }

  /** A disclosure shows the three fields at the places of their layout, and masks every other position. */
  lemma ShownFields(layout: Layout, documentType: seq<int>, nationality: seq<int>, expiry: seq<int>)
    requires |documentType| == 2 && |nationality| == 3 && |expiry| == 6
    ensures var d, n, e := Shown(layout, documentType, nationality, expiry), NationalityAt(layout), ExpiryAt(layout);
            && |d.mask| == |d.bytes| == 90
            && d.bytes[..2] == documentType && d.bytes[n..n + 3] == nationality && d.bytes[e..e + 6] == expiry
            && forall i :: 0 <= i < 90 ==>
                 if i < 2 || n <= i < n + 3 || e <= i < e + 6 then d.mask[i] == 1 else d.mask[i] == 0 == d.bytes[i]
  {
    var d := Shown(layout, documentType, nationality, expiry);
    SliceOf(d.bytes, 0, documentType);
    SliceOf(d.bytes, NationalityAt(layout), nationality);
    SliceOf(d.bytes, ExpiryAt(layout), expiry);
  }

  lemma SliceOf(bytes: seq<int>, at: nat, values: seq<int>)
    requires at + |values| <= |bytes| && forall i :: at <= i < at + |values| ==> bytes[i] == values[i - at]
    ensures bytes[at..at + |values|] == values
  {
  }

  /** One `forEach` of the builders: the values are disclosed from position `at` on. */
  method Place(mask: array<int>, bytes: array<int>, at: nat, values: seq<int>)
    requires mask != bytes && mask.Length == bytes.Length && at + |values| <= mask.Length
    modifies mask, bytes
    ensures forall i :: 0 <= i < mask.Length ==>
              var hit := at <= i < at + |values|;
              mask[i] == (if hit then 1 else old(mask[i])) && bytes[i] == (if hit then values[i - at] else old(bytes[i]))
  {
    for k := 0 to |values|
      invariant forall i :: 0 <= i < mask.Length ==>
                  var hit := at <= i < at + k;
                  mask[i] == (if hit then 1 else old(mask[i])) && bytes[i] == (if hit then values[i - at] else old(bytes[i]))
    {
      mask[at + k] := 1;
      bytes[at + k] := values[k];
    }
  }

  /** The passport wrapper's copy. */
  method BuildDisclosure(layout: Layout, documentType: seq<int>, nationality: seq<int>, expiry: seq<int>)
    returns (d: Disclosed)
    requires |documentType| == 2 && |nationality| == 3 && |expiry| == 6
    ensures d == Shown(layout, documentType, nationality, expiry)
  {
    var mask, bytes := new int[MRZ_LENGTH](_ => 0), new int[MRZ_LENGTH](_ => 0);
    Place(mask, bytes, 0, documentType);
    Place(mask, bytes, NationalityAt(layout), nationality);
    Place(mask, bytes, ExpiryAt(layout), expiry);
    d := Disclosed(mask[..], bytes[..]);
  }

  /** The recovery wrapper's copy, which takes the subtype byte alone. */
  method BuildRecoveryDisclosure(layout: Layout, subtype: int, nationality: seq<int>, expiry: seq<int>)
    returns (d: Disclosed)
    requires |nationality| == 3 && |expiry| == 6
    ensures d == Shown(layout, [FirstByte(layout), subtype], nationality, expiry)
  {
    var mask, bytes := new int[MRZ_LENGTH](_ => 0), new int[MRZ_LENGTH](_ => 0);
    mask[0], mask[1] := 1, 1;
    bytes[0], bytes[1] := FirstByte(layout), subtype;
    Place(mask, bytes, NationalityAt(layout), nationality);
    Place(mask, bytes, ExpiryAt(layout), expiry);
    d := Disclosed(mask[..], bytes[..]);
  }

  /** A disclosure determines its layout and all three fields. */
  lemma ShownInjective(l: Layout, s: int, n: seq<int>, e: seq<int>, l': Layout, s': int, n': seq<int>, e': seq<int>)
    requires |n| == |n'| == 3 && |e| == |e'| == 6
    requires Shown(l, [FirstByte(l), s], n, e) == Shown(l', [FirstByte(l'), s'], n', e')
    ensures l == l' && s == s' && n == n' && e == e'
  {
    var b, b' := Shown(l, [FirstByte(l), s], n, e).bytes, Shown(l', [FirstByte(l'), s'], n', e').bytes;
    assert b[0] == FirstByte(l) && b'[0] == FirstByte(l');
    assert b[1] == s && b'[1] == s';
    forall i | 0 <= i < 3 ensures n[i] == n'[i] {
      assert b[NationalityAt(l) + i] == n[i] && b'[NationalityAt(l) + i] == n'[i];
    }
    forall i | 0 <= i < 6 ensures e[i] == e'[i] {
      assert b[ExpiryAt(l) + i] == e[i] && b'[ExpiryAt(l) + i] == e'[i];
    }
  }

  datatype Match = Match(layout: Layout, subtype: int)

  /** The 74 candidates in the order of the search: both layouts, each with every subtype byte. */
  function Candidate(k: nat): Match
    requires k < 2 * |SUBTYPES|
  {
    if k < |SUBTYPES| then Match(Passport, SUBTYPES[k]) else Match(IdCard, SUBTYPES[k - |SUBTYPES|])
  }

  function CommitmentOf(c: Match, nationality: seq<int>, expiry: seq<int>): Commitment {
    Disclose(Shown(c.layout, [FirstByte(c.layout), c.subtype], nationality, expiry))
  }

  /** The first candidate whose commitment is among those of the proof. */
  method FindDisclosure(nationality: seq<int>, expiry: seq<int>, commitments: set<Commitment>) returns (r: Option<Match>)
    requires |nationality| == 3 && |expiry| == 6
    ensures r == Search(nationality, expiry, commitments, 0)
  {
    for k := 0 to 2 * |SUBTYPES|
      invariant Search(nationality, expiry, commitments, 0) == Search(nationality, expiry, commitments, k)
    {
      var c := Candidate(k);
      var d := BuildDisclosure(c.layout, [FirstByte(c.layout), c.subtype], nationality, expiry);
      if Disclose(d) in commitments { return Some(c); }
    }
    r := None;
  }

  function Search(nationality: seq<int>, expiry: seq<int>, commitments: set<Commitment>, k: nat): Option<Match>
    decreases 2 * |SUBTYPES| - k
  {
    if k >= 2 * |SUBTYPES| then None
    else if CommitmentOf(Candidate(k), nationality, expiry) in commitments then Some(Candidate(k))
    else Search(nationality, expiry, commitments, k + 1)
  }

  /** The search gives the first candidate whose commitment is there: passports before identity cards, each by subtype. */
  lemma {:induction false} SearchIsFirst(nationality: seq<int>, expiry: seq<int>, commitments: set<Commitment>, from: nat)
    requires from <= 2 * |SUBTYPES|
    ensures match Search(nationality, expiry, commitments, from)
            case Some(c) =>
              exists k :: from <= k < 2 * |SUBTYPES| && c == Candidate(k) && CommitmentOf(c, nationality, expiry) in commitments
                          && forall j :: from <= j < k ==> CommitmentOf(Candidate(j), nationality, expiry) !in commitments
            case None => forall k :: from <= k < 2 * |SUBTYPES| ==> CommitmentOf(Candidate(k), nationality, expiry) !in commitments
    decreases 2 * |SUBTYPES| - from
  {
    hide SUBTYPES, CommitmentOf, Candidate;
    if from < 2 * |SUBTYPES| {
      if CommitmentOf(Candidate(from), nationality, expiry) !in commitments { SearchIsFirst(nationality, expiry, commitments, from + 1); }
    }
  }

  /** The disclosure that the proof authenticates; no other disclosure is committed to. */
  ghost predicate Authenticates(commitments: set<Commitment>, doc: Match, nationality: seq<int>, expiry: seq<int>) {
    forall c <- commitments :: c.Disclose? <==> c == CommitmentOf(doc, nationality, expiry)
  }

  ghost predicate Supported(doc: Match) { doc.subtype in SUBTYPES }

  /** Every supported document is a candidate. */
  lemma CandidateOf(doc: Match) returns (k: nat)
    requires Supported(doc)
    ensures k < 2 * |SUBTYPES| && Candidate(k) == doc
  {
    hide SUBTYPES;
    var i :| 0 <= i < |SUBTYPES| && SUBTYPES[i] == doc.subtype;
    k := if doc.layout.Passport? then i else |SUBTYPES| + i;
  }

  /**
    The search succeeds exactly when the witness shows the nationality and the expiry that the proof
    authenticates for a supported document, and then it finds that very document.
   */
  lemma SearchBinds(commitments: set<Commitment>, doc: Match, nationality: seq<int>, expiry: seq<int>,
                    nationality': seq<int>, expiry': seq<int>)
    requires |nationality| == |nationality'| == 3 && |expiry| == |expiry'| == 6
    requires Authenticates(commitments, doc, nationality, expiry)
    requires CommitmentOf(doc, nationality, expiry) in commitments
    ensures Search(nationality', expiry', commitments, 0)
            == if nationality' == nationality && expiry' == expiry && Supported(doc) then Some(doc) else None
  {
    hide SUBTYPES, Search, CommitmentOf, Candidate, Shown, FirstByte;
    if nationality' == nationality && expiry' == expiry && Supported(doc) {
      var k := CandidateOf(doc);
      SearchFrom(commitments, doc, nationality, expiry, nationality', expiry', 0, k);
    } else {
      SearchNothing(commitments, doc, nationality, expiry, nationality', expiry', 0);
    }
  }

  lemma OnlyMatch(commitments: set<Commitment>, doc: Match, n: seq<int>, e: seq<int>, n': seq<int>, e': seq<int>, k: nat)
    requires |n| == |n'| == 3 && |e| == |e'| == 6 && k < 2 * |SUBTYPES|
    requires Authenticates(commitments, doc, n, e) && CommitmentOf(Candidate(k), n', e') in commitments
    ensures Candidate(k) == doc && n' == n && e' == e
  {
    var c := Candidate(k);
    assert CommitmentOf(c, n', e') == CommitmentOf(doc, n, e);
    ShownInjective(c.layout, c.subtype, n', e', doc.layout, doc.subtype, n, e);
  }

  lemma {:induction false} SearchNothing(commitments: set<Commitment>, doc: Match, n: seq<int>, e: seq<int>,
                                         n': seq<int>, e': seq<int>, k: nat)
    requires |n| == |n'| == 3 && |e| == |e'| == 6
    requires Authenticates(commitments, doc, n, e) && !(n' == n && e' == e && Supported(doc))
    ensures Search(n', e', commitments, k).None?
    decreases 2 * |SUBTYPES| - k
  {
    hide CommitmentOf, Shown, FirstByte;
    if k < 2 * |SUBTYPES| {
      if CommitmentOf(Candidate(k), n', e') in commitments {
        OnlyMatch(commitments, doc, n, e, n', e', k);
      }
      SearchNothing(commitments, doc, n, e, n', e', k + 1);
    }
  }

  lemma {:induction false} SearchFrom(commitments: set<Commitment>, doc: Match, n: seq<int>, e: seq<int>,
                                      n': seq<int>, e': seq<int>, k: nat, goal: nat)
    requires |n| == |n'| == 3 && |e| == |e'| == 6 && k <= goal < 2 * |SUBTYPES|
    requires Authenticates(commitments, doc, n, e) && n' == n && e' == e && Candidate(goal) == doc
    requires CommitmentOf(doc, n, e) in commitments
    ensures Search(n', e', commitments, k) == Some(doc)
    decreases goal - k
  {
    hide SUBTYPES, CommitmentOf, Shown, FirstByte;
    if CommitmentOf(Candidate(k), n', e') in commitments {
      OnlyMatch(commitments, doc, n, e, n', e', k);
    } else {
      SearchFrom(commitments, doc, n, e, n', e', k + 1, goal);
    }
  }

  /** The recovery self-check: after the search finds a document, it finds none for the mutated expiry. */
  lemma MutatedExpiryRejected(commitments: set<Commitment>, doc: Match, nationality: seq<int>, expiry: seq<int>,
                              nationality': seq<int>, ts: int)
    requires |nationality| == |nationality'| == 3 && |expiry| == 6
    requires Authenticates(commitments, doc, nationality, expiry) && CommitmentOf(doc, nationality, expiry) in commitments
    requires ts >= 0 && ExpiryMrz(ts).Ok?
    requires Search(nationality', ExpiryMrz(ts).value, commitments, 0).Some?
    requires InTimeRange(ts + SECONDS_PER_DAY)
    ensures ExpiryMrz(ts + SECONDS_PER_DAY).Ok?
    ensures Search(nationality', ExpiryMrz(ts + SECONDS_PER_DAY).value, commitments, 0).None?
  {
    var us := ts + SECONDS_PER_DAY;
    MutatedExpiryDiffers(ts);
    ShowsTheDate(ts);
    ShowsTheDate(us);
    SearchBinds(commitments, doc, nationality, expiry, nationality', ExpiryMrz(ts).value);
    SearchBinds(commitments, doc, nationality, expiry, nationality', ExpiryMrz(us).value);
  }
}
