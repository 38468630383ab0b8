/** Which passport roots of a wallet are live, looked up one after another while the chain moves on. */
module RootLocator {
  import opened Wrappers
  import opened Ledger
  import opened CredentialStatus

  datatype RootRef = RootRef(isPassport: bool, isRooted: bool, root: Option<Field>)

  predicate Names(ref: RootRef, root: Field) { ref.isPassport && ref.isRooted && ref.root == Some(root) }

  predicate Candidate(refs: seq<RootRef>, root: Field) {
    exists i :: 0 <= i < |refs| && Names(refs[i], root)
  }

  /** The note is the root's own status note, and no kill switch of the root is on the chain. */
  predicate LiveAt(issuer: Field, note: Option<RootStatusNote>, root: Field, chain: Chain) {
    && note.Some? && note.value.rootCommitment == root
    && RootReason(issuer, note.value, chain) == ChainValid
  }

  /** The wallet's lookup of root status notes: each fetch takes its time and may find, miss or fail. */
  class NoteSource {
    const node: Node
    const stored: map<Field, RootStatusNote>
    ghost var fetched: map<Field, Option<RootStatusNote>>  // what the last fetch for each root gave

    constructor (node: Node, stored: map<Field, RootStatusNote>)
      ensures this.node == node && this.stored == stored && fetched == map[]
    {
      this.node, this.stored, fetched := node, stored, map[];
    }

    method FetchLiveRootStatusHint(root: Field) returns (note: Option<RootStatusNote>)
      requires node.Valid()
      modifies this`fetched, node
      ensures Extends(node.chain, old(node.chain)) && fetched == old(fetched)[root := note]
    {
      note := if root in stored then Some(stored[root]) else None;
      fetched := fetched[root := note];
    }
  }

  ghost predicate NoDuplicates(roots: seq<Field>) {
    forall i, j :: 0 <= i < j < |roots| ==> roots[i] != roots[j]
  }

  lemma LiveBefore(issuer: Field, note: Option<RootStatusNote>, root: Field, earlier: Chain, later: Chain)
    requires Extends(later, earlier) && LiveAt(issuer, note, root, later)
    ensures LiveAt(issuer, note, root, earlier)
  {
    RootNeverImproves(issuer, note.value, earlier, later);
    hide RootReason;
  }

  /** The roots of rooted passports, each once, in order of first appearance. */
  method CandidateRoots(refs: seq<RootRef>) returns (roots: seq<Field>)
    ensures NoDuplicates(roots) && forall root :: root in roots <==> Candidate(refs, root)
  {
    roots := [];
    for i := 0 to |refs|
      invariant NoDuplicates(roots) && forall root :: root in roots <==> Candidate(refs[..i], root)
    {
      var ref := refs[i];
      if ref.isPassport && ref.isRooted && ref.root.Some? && ref.root.value !in roots { roots := roots + [ref.root.value]; }
      forall root ensures root in roots <==> Candidate(refs[..i + 1], root) { OneMoreCandidate(refs, i, root); }
    }
    assert refs[..|refs|] == refs;
  }

  lemma OneMoreCandidate(refs: seq<RootRef>, i: nat, root: Field)
    requires i < |refs|
    ensures Candidate(refs[..i + 1], root) <==> Candidate(refs[..i], root) || Names(refs[i], root)
  {
    hide Names;
    if Candidate(refs[..i], root) {
      var k :| 0 <= k < i && Names(refs[..i][k], root);
      assert Names(refs[..i + 1][k], root);
    }
    if Names(refs[i], root) { assert Names(refs[..i + 1][i], root); }
  }

  /**
    Whatever is spent meanwhile and whatever notes the fetches give, the result lies between two moments:
    every root it lists was live when the search began, and it lists every root, whose note it was given,
    that is still live when the search ends.
   */
  method FindLivePassportRoots(source: NoteSource, issuer: Field, refs: seq<RootRef>) returns (live: seq<Field>)
    requires source.node.Valid()
    modifies source`fetched, source.node
    ensures Extends(source.node.chain, old(source.node.chain)) && NoDuplicates(live)
    ensures forall root :: Candidate(refs, root) ==> root in source.fetched
    ensures forall root :: root in live ==> Candidate(refs, root) && LiveAt(issuer, source.fetched[root], root, old(source.node.chain))
    ensures source.node.keepsBlocks ==>
              forall root :: Candidate(refs, root) && LiveAt(issuer, source.fetched[root], root, source.node.chain) ==> root in live
  {
    hide RootReason, Candidate;
    var node := source.node;
    var roots := CandidateRoots(refs);
    live := [];
    for i := 0 to |roots|
      invariant Extends(node.chain, old(node.chain)) && NoDuplicates(live)
      invariant forall k :: 0 <= k < i ==> roots[k] in source.fetched
      invariant forall root :: root in live ==> root in roots[..i] && LiveAt(issuer, source.fetched[root], root, old(node.chain))
      invariant node.keepsBlocks ==>
                  forall k :: 0 <= k < i && LiveAt(issuer, source.fetched[roots[k]], roots[k], node.chain) ==> roots[k] in live
    {
      var root := roots[i];
      ghost var before, notes := node.chain, source.fetched;
      var note := source.FetchLiveRootStatusHint(root);
      assert forall k :: 0 <= k < i ==> roots[k] != root && source.fetched[roots[k]] == notes[roots[k]];
      assert root !in live;
      ghost var fetchedAt := node.chain;
      // A missing note or an unreadable status only means that the root is no target.
      if note.Some? {
        var reading := ReadRootStatus(node, issuer, root, note.value);
        if reading.Ok? && reading.value.status == Active {
          ReadLive(issuer, note, root, reading.value.checkedAtBlock, node.chain, old(node.chain), fetchedAt);
          live := live + [root];
        } else if reading.Ok? {
          ReadDead(issuer, note, root, reading.value.checkedAtBlock, node.chain);
        }
      }
      forall k | 0 <= k < i && LiveAt(issuer, source.fetched[roots[k]], roots[k], node.chain)
        ensures LiveAt(issuer, source.fetched[roots[k]], roots[k], before)
      {
        LiveBefore(issuer, source.fetched[roots[k]], roots[k], before, node.chain);
      }
    }
    assert roots[..|roots|] == roots;
  }

  lemma ReadLive(issuer: Field, note: Option<RootStatusNote>, root: Field, n: nat, chain: Chain, start: Chain, before: Chain)
    requires note.Some? && note.value.rootCommitment == root
    requires 0 < n <= |chain| && |before| <= n && Extends(chain, before) && Extends(before, start)
    requires StatusOf(RootReason(issuer, note.value, chain[..n])) == Active
    ensures LiveAt(issuer, note, root, start)
  {
    assert Extends(chain[..n], start);
    hide Orderly;
    LiveBefore(issuer, note, root, start, chain[..n]);
  }

  lemma ReadDead(issuer: Field, note: Option<RootStatusNote>, root: Field, n: nat, chain: Chain)
    requires note.Some? && 0 < n <= |chain| && Orderly(chain)
    requires StatusOf(RootReason(issuer, note.value, chain[..n])) != Active
    ensures !LiveAt(issuer, note, root, chain)
  {
    RootNeverImproves(issuer, note.value, chain[..n], chain);
    hide RootReason;
  }
}
