/**
  Waiting for a recovery message on a local network whose L1 clock is moved by debug warps: each warp is
  paced against the host clock, so that the wait itself cannot push L1 ahead.
 */
module ClockPacing {
  import opened Wrappers

  const LOCAL_ANVIL_CHAIN_ID := 31337
  const DANGER_SECONDS := 180
  const LOCAL_DEADLINE_MS := 180_000

  function Max(a: int, b: int): int { if a >= b then a else b }

  /** Whole seconds of a clock in milliseconds. */
  function Seconds(ms: nat): nat { ms / 1000 }

  lemma SecondsGrow(earlier: nat, later: nat)
    requires earlier <= later
    ensures Seconds(earlier) <= Seconds(later)
  {
  }

  function CheckpointWaitSeconds(latestBlockTimestamp: int, wallTimestamp: int): nat {
    if latestBlockTimestamp >= wallTimestamp then latestBlockTimestamp - wallTimestamp + 1 else 0
  }

  /** The wait is the least one after which L1 is strictly behind the host. */
  lemma WaitIsLeast(l1: int, wall: int, wait: nat)
    ensures l1 < wall + wait <==> CheckpointWaitSeconds(l1, wall) <= wait
  {
  }

  /** A debug warp, with the block time and the host clock read last before it. */
  datatype Warp = Warp(target: nat, lastBlock: nat, lastClock: nat)

  datatype Poll = NodeError | NotReady | Witness(leafIndex: nat)

  datatype Outcome =
    | Ready(localCheckpointsAdvanced: nat)
    | IndexMismatch(leafIndex: nat)
    | DeadlineExceeded
    | TooFarAhead(drift: int)
    | WrongChain
    | NotCommitted(hadNodeError: bool)

  /**
    The local network and the host clock. During any call time passes, and others may add L1 blocks stamped
    up to host time. A warp moves L1 to its target, rounded up by at most one slot.
   */
  class LocalNetwork {
    const slot: nat
    const nodeChainId: nat
    const l1ChainId: nat
    var now: nat           // host clock, in milliseconds
    var l1: nat            // time of the latest L1 block, in seconds
    var l2Block: nat
    ghost var peak: int    // the highest drift there has been
    ghost var lastBlock: nat
    ghost var lastClock: nat
    ghost var unread: bool // a block was read and the clock not since
    ghost var seen: int    // the highest drift anyone read: a block's time and then the clock
    ghost var warps: seq<Warp>
    ghost var polls: seq<Poll>

    function Drift(): int
      reads this
    {
      l1 - Seconds(now)
    }

    ghost predicate Valid()
      reads this
    {
      Drift() <= peak
    }

    constructor (slot: nat, nodeChainId: nat, l1ChainId: nat, now: nat, l1: nat)
      ensures Valid() && peak == Drift() && this.slot == slot && warps == [] && polls == [] && !unread && seen == 0
    {
      this.slot, this.nodeChainId, this.l1ChainId, this.now, this.l1, l2Block := slot, nodeChainId, l1ChainId, now, l1, 0;
      peak, lastBlock, lastClock, warps, polls := l1 - Seconds(now), 0, 0, [], [];
      unread, seen := false, 0;
    }

    /** Time passed, and nobody put L1 ahead of the host. */
    twostate predicate Elapsed()
      reads this
    {
      && Valid() && old(now) <= now && old(l2Block) <= l2Block
      && old(l1) <= l1 <= Max(old(l1), Seconds(now)) && old(peak) <= peak <= Max(old(peak), 0)
    }

    method DateNow() returns (ms: nat)
      requires Valid()
      modifies this`now, this`l1, this`l2Block, this`peak, this`lastClock, this`unread, this`seen
      ensures Elapsed() && ms == now == lastClock
      ensures !unread && seen == if old(unread) then Max(old(seen), lastBlock - Seconds(now)) else old(seen)
    {
      seen := if unread then Max(seen, lastBlock - Seconds(now)) else seen;
      lastClock, unread := now, false;
      ms := now;
    }

    method GetBlockTimestamp() returns (timestamp: nat)
      requires Valid()
      modifies this`now, this`l1, this`l2Block, this`peak, this`lastBlock, this`unread
      ensures Elapsed() && timestamp == l1 == lastBlock && unread
    {
      lastBlock, unread := l1, true;
      timestamp := l1;
    }

    method GetBlockNumber() returns (n: nat)
      requires Valid()
      modifies this`now, this`l1, this`l2Block, this`peak
      ensures Elapsed() && n == l2Block
    {
      n := l2Block;
    }

    method Sleep(ms: nat)
      requires Valid()
      modifies this`now, this`l1, this`l2Block, this`peak
      ensures Elapsed() && now >= old(now) + ms
    {
      now := now + ms;
    }

    method WarpL2TimeAtLeastTo(target: nat)
      requires Valid()
      modifies this`now, this`l1, this`l2Block, this`peak, this`warps
      ensures Valid() && old(now) <= now && old(l2Block) <= l2Block && target <= l1
      ensures l1 <= Max(Max(old(l1), Seconds(now)), target + slot)
      ensures old(peak) <= peak <= Max(Max(old(peak), 0), target + slot - Seconds(old(now)))
      ensures warps == old(warps) + [Warp(target, lastBlock, lastClock)]
    {
      warps := warps + [Warp(target, lastBlock, lastClock)];
      if l1 < target {
        l1, l2Block := target, l2Block + 1;
        peak := Max(peak, Drift());
      }
    }

    /** Whether the message is committed, and with its witness at which leaf. */
    method PollMessage() returns (r: Poll)
      requires Valid()
      modifies this`now, this`l1, this`l2Block, this`peak, this`polls
      ensures Elapsed() && polls == old(polls) + [r]
    {
      r := NotReady;
      polls := polls + [r];
    }
  }

  /** Warps target host time, and only when L1 was seen strictly behind it. */
  ghost predicate Paced(warps: seq<Warp>) {
    forall i :: 0 <= i < |warps| ==> warps[i].lastBlock < warps[i].target == Seconds(warps[i].lastClock)
  }

  /** One warp to a time that the host has reached; whether it made a new L2 block. */
  method WarpTo(net: LocalNetwork, target: nat) returns (advanced: bool)
    requires net.Valid() && target <= Seconds(net.now)
    modifies net`now, net`l1, net`l2Block, net`peak, net`warps
    ensures net.Valid() && old(net.now) <= net.now && old(net.l2Block) <= net.l2Block
    ensures old(net.peak) <= net.peak <= Max(old(net.peak), net.slot)
    ensures net.warps == old(net.warps) + [Warp(target, net.lastBlock, net.lastClock)]
    ensures advanced ==> net.l2Block > old(net.l2Block)
  {
    var beforeL2Block := net.GetBlockNumber();
    SecondsGrow(old(net.now), net.now);
    hide Seconds;
    net.WarpL2TimeAtLeastTo(target);
    var afterL2Block := net.GetBlockNumber();
    advanced := afterL2Block > beforeL2Block;
  }

  /** Too far ahead is reported exactly when a drift of the danger bound was read that was not there before. */
  predicate RefusesDanger(refused: bool, before: int, seen: int) {
    && before <= seen && (before < DANGER_SECONDS ==> (refused <==> seen >= DANGER_SECONDS))
  }

  /** One checkpoint, or the reason why not: until L1 is behind the host, this waits. */
  method AdvanceClockPacedCheckpoint(net: LocalNetwork, localDeadline: nat) returns (failure: Option<Outcome>)
    requires net.Valid() && !net.unread
    modifies net`now, net`l1, net`l2Block, net`peak, net`warps, net`lastBlock, net`lastClock, net`unread, net`seen
    ensures !net.unread && RefusesDanger(failure.Some? && failure.value.TooFarAhead?, old(net.seen), net.seen)
    ensures net.Valid() && old(net.now) <= net.now && old(net.peak) <= net.peak <= Max(old(net.peak), net.slot)
    ensures old(net.warps) <= net.warps && Paced(net.warps[|old(net.warps)|..])
    ensures match failure
            case None => net.l2Block > old(net.l2Block) && |net.warps| > |old(net.warps)|
            case Some(DeadlineExceeded) => net.now >= localDeadline
            case Some(TooFarAhead(drift)) => DANGER_SECONDS <= drift <= net.peak
            case _ => false
  {
    hide Seconds, Paced;
    ghost var paced: seq<Warp> := [];
    NoWarps();
    while true
      invariant net.Valid() && old(net.now) <= net.now && old(net.peak) <= net.peak <= Max(old(net.peak), net.slot)
      invariant old(net.l2Block) <= net.l2Block
      invariant !net.unread && old(net.seen) <= net.seen && (net.seen == old(net.seen) || net.seen < DANGER_SECONDS)
      invariant net.warps == old(net.warps) + paced && Paced(paced)
      decreases localDeadline - net.now
    {
      assert net.warps[|old(net.warps)|..] == paced;
      var clock := net.DateNow();
      if clock >= localDeadline { return Some(DeadlineExceeded); }
      var latest: int := net.GetBlockTimestamp();
      ghost var readAt := net.now;
      var ms := net.DateNow();
      SecondsGrow(readAt, ms);
      var wallTimestamp: int := Seconds(ms);
      var drift: int := latest - wallTimestamp;
      if drift >= DANGER_SECONDS { return Some(TooFarAhead(drift)); }
      var waitSeconds := CheckpointWaitSeconds(latest, wallTimestamp);
      if waitSeconds == 0 {
        SecondsGrow(ms, net.now);
        var advanced := WarpTo(net, wallTimestamp);
        OneWarp(paced, latest, ms);
        paced := paced + [Warp(wallTimestamp, latest, ms)];
        assert net.warps[|old(net.warps)|..] == paced;
        if advanced { return None; }
        // Someone else's L1 block made the target a no-op: read both clocks again.
        net.Sleep(1_000);
      } else {
        net.Sleep(if waitSeconds > 1 then 1_000 else waitSeconds * 1_000);
      }
    }
  }

  lemma OneWarp(warps: seq<Warp>, lastBlock: nat, lastClock: nat)
    requires Paced(warps) && lastBlock < Seconds(lastClock)
    ensures Paced(warps + [Warp(Seconds(lastClock), lastBlock, lastClock)])
  {
  }

  /** The polls of a wait end with the expected leaf, another leaf, or no answer at all. */
  method PollOnce(net: LocalNetwork, expectedLeafIndex: nat) returns (answer: Option<bool>, index: nat, failed: bool)
    requires net.Valid()
    modifies net`now, net`l1, net`l2Block, net`peak, net`polls
    ensures net.Elapsed() && |net.polls| == |old(net.polls)| + 1 && old(net.polls) <= net.polls
    ensures var poll := net.polls[|old(net.polls)|];
            match answer
            case Some(expected) => poll == Witness(index) && (expected <==> index == expectedLeafIndex)
            case None => !poll.Witness? && (failed <==> poll.NodeError?)
  {
    var poll := net.PollMessage();
    match poll {
      case NodeError => return None, 0, true;
      case NotReady => return None, 0, false;
      case Witness(leafIndex) => return Some(leafIndex == expectedLeafIndex), leafIndex, false;
    }
  }

  /** Without debug warps. */
  method WaitByPolling(net: LocalNetwork, expectedLeafIndex: nat, attempts: nat, pollMs: nat) returns (r: Outcome)
    requires net.Valid()
    modifies net`now, net`l1, net`l2Block, net`peak, net`polls
    ensures net.Valid() && old(net.peak) <= net.peak <= Max(old(net.peak), 0)
    ensures old(net.polls) <= net.polls && |net.polls| <= |old(net.polls)| + attempts
    ensures Reported(r, net.polls[|old(net.polls)|..], expectedLeafIndex, attempts)
    ensures r == Ready(0) || r.IndexMismatch? || r.NotCommitted?
  {
    hide Reported;
    var hadNodeError := false;
    ghost var answers: seq<Poll> := [];
    for attempt := 0 to attempts
      invariant net.Valid() && old(net.peak) <= net.peak <= Max(old(net.peak), 0)
      invariant net.polls == old(net.polls) + answers && |answers| == attempt
      invariant Unanswered(answers) && (hadNodeError <==> NodeError in answers)
    {
      var answer, index, failed := PollOnce(net, expectedLeafIndex);
      ghost var poll := net.polls[|old(net.polls)| + attempt];
      Answered(answers, poll, expectedLeafIndex, attempts);
      answers := answers + [poll];
      assert net.polls[|old(net.polls)|..] == answers;
      if answer.Some? { return if answer.value then Ready(0) else IndexMismatch(index); }
      hadNodeError := hadNodeError || failed;
      net.Sleep(pollMs);
    }
    r := NotCommitted(hadNodeError);
    assert net.polls[|old(net.polls)|..] == answers;
    Unheard(answers, hadNodeError, expectedLeafIndex, attempts);
  }

  /** With debug warps, on the local chain only. */
  method WaitLocally(net: LocalNetwork, expectedLeafIndex: nat, attempts: nat, pollMs: nat, localDeadline: nat) returns (r: Outcome)
    requires net.Valid() && !net.unread
    modifies net
    ensures net.Valid() && old(net.peak) <= net.peak <= Max(old(net.peak), net.slot)
    ensures old(net.warps) <= net.warps && Paced(net.warps[|old(net.warps)|..])
    ensures old(net.polls) <= net.polls && |net.polls| <= |old(net.polls)| + attempts
    ensures Reported(r, net.polls[|old(net.polls)|..], expectedLeafIndex, attempts) && !r.WrongChain?
    ensures r.Ready? ==> r.localCheckpointsAdvanced == |net.polls| - |old(net.polls)| - 1 <= |net.warps| - |old(net.warps)|
    ensures r.DeadlineExceeded? ==> net.now >= localDeadline
    ensures r.Ready? || r.IndexMismatch? ==> net.lastClock < localDeadline
    ensures r.TooFarAhead? ==> Max(old(net.peak), net.slot) >= DANGER_SECONDS
    ensures !net.unread && RefusesDanger(r.TooFarAhead?, old(net.seen), net.seen)
  {
    hide Reported, Paced;
    var hadNodeError := false;
    var advanced := 0;
    ghost var answers: seq<Poll> := [];
    ghost var warps: seq<Warp> := [];
    NoWarps();
    for attempt := 0 to attempts
      invariant net.Valid() && old(net.peak) <= net.peak <= Max(old(net.peak), net.slot)
      invariant net.warps == old(net.warps) + warps && Paced(warps) && advanced == attempt <= |warps|
      invariant !net.unread && RefusesDanger(false, old(net.seen), net.seen)
      invariant net.polls == old(net.polls) + answers && |answers| == attempt
      invariant Unanswered(answers) && (hadNodeError <==> NodeError in answers)
    {
      assert net.polls[|old(net.polls)|..] == answers && net.warps[|old(net.warps)|..] == warps;
      var clock := net.DateNow();
      if clock >= localDeadline { Unreported(answers, expectedLeafIndex, attempts, 0); return DeadlineExceeded; }
      var answer, index, failed := PollOnce(net, expectedLeafIndex);
      ghost var poll := net.polls[|old(net.polls)| + attempt];
      Answered(answers, poll, expectedLeafIndex, attempts);
      answers := answers + [poll];
      assert net.polls[|old(net.polls)|..] == answers;
      if answer.Some? { return if answer.value then Ready(advanced) else IndexMismatch(index); }
      hadNodeError := hadNodeError || failed;
      label advancing:
      var failure := AdvanceClockPacedCheckpoint(net, localDeadline);
      ghost var more := net.warps[|old@advancing(net.warps)|..];
      MoreWarps(warps, more);
      warps := warps + more;
      assert net.warps[|old(net.warps)|..] == warps;
      if failure.Some? {
        Unreported(answers, expectedLeafIndex, attempts, if failure.value.TooFarAhead? then failure.value.drift else 0);
        return failure.value;
      }
      advanced := advanced + 1;
      net.Sleep(pollMs);
    }
    r := NotCommitted(hadNodeError);
    assert net.polls[|old(net.polls)|..] == answers && net.warps[|old(net.warps)|..] == warps;
    Unheard(answers, hadNodeError, expectedLeafIndex, attempts);
  }

  /**
    The wait ends by the attempts or the deadline. It reports success only for the expected leaf, and any
    warp it makes is paced, so the drift never exceeds one slot or what it was; in a healthy network it
    therefore never finds itself too far ahead.
   */
  method WaitForInboxMessage(net: LocalNetwork, expectedLeafIndex: nat, enableLocalCheckpointAdvancement: bool, attempts: nat, pollMs: nat)
    returns (r: Outcome)
    requires net.Valid() && !net.unread
    modifies net
    ensures net.Valid() && old(net.peak) <= net.peak <= Max(old(net.peak), net.slot)
    ensures old(net.warps) <= net.warps && Paced(net.warps[|old(net.warps)|..])
    ensures !enableLocalCheckpointAdvancement || r.WrongChain? ==> net.warps == old(net.warps)
    ensures r.WrongChain? <==> enableLocalCheckpointAdvancement
                               && (net.nodeChainId != LOCAL_ANVIL_CHAIN_ID || net.l1ChainId != LOCAL_ANVIL_CHAIN_ID)
    ensures old(net.polls) <= net.polls && |net.polls| <= |old(net.polls)| + attempts
    ensures Reported(r, net.polls[|old(net.polls)|..], expectedLeafIndex, attempts)
    ensures r.Ready? ==>
              if enableLocalCheckpointAdvancement
              then r.localCheckpointsAdvanced == |net.polls| - |old(net.polls)| - 1 <= |net.warps| - |old(net.warps)|
              else r.localCheckpointsAdvanced == 0
    ensures r.DeadlineExceeded? ==> enableLocalCheckpointAdvancement && net.now >= old(net.now) + LOCAL_DEADLINE_MS
    ensures r.TooFarAhead? ==> enableLocalCheckpointAdvancement && Max(old(net.peak), net.slot) >= DANGER_SECONDS
    ensures !net.unread && RefusesDanger(r.TooFarAhead?, old(net.seen), net.seen)
  {
    if enableLocalCheckpointAdvancement {
      var start := net.DateNow();
      if net.nodeChainId != LOCAL_ANVIL_CHAIN_ID { return WrongChain; }
      if net.l1ChainId != LOCAL_ANVIL_CHAIN_ID { return WrongChain; }
      hide Reported, Paced;
      r := WaitLocally(net, expectedLeafIndex, attempts, pollMs, start + LOCAL_DEADLINE_MS);
    } else {
      NoWarps();
      hide Reported, Paced;
      r := WaitByPolling(net, expectedLeafIndex, attempts, pollMs);
    }
  }

  lemma NoWarps()
    ensures Paced([])
  {
  }

  lemma MoreWarps(warps: seq<Warp>, more: seq<Warp>)
    requires Paced(warps) && Paced(more)
    ensures Paced(warps + more)
  {
  }

  /** An answer ends the wait with its leaf. */
  lemma Answered(answers: seq<Poll>, poll: Poll, expectedLeafIndex: nat, attempts: nat)
    requires Unanswered(answers)
    ensures poll.Witness? && poll.leafIndex == expectedLeafIndex ==>
              forall n :: Reported(Ready(n), answers + [poll], expectedLeafIndex, attempts)
    ensures poll.Witness? && poll.leafIndex != expectedLeafIndex ==>
              Reported(IndexMismatch(poll.leafIndex), answers + [poll], expectedLeafIndex, attempts)
  {
    assert (answers + [poll])[..|answers|] == answers;
  }

  lemma Unheard(answers: seq<Poll>, hadNodeError: bool, expectedLeafIndex: nat, attempts: nat)
    requires Unanswered(answers) && |answers| == attempts && (hadNodeError <==> NodeError in answers)
    ensures Reported(NotCommitted(hadNodeError), answers, expectedLeafIndex, attempts)
  {
  }

  lemma Unreported(answers: seq<Poll>, expectedLeafIndex: nat, attempts: nat, drift: int)
    requires Unanswered(answers)
    ensures Reported(DeadlineExceeded, answers, expectedLeafIndex, attempts) && Reported(TooFarAhead(drift), answers, expectedLeafIndex, attempts)
  {
  }

  ghost predicate Unanswered(polls: seq<Poll>) { forall i :: 0 <= i < |polls| ==> !polls[i].Witness? }

  /** What the node answered, for each way to end. */
  ghost predicate Reported(r: Outcome, polls: seq<Poll>, expectedLeafIndex: nat, attempts: nat) {
    match r
    case Ready(_) => polls != [] && polls[|polls| - 1] == Witness(expectedLeafIndex) && Unanswered(polls[..|polls| - 1])
    case IndexMismatch(index) =>
      polls != [] && polls[|polls| - 1] == Witness(index) && index != expectedLeafIndex && Unanswered(polls[..|polls| - 1])
    case NotCommitted(hadNodeError) => |polls| == attempts && Unanswered(polls) && (hadNodeError <==> NodeError in polls)
    case _ => Unanswered(polls)
  }
}
