/**
  Any number of brokers and popups over one broadcast channel. A message is posted once to a log; each
  party may be handed a logged message at most once, in any order, or never. Timers, handlers, passkey
  ceremonies, new tabs and closing tabs happen at any moment. A run is any sequence of events.
 */
module SessionProtocol {
  import opened Wrappers
  import opened SessionMessages
  import opened SessionBroker

  datatype Party = ToBroker(brokerId: Id) | ToPopup(requestId: Id)

  /** What became of an execute message that reached its broker. */
  datatype Status = Running | Ended(result: HandlerResult) | TurnedAway

  datatype Execution = Execution(brokerId: Id, input: LoginInput, at: nat, status: Status)

  /** What a handler asked for: a signature of its wallet's passkey over a challenge. */
  datatype Request = Request(brokerId: Id, requestId: Id, credentialId: string, challenge: seq<byte>)

  /** A passkey ceremony that a popup runs for an assertion. */
  datatype Ceremony = Ceremony(requestId: Id, assertionId: Id, credentialId: string, challenge: seq<byte>)

  /** Parties and channel, and the history: executions, handler starts, assertions asked, performed and settled. */
  datatype System = System(
    brokers: map<Id, Broker>,
    popups: map<Id, Popup>,
    log: seq<Message>,
    seen: set<(Party, nat)>,
    executions: map<Id, Execution>,
    starts: multiset<Id>,
    asked: map<Id, Request>,
    performing: set<Ceremony>,
    performed: set<(Ceremony, Assertion)>,
    settled: map<Id, Settlement>)

  const INIT := System(map[], map[], [], {}, map[], multiset{}, map[], {}, {}, map[])

  datatype Event =
    | OpenBroker(broker: Id, credentialId: string)
    | OpenPopup(request: Id, input: LoginInput, target: string, canAssert: bool)
    | Deliver(party: Party, index: nat)
    | HandlerEnds(request: Id, result: HandlerResult)
    | HandlerAsks(broker: Id, assertion: Id, challenge: seq<byte>)
    | AssertionTimesOut(broker: Id, assertion: Id)
    | PasskeyAnswers(ceremony: Ceremony, answer: Settlement)
    | DiscoveryTimesOut(request: Id)
    | CompletionTimesOut(request: Id)
    | CloseBroker(broker: Id)

  predicate Enabled(s: System, e: Event) {
    match e
    case OpenBroker(b, _) => b !in s.brokers
    case OpenPopup(r, _, _, _) => r !in s.popups
    case Deliver(party, i) =>
      && i < |s.log| && (party, i) !in s.seen
      && (match party
          case ToBroker(b) => b in s.brokers && !s.brokers[b].closed
          case ToPopup(r) => r in s.popups && s.popups[r].result.None?)
    case HandlerEnds(r, _) =>
      r in s.executions && s.executions[r].status.Running? && s.executions[r].brokerId in s.brokers
    case HandlerAsks(b, a, c) => b in s.brokers && a !in s.asked && BrokerAsks(s.brokers[b], a, c).Some?
    case AssertionTimesOut(b, a) => b in s.brokers && a in s.brokers[b].pending
    case PasskeyAnswers(c, _) => c in s.performing && c.requestId in s.popups && s.popups[c.requestId].selected.Some?
    case DiscoveryTimesOut(r) => r in s.popups && s.popups[r].result.None? && s.popups[r].selected.None?
    case CompletionTimesOut(r) => r in s.popups && s.popups[r].result.None? && s.popups[r].selected.Some?
    case CloseBroker(b) => b in s.brokers
  }

  function DeliverToBroker(s: System, b: Id, i: nat): System
    requires b in s.brokers && i < |s.log|
  {
    var m := s.log[i];
    var reaction := BrokerOnMessage(s.brokers[b], m);
    s.(brokers := s.brokers[b := reaction.next],
       log := s.log + reaction.posts,
       seen := s.seen + {(ToBroker(b), i)},
       executions := if m.Execute? && m.brokerId == b
                     then s.executions[m.requestId := if reaction.start.Some? then Execution(b, reaction.start.value, i, Running)
                                                      else Execution(b, m.input, i, TurnedAway)]
                     else s.executions,
       starts := if reaction.start.Some? then s.starts + multiset{m.requestId} else s.starts,
       settled := if reaction.settled.Some? then s.settled[reaction.settled.value.0 := reaction.settled.value.1] else s.settled)
  }

  function CeremonyOf(r: Id, perform: (Id, string, seq<byte>)): Ceremony { Ceremony(r, perform.0, perform.1, perform.2) }

  function DeliverToPopup(s: System, r: Id, i: nat): System
    requires r in s.popups && i < |s.log|
  {
    var reaction := PopupOnMessage(s.popups[r], s.log[i]);
    s.(popups := s.popups[r := reaction.next],
       log := s.log + reaction.posts,
       seen := s.seen + {(ToPopup(r), i)},
       performing := if reaction.perform.Some? then s.performing + {CeremonyOf(r, reaction.perform.value)} else s.performing)
  }

  function EndHandler(s: System, r: Id, result: HandlerResult): System
    requires r in s.executions && s.executions[r].brokerId in s.brokers
  {
    var x := s.executions[r];
    var reaction := BrokerOnHandlerEnd(s.brokers[x.brokerId], r, result);
    s.(brokers := s.brokers[x.brokerId := reaction.next],
       log := s.log + reaction.posts,
       executions := s.executions[r := x.(status := Ended(result))])
  }

  function AskAssertion(s: System, b: Id, a: Id, challenge: seq<byte>): System
    requires b in s.brokers && BrokerAsks(s.brokers[b], a, challenge).Some?
  {
    var reaction := BrokerAsks(s.brokers[b], a, challenge).value;
    s.(brokers := s.brokers[b := reaction.next],
       log := s.log + reaction.posts,
       asked := s.asked[a := Request(b, s.brokers[b].active.value, s.brokers[b].credentialId, challenge)])
  }

  function AnswerPosts(s: System, c: Ceremony, answer: Settlement): seq<Message>
    requires c.requestId in s.popups && s.popups[c.requestId].selected.Some?
  {
    PopupAnswers(s.popups[c.requestId], s.popups[c.requestId].selected.value, c.assertionId, answer)
  }

  function AnswerAssertion(s: System, c: Ceremony, answer: Settlement): System
    requires c.requestId in s.popups && s.popups[c.requestId].selected.Some?
  {
    s.(log := s.log + AnswerPosts(s, c, answer),
       performing := s.performing - {c},
       performed := if answer.Fulfilled? then s.performed + {(c, answer.assertion)} else s.performed)
  }

  /** Assertions of a broker that end without an answer; `closing` also closes the broker. */
  function DropAssertions(s: System, b: Id, dropped: set<Id>, closing: bool, reason: string): System
    requires b in s.brokers && dropped <= s.brokers[b].pending.Keys
  {
    s.(brokers := s.brokers[b := s.brokers[b].(pending := s.brokers[b].pending - dropped, closed := s.brokers[b].closed || closing)],
       settled := s.settled + map a | a in dropped :: Refused(reason))
  }

  function Conclude(s: System, r: Id, result: LoginResult): System
    requires r in s.popups
  {
    s.(popups := s.popups[r := s.popups[r].(result := Some(result))])
  }

  function Next(s: System, e: Event): System
    requires Enabled(s, e)
  {
    match e
    case OpenBroker(b, credential) => s.(brokers := s.brokers[b := Broker(b, credential, None, false, map[])])
    case OpenPopup(r, input, target, canAssert) =>
      s.(popups := s.popups[r := Popup(r, input, target, canAssert, None, {}, None)], log := s.log + [Probe(r)])
    case Deliver(ToBroker(b), i) => DeliverToBroker(s, b, i)
    case Deliver(ToPopup(r), i) => DeliverToPopup(s, r, i)
    case HandlerEnds(r, result) => EndHandler(s, r, result)
    case HandlerAsks(b, a, challenge) => AskAssertion(s, b, a, challenge)
    case AssertionTimesOut(b, a) =>
      DropAssertions(s, b, {a}, false, ASSERTION_TIMED_OUT)
    case PasskeyAnswers(c, answer) => AnswerAssertion(s, c, answer)
    case DiscoveryTimesOut(r) => Conclude(s, r, NotHandled(s.popups[r].conflicts))
    case CompletionTimesOut(r) => Conclude(s, r, Rejected(TIMED_OUT))
    case CloseBroker(b) =>
      DropAssertions(s, b, s.brokers[b].pending.Keys, true, SESSION_CLOSED)
  }

  /** The state after a sequence of events; an event that is not possible leaves it unchanged. */
  function Run(events: seq<Event>): System {
    if events == [] then INIT
    else
      var s := Run(events[..|events| - 1]);
      var e := events[|events| - 1];
      if Enabled(s, e) then Next(s, e) else s
  }

  // ----- what every step keeps -----

  ghost predicate Named(s: System) {
    && (forall b <- s.brokers :: s.brokers[b].id == b)
    && (forall r <- s.popups :: s.popups[r].requestId == r)
    && (forall x <- s.executions :: s.executions[x].brokerId in s.brokers)
  }

  /** Selection: a popup executes once, on a broker that advertised the wallet it wants. */
  ghost predicate Selection(s: System) {
    && (forall i :: 0 <= i < |s.log| && s.log[i].Available? ==>
          s.log[i].brokerId in s.brokers && s.brokers[s.log[i].brokerId].credentialId == s.log[i].credentialId)
    && (forall r <- s.popups :: s.popups[r].selected.Some? ==>
          var b := s.popups[r].selected.value;
          b in s.brokers && (s.popups[r].target != "" ==> s.brokers[b].credentialId == s.popups[r].target))
    && (forall i :: 0 <= i < |s.log| && s.log[i].Execute? ==>
          var r := s.log[i].requestId;
          r in s.popups && s.popups[r].selected == Some(s.log[i].brokerId) && s.popups[r].input == s.log[i].input)
    && (forall i, j :: 0 <= i < j < |s.log| && s.log[i].Execute? && s.log[j].Execute? ==>
          s.log[i].requestId != s.log[j].requestId)
  }

  /** Execution: a request's record is the one execute message its broker was handed. */
  ghost predicate Executed(s: System) {
    && (forall r <- s.executions :: var x := s.executions[r];
          && (ToBroker(x.brokerId), x.at) in s.seen
          && x.at < |s.log| && s.log[x.at] == Execute(r, x.brokerId, x.input))
    && (forall r :: s.starts[r] == if r in s.executions && !s.executions[r].status.TurnedAway? then 1 else 0)
  }

  /** The active request of a broker is its one running handler. */
  ghost predicate OneAtATime(s: System) {
    && (forall r <- s.executions :: s.executions[r].status.Running? ==>
          s.executions[r].brokerId in s.brokers && s.brokers[s.executions[r].brokerId].active == Some(r))
    && (forall b <- s.brokers :: s.brokers[b].active.Some? ==>
          var r := s.brokers[b].active.value;
          r in s.executions && s.executions[r].brokerId == b && s.executions[r].status.Running?)
  }

  predicate Terminal(m: Message) { m.Success? || m.Failure? }

  /** Replies tell the truth about the execution, and there is one at most. */
  ghost predicate Replied(s: System) {
    && (forall i :: 0 <= i < |s.log| && Terminal(s.log[i]) ==> s.log[i].requestId in s.executions)
    && (forall i :: 0 <= i < |s.log| && s.log[i].Success? ==>
          var x := s.executions[s.log[i].requestId];
          x.brokerId == s.log[i].brokerId && x.status == Ended(Returned(s.log[i].outcome)))
    && (forall i :: 0 <= i < |s.log| && s.log[i].Failure? ==>
          var x := s.executions[s.log[i].requestId];
          && x.brokerId == s.log[i].brokerId
          && (x.status == Ended(Threw(s.log[i].error)) || (x.status.TurnedAway? && s.log[i].error == BUSY)))
    && (forall i, j :: 0 <= i < j < |s.log| && Terminal(s.log[i]) && Terminal(s.log[j]) ==>
          s.log[i].requestId != s.log[j].requestId)
  }

  /** The other wallets that answered before a broker was selected. */
  ghost function Heard(s: System, r: Id): set<string> {
    set i | 0 <= i < |s.log| && (ToPopup(r), i) in s.seen
            && s.log[i].Available? && s.log[i].requestId == r && s.log[i].credentialId != "" :: s.log[i].credentialId
  }

  /** How a login attempt may have ended. */
  ghost predicate Concluded(s: System) {
    && (forall r, i :: (ToPopup(r), i) in s.seen ==> r in s.popups && i < |s.log|)
    && (forall r <- s.popups :: s.popups[r].selected.None? ==> s.popups[r].conflicts == Heard(s, r))
    && (forall r <- s.popups :: s.popups[r].result.Some? ==> Outcome(s, r, s.popups[r].result.value))
  }

  ghost predicate Outcome(s: System, r: Id, result: LoginResult)
    requires r in s.popups
  {
    var p := s.popups[r];
    match result
    case Handled(outcome) =>
      && r in s.executions && p.selected == Some(s.executions[r].brokerId)
      && s.executions[r].status == Ended(Returned(outcome)) && s.executions[r].input == p.input
    case NotHandled(conflicts) => p.selected.None? && conflicts == p.conflicts
    case Rejected(error) =>
      || error == TIMED_OUT
      || (&& r in s.executions && p.selected == Some(s.executions[r].brokerId)
          && (s.executions[r].status == Ended(Threw(error)) || (s.executions[r].status.TurnedAway? && error == BUSY)))
  }

  /** The ceremony that a request for an assertion calls for. */
  function CeremonyFor(a: Id, x: Request): Ceremony { Ceremony(x.requestId, a, x.credentialId, x.challenge) }

  /** A ceremony runs at the popup it was asked of, able to run it, on the broker that asked, with what was asked. */
  ghost predicate Rightful(s: System, c: Ceremony) {
    && c.assertionId in s.asked && c == CeremonyFor(c.assertionId, s.asked[c.assertionId])
    && c.requestId in s.popups && s.popups[c.requestId].canAssert
    && s.popups[c.requestId].selected == Some(s.asked[c.assertionId].brokerId)
  }

  /** Ceremonies: every popup signs the very challenge, with the very passkey, that a broker's handler asked for. */
  ghost predicate Ceremonies(s: System) {
    && (forall a <- s.asked :: var x := s.asked[a];
          |x.challenge| == 32 && x.credentialId != "" && x.brokerId in s.brokers && s.brokers[x.brokerId].credentialId == x.credentialId)
    && (forall i :: 0 <= i < |s.log| && s.log[i].WebAuthnRequest? ==>
          var a := s.log[i].assertionId;
          a in s.asked && var x := s.asked[a]; s.log[i] == WebAuthnRequest(x.requestId, x.brokerId, a, x.credentialId, BytesToHex(x.challenge)))
    && (forall c <- s.performing :: Rightful(s, c))
    && (forall p <- s.performed :: Rightful(s, p.0))
  }

  /** Assertions: pending for one request, answered by that request's popup, settled with what it performed. */
  ghost predicate Asserted(s: System) {
    && (forall b <- s.brokers :: forall a <- s.brokers[b].pending ::
          a in s.asked && s.asked[a].brokerId == b && s.asked[a].requestId == s.brokers[b].pending[a] && a !in s.settled)
    && (forall a <- s.settled :: a in s.asked)
    && (forall i :: 0 <= i < |s.log| && s.log[i].WebAuthnSuccess? ==>
          exists p <- s.performed :: p.0.requestId == s.log[i].requestId && p.0.assertionId == s.log[i].assertionId
                                     && AssertionToWire(p.1) == s.log[i].wire)
    && (forall a <- s.settled :: s.settled[a].Fulfilled? ==> (CeremonyFor(a, s.asked[a]), s.settled[a].assertion) in s.performed)
  }

  ghost predicate Inv(s: System) {
    Named(s) && Selection(s) && Executed(s) && OneAtATime(s) && Replied(s) && Concluded(s) && Ceremonies(s) && Asserted(s)
  }

  // ----- selection -----

  lemma SelectionFrame(s: System, s': System, posts: seq<Message>)
    requires Selection(s) && s'.log == s.log + posts && |posts| <= 1
    requires forall b <- s.brokers :: b in s'.brokers && s'.brokers[b].credentialId == s.brokers[b].credentialId
    requires forall r <- s.popups :: r in s'.popups && s'.popups[r].selected == s.popups[r].selected
               && s'.popups[r].input == s.popups[r].input && s'.popups[r].target == s.popups[r].target
    requires forall r <- s'.popups :: r !in s.popups ==> s'.popups[r].selected.None?
    requires posts != [] ==> !posts[0].Execute? && (posts[0].Available? ==>
               posts[0].brokerId in s.brokers && s.brokers[posts[0].brokerId].credentialId == posts[0].credentialId)
    ensures Selection(s')
  {
  }

  lemma SelectionOnSelect(s: System, r: Id, i: nat)
    requires Selection(s) && r in s.popups && s.popups[r].requestId == r && i < |s.log| && s.log[i].Available?
    requires PopupOnMessage(s.popups[r], s.log[i]).next.selected != s.popups[r].selected
    ensures Selection(DeliverToPopup(s, r, i))
  {
    var s' := DeliverToPopup(s, r, i);
    assert s'.log == s.log + [Execute(r, s.log[i].brokerId, s.popups[r].input)];
    assert s'.popups == s.popups[r := s.popups[r].(selected := Some(s.log[i].brokerId))];
  }

  lemma SelectionOnPopupMessage(s: System, r: Id, i: nat)
    requires Named(s) && Selection(s) && Enabled(s, Deliver(ToPopup(r), i))
    ensures Selection(Next(s, Deliver(ToPopup(r), i)))
  {
    var reaction := PopupOnMessage(s.popups[r], s.log[i]);
    if reaction.next.selected != s.popups[r].selected {
      SelectionOnSelect(s, r, i);
    } else {
      PopupStep(s.popups[r], s.log[i]);
      hide PopupOnMessage, Selection;
      SelectionFrame(s, DeliverToPopup(s, r, i), reaction.posts);
    }
  }

  lemma PopupStep(p: Popup, m: Message)
    ensures var x := PopupOnMessage(p, m);
            && x.next.input == p.input && x.next.target == p.target && x.next.requestId == p.requestId
            && |x.posts| <= 1
            && (x.posts != [] ==> !Terminal(x.posts[0]) && !x.posts[0].Available? && !x.posts[0].WebAuthnRequest?
                                  && !x.posts[0].WebAuthnSuccess?)
            && (x.next.selected == p.selected && x.posts != [] ==> !x.posts[0].Execute?)
  {
    hide HexToBytes;
  }

  /** What a message never changes of a broker, and what it may post. */
  lemma BrokerStep(b: Broker, m: Message)
    ensures var x := BrokerOnMessage(b, m);
            && x.next.id == b.id && x.next.credentialId == b.credentialId && x.next.closed == b.closed && |x.posts| <= 1
            && (x.posts != [] ==> !x.posts[0].Execute?
                                  && (x.posts[0].Available? ==> x.posts[0].brokerId == b.id && x.posts[0].credentialId == b.credentialId))
            && (!(m.Execute? && m.brokerId == b.id) ==> x.next.active == b.active && x.start.None?)
  {
    hide AssertionFromWire;
  }

  lemma SelectionOnBrokerMessage(s: System, b: Id, i: nat)
    requires Named(s) && Selection(s) && Enabled(s, Deliver(ToBroker(b), i))
    ensures Selection(Next(s, Deliver(ToBroker(b), i)))
  {
    BrokerStep(s.brokers[b], s.log[i]);
    hide Selection, BrokerOnMessage;
    SelectionFrame(s, DeliverToBroker(s, b, i), BrokerOnMessage(s.brokers[b], s.log[i]).posts);
  }

  lemma SelectionOnHandler(s: System, e: Event)
    requires Named(s) && Selection(s) && Enabled(s, e) && (e.HandlerEnds? || e.HandlerAsks?)
    ensures Selection(Next(s, e))
  {
    hide Selection, BytesToHex;
    match e
    case HandlerEnds(r, result) =>
      SelectionFrame(s, EndHandler(s, r, result), BrokerOnHandlerEnd(s.brokers[s.executions[r].brokerId], r, result).posts);
    case HandlerAsks(b, a, c) =>
      SelectionFrame(s, AskAssertion(s, b, a, c), BrokerAsks(s.brokers[b], a, c).value.posts);
  }

  lemma SelectionOnPopup(s: System, e: Event)
    requires Named(s) && Selection(s) && Enabled(s, e) && (e.OpenPopup? || e.PasskeyAnswers?)
    ensures Selection(Next(s, e))
  {
    hide Selection, AssertionToWire;
    match e
    case OpenPopup(r, _, _, _) => SelectionFrame(s, Next(s, e), [Probe(r)]);
    case PasskeyAnswers(c, answer) => SelectionFrame(s, Next(s, e), AnswerPosts(s, c, answer));
  }

  /** The steps that post nothing. */
  predicate Silent(e: Event) {
    e.OpenBroker? || e.AssertionTimesOut? || e.DiscoveryTimesOut? || e.CompletionTimesOut? || e.CloseBroker?
  }

  lemma SelectionOnSilent(s: System, e: Event)
    requires Named(s) && Selection(s) && Enabled(s, e) && Silent(e)
    ensures Selection(Next(s, e))
  {
    hide Selection, Named, ASSERTION_TIMED_OUT, SESSION_CLOSED, TIMED_OUT;
    SelectionFrame(s, Next(s, e), []);
  }

  lemma SelectionKept(s: System, e: Event)
    requires Named(s) && Selection(s) && Enabled(s, e)
    ensures Selection(Next(s, e))
  {
    hide Selection, Named, Enabled, Next;
    match e
    case Deliver(ToBroker(b), i) => SelectionOnBrokerMessage(s, b, i);
    case Deliver(ToPopup(r), i) => SelectionOnPopupMessage(s, r, i);
    case HandlerEnds(_, _) => SelectionOnHandler(s, e);
    case HandlerAsks(_, _, _) => SelectionOnHandler(s, e);
    case OpenPopup(_, _, _, _) => SelectionOnPopup(s, e);
    case PasskeyAnswers(_, _) => SelectionOnPopup(s, e);
    case _ => SelectionOnSilent(s, e);
  }

  // ----- execution -----

  /** Nothing is executed or turned away by this step. */
  lemma ExecutedFrame(s: System, s': System, posts: seq<Message>)
    requires Executed(s) && s'.log == s.log + posts && s.seen <= s'.seen && s'.starts == s.starts
    requires s'.executions.Keys == s.executions.Keys
    requires forall r <- s.executions :: s'.executions[r].brokerId == s.executions[r].brokerId
               && s'.executions[r].input == s.executions[r].input && s'.executions[r].at == s.executions[r].at
               && s'.executions[r].status.TurnedAway? == s.executions[r].status.TurnedAway?
    ensures Executed(s')
  {
  }

  /** A request that is handed to its broker has no record yet. */
  lemma FirstExecution(s: System, b: Id, i: nat)
    requires Selection(s) && Executed(s) && i < |s.log| && s.log[i].Execute? && s.log[i].brokerId == b
    requires (ToBroker(b), i) !in s.seen
    ensures s.log[i].requestId !in s.executions
  {
    var r := s.log[i].requestId;
    if r in s.executions {
      var at := s.executions[r].at;
      if at == i { assert false; }
      hide Executed;
    }
  }

  lemma BrokerOnExecute(b: Broker, m: Message)
    requires m.Execute? && m.brokerId == b.id && !b.closed
    ensures BrokerOnMessage(b, m) ==
            if b.active.Some? then BrokerReaction(b, [Failure(m.requestId, b.id, BUSY)], None, None)
            else BrokerReaction(b.(active := Some(m.requestId)), [Started(m.requestId, b.id)], Some(m.input), None)
  {
  }

  lemma ExecutedOnExecute(s: System, b: Id, i: nat)
    requires Named(s) && Selection(s) && Executed(s) && Enabled(s, Deliver(ToBroker(b), i))
    requires s.log[i].Execute? && s.log[i].brokerId == b
    ensures Executed(DeliverToBroker(s, b, i))
  {
    hide Selection, Executed, BrokerOnMessage;
    FirstExecution(s, b, i);
    BrokerOnExecute(s.brokers[b], s.log[i]);
    var m := s.log[i];
    var x := Execution(b, m.input, i, if s.brokers[b].active.None? then Running else TurnedAway);
    ExecutedMore(s, DeliverToBroker(s, b, i), m.requestId, x, BrokerOnMessage(s.brokers[b], m).posts);
  }

  lemma ExecutedMore(s: System, s': System, r: Id, x: Execution, posts: seq<Message>)
    requires Executed(s) && r !in s.executions && s'.executions == s.executions[r := x]
    requires s'.log == s.log + posts && s.seen <= s'.seen && (ToBroker(x.brokerId), x.at) in s'.seen
    requires x.at < |s.log| && s.log[x.at] == Execute(r, x.brokerId, x.input)
    requires s'.starts == if x.status.TurnedAway? then s.starts else s.starts + multiset{r}
    ensures Executed(s')
  {
  }

  lemma ExecutedOnBrokerMessage(s: System, b: Id, i: nat)
    requires Named(s) && Selection(s) && Executed(s) && Enabled(s, Deliver(ToBroker(b), i))
    ensures Executed(DeliverToBroker(s, b, i))
  {
    if s.log[i].Execute? && s.log[i].brokerId == b {
      ExecutedOnExecute(s, b, i);
    } else {
      hide Selection;
      ExecutedFrame(s, DeliverToBroker(s, b, i), BrokerOnMessage(s.brokers[b], s.log[i]).posts);
    }
  }

  lemma ExecutedKept(s: System, e: Event)
    requires Named(s) && Selection(s) && Executed(s) && Enabled(s, e)
    ensures Executed(Next(s, e))
  {
    hide Executed, Selection, Named, DeliverToBroker, PopupOnMessage, BrokerOnHandlerEnd, BrokerAsks, PopupAnswers;
    match e
    case Deliver(ToBroker(b), i) => ExecutedOnBrokerMessage(s, b, i);
    case Deliver(ToPopup(r), i) => ExecutedFrame(s, Next(s, e), PopupOnMessage(s.popups[r], s.log[i]).posts);
    case OpenPopup(r, _, _, _) => ExecutedFrame(s, Next(s, e), [Probe(r)]);
    case HandlerEnds(r, result) =>
      ExecutedFrame(s, Next(s, e), BrokerOnHandlerEnd(s.brokers[s.executions[r].brokerId], r, result).posts);
    case HandlerAsks(b, a, c) => ExecutedFrame(s, Next(s, e), BrokerAsks(s.brokers[b], a, c).value.posts);
    case PasskeyAnswers(c, answer) => ExecutedFrame(s, Next(s, e), AnswerPosts(s, c, answer));
    case _ => ExecutedFrame(s, Next(s, e), []);
  }

  // ----- one handler at a time -----

  lemma OneAtATimeFrame(s: System, s': System)
    requires OneAtATime(s) && s'.executions == s.executions
    requires forall b <- s.brokers :: b in s'.brokers && s'.brokers[b].active == s.brokers[b].active
    requires forall b <- s'.brokers :: b !in s.brokers ==> s'.brokers[b].active.None?
    ensures OneAtATime(s')
  {
  }

  /** A free broker starts the handler of a request it had no record of. */
  lemma OneAtATimeStarts(s: System, s': System, b: Id, r: Id, x: Execution)
    requires Named(s) && OneAtATime(s) && b in s.brokers && s.brokers[b].active.None? && r !in s.executions
    requires x.brokerId == b && x.status.Running? && s'.executions == s.executions[r := x]
    requires s'.brokers == s.brokers[b := s.brokers[b].(active := Some(r))]
    ensures OneAtATime(s')
  {
  }

  /** A busy broker records that it turned a request away. */
  lemma OneAtATimeTurnsAway(s: System, s': System, r: Id, x: Execution)
    requires OneAtATime(s) && r !in s.executions && x.status.TurnedAway?
    requires s'.executions == s.executions[r := x] && s'.brokers == s.brokers
    ensures OneAtATime(s')
  {
  }

  lemma OneAtATimeOnExecute(s: System, b: Id, i: nat)
    requires Named(s) && OneAtATime(s) && Enabled(s, Deliver(ToBroker(b), i))
    requires s.log[i].Execute? && s.log[i].brokerId == b && s.log[i].requestId !in s.executions
    ensures OneAtATime(DeliverToBroker(s, b, i))
  {
    BrokerOnExecute(s.brokers[b], s.log[i]);
    hide BrokerOnMessage, OneAtATime, BUSY;
    var s', r := DeliverToBroker(s, b, i), s.log[i].requestId;
    if s.brokers[b].active.None? {
      OneAtATimeStarts(s, s', b, r, s'.executions[r]);
    } else {
      assert s'.brokers == s.brokers;
      OneAtATimeTurnsAway(s, s', r, s'.executions[r]);
    }
  }

  lemma OneAtATimeOnOtherMessage(s: System, b: Id, i: nat)
    requires Named(s) && OneAtATime(s) && Enabled(s, Deliver(ToBroker(b), i))
    requires !(s.log[i].Execute? && s.log[i].brokerId == b)
    ensures OneAtATime(DeliverToBroker(s, b, i))
  {
    BrokerStep(s.brokers[b], s.log[i]);
    hide OneAtATime, BrokerOnMessage;
    OneAtATimeFrame(s, DeliverToBroker(s, b, i));
  }

  lemma OneAtATimeOnBrokerMessage(s: System, b: Id, i: nat)
    requires Named(s) && Selection(s) && Executed(s) && OneAtATime(s) && Enabled(s, Deliver(ToBroker(b), i))
    ensures OneAtATime(Next(s, Deliver(ToBroker(b), i)))
  {
    hide Named, Selection, Executed, OneAtATime, DeliverToBroker;
    if s.log[i].Execute? && s.log[i].brokerId == b {
      FirstExecution(s, b, i);
      OneAtATimeOnExecute(s, b, i);
    } else {
      OneAtATimeOnOtherMessage(s, b, i);
    }
  }

  lemma OneAtATimeOnHandlerEnd(s: System, r: Id, result: HandlerResult)
    requires Named(s) && OneAtATime(s) && Enabled(s, HandlerEnds(r, result))
    ensures OneAtATime(Next(s, HandlerEnds(r, result)))
  {
  }

  lemma OneAtATimeOnOther(s: System, e: Event)
    requires OneAtATime(s) && Enabled(s, e) && !e.HandlerEnds? && !(e.Deliver? && e.party.ToBroker?)
    ensures OneAtATime(Next(s, e))
  {
    hide OneAtATime, PopupOnMessage, PopupAnswers, ASSERTION_TIMED_OUT, SESSION_CLOSED, TIMED_OUT, BytesToHex;
    OneAtATimeFrame(s, Next(s, e));
  }

  lemma OneAtATimeKept(s: System, e: Event)
    requires Named(s) && Selection(s) && Executed(s) && OneAtATime(s) && Enabled(s, e)
    ensures OneAtATime(Next(s, e))
  {
    hide Named, Selection, Executed, OneAtATime, Enabled, Next;
    match e
    case Deliver(ToBroker(b), i) => OneAtATimeOnBrokerMessage(s, b, i);
    case HandlerEnds(r, result) => OneAtATimeOnHandlerEnd(s, r, result);
    case _ => OneAtATimeOnOther(s, e);
  }

  // ----- replies -----

  /** No record changes and no reply is posted. */
  lemma RepliedFrame(s: System, s': System, posts: seq<Message>)
    requires Replied(s) && s'.log == s.log + posts && |posts| <= 1
    requires posts != [] ==> !Terminal(posts[0])
    requires forall r <- s.executions :: r in s'.executions && s'.executions[r] == s.executions[r]
    ensures Replied(s')
  {
  }

  /** The record of a request that has had no reply changes, and its true reply may be posted. */
  lemma RepliedOnReply(s: System, s': System, r: Id, posts: seq<Message>)
    requires Replied(s) && s'.log == s.log + posts && |posts| <= 1 && r in s'.executions
    requires forall i :: 0 <= i < |s.log| && Terminal(s.log[i]) ==> s.log[i].requestId != r
    requires forall q <- s.executions :: q in s'.executions && (q == r || s'.executions[q] == s.executions[q])
    requires posts != [] && Terminal(posts[0]) ==>
               posts[0].requestId == r && posts[0].brokerId == s'.executions[r].brokerId &&
               match posts[0]
               case Success(_, _, outcome) => s'.executions[r].status == Ended(Returned(outcome))
               case Failure(_, _, error) => s'.executions[r].status == Ended(Threw(error))
                                            || (s'.executions[r].status.TurnedAway? && error == BUSY)
               case _ => true
    ensures Replied(s')
  {
  }

  lemma RepliedOnExecute(s: System, b: Id, i: nat)
    requires Named(s) && Selection(s) && Executed(s) && Replied(s) && Enabled(s, Deliver(ToBroker(b), i))
    requires s.log[i].Execute? && s.log[i].brokerId == b
    ensures Replied(DeliverToBroker(s, b, i))
  {
    var s', posts := DeliverToBroker(s, b, i), BrokerOnMessage(s.brokers[b], s.log[i]).posts;
    FirstExecution(s, b, i);
    BrokerOnExecute(s.brokers[b], s.log[i]);
    NoReplyYet(s, s.log[i].requestId);
    hide Selection, Executed, Replied, BrokerOnMessage, BUSY;
    RepliedOnReply(s, s', s.log[i].requestId, posts);
  }

  lemma NoReplyYet(s: System, r: Id)
    requires Replied(s) && r !in s.executions
    ensures forall i :: 0 <= i < |s.log| && Terminal(s.log[i]) ==> s.log[i].requestId != r
  {
  }

  lemma RepliedOnOtherMessage(s: System, b: Id, i: nat)
    requires Named(s) && Replied(s) && Enabled(s, Deliver(ToBroker(b), i))
    requires !(s.log[i].Execute? && s.log[i].brokerId == b)
    ensures Replied(DeliverToBroker(s, b, i))
  {
    RepliedFrame(s, DeliverToBroker(s, b, i), BrokerOnMessage(s.brokers[b], s.log[i]).posts);
  }

  lemma RepliedOnBrokerMessage(s: System, b: Id, i: nat)
    requires Named(s) && Selection(s) && Executed(s) && Replied(s) && Enabled(s, Deliver(ToBroker(b), i))
    ensures Replied(DeliverToBroker(s, b, i))
  {
    if s.log[i].Execute? && s.log[i].brokerId == b { RepliedOnExecute(s, b, i); } else { RepliedOnOtherMessage(s, b, i); }
    hide Named, Selection, Executed, Replied, DeliverToBroker;
  }

  lemma RepliedOnHandlerEnd(s: System, r: Id, result: HandlerResult)
    requires Named(s) && Replied(s) && Enabled(s, HandlerEnds(r, result))
    ensures Replied(Next(s, HandlerEnds(r, result)))
  {
    var s' := Next(s, HandlerEnds(r, result));
    RepliedOnReply(s, s', r, BrokerOnHandlerEnd(s.brokers[s.executions[r].brokerId], r, result).posts);
  }

  lemma RepliedOnPopupMessage(s: System, r: Id, i: nat)
    requires Replied(s) && Enabled(s, Deliver(ToPopup(r), i))
    ensures Replied(DeliverToPopup(s, r, i))
  {
    PopupStep(s.popups[r], s.log[i]);
    hide PopupOnMessage, Replied;
    RepliedFrame(s, DeliverToPopup(s, r, i), PopupOnMessage(s.popups[r], s.log[i]).posts);
  }

  lemma RepliedKept(s: System, e: Event)
    requires Named(s) && Selection(s) && Executed(s) && Replied(s) && Enabled(s, e)
    ensures Replied(Next(s, e))
  {
    hide Named, Selection, Executed, Replied, DeliverToBroker, DeliverToPopup, EndHandler, BytesToHex, AssertionToWire;
    match e
    case Deliver(ToBroker(b), i) => RepliedOnBrokerMessage(s, b, i);
    case Deliver(ToPopup(r), i) => RepliedOnPopupMessage(s, r, i);
    case OpenPopup(r, _, _, _) => RepliedFrame(s, Next(s, e), [Probe(r)]);
    case HandlerEnds(r, result) => RepliedOnHandlerEnd(s, r, result);
    case HandlerAsks(b, a, c) => RepliedFrame(s, Next(s, e), BrokerAsks(s.brokers[b], a, c).value.posts);
    case PasskeyAnswers(c, answer) => RepliedFrame(s, Next(s, e), AnswerPosts(s, c, answer));
    case _ => RepliedFrame(s, Next(s, e), []);
  }

  // ----- conclusions -----

  /** Popups, their mail and the executions they concluded from stay as they were. */
  lemma ConcludedFrame(s: System, s': System, posts: seq<Message>)
    requires Concluded(s) && s'.log == s.log + posts && s'.popups == s.popups
    requires forall r, i :: (ToPopup(r), i) in s'.seen <==> (ToPopup(r), i) in s.seen
    requires forall r <- s.executions :: r in s'.executions
               && (s.executions[r].status.Running? || s'.executions[r] == s.executions[r])
    ensures Concluded(s')
  {
    forall r <- s.popups ensures Heard(s', r) == Heard(s, r) {
      HeardFrame(s, s', posts, r);
    }
    hide Heard;
  }

  lemma HeardFrame(s: System, s': System, posts: seq<Message>, r: Id)
    requires s'.log == s.log + posts
    requires forall i :: (ToPopup(r), i) in s'.seen <==> (ToPopup(r), i) in s.seen
    requires forall i :: (ToPopup(r), i) in s.seen ==> i < |s.log|
    ensures Heard(s', r) == Heard(s, r)
  {
    forall c | c in Heard(s, r) ensures c in Heard(s', r) {
      var i :| 0 <= i < |s.log| && (ToPopup(r), i) in s.seen
               && s.log[i].Available? && s.log[i].requestId == r && s.log[i].credentialId != "" && s.log[i].credentialId == c;
      assert s'.log[i] == s.log[i];
    }
    forall c | c in Heard(s', r) ensures c in Heard(s, r) {
      var i :| 0 <= i < |s'.log| && (ToPopup(r), i) in s'.seen
               && s'.log[i].Available? && s'.log[i].requestId == r && s'.log[i].credentialId != "" && s'.log[i].credentialId == c;
      assert s'.log[i] == s.log[i];
    }
  }

  /** One more message reaches popup r. */
  lemma HeardOneMore(s: System, s': System, posts: seq<Message>, r: Id, i: nat)
    requires s'.log == s.log + posts && i < |s.log| && s'.seen == s.seen + {(ToPopup(r), i)}
    requires forall j :: (ToPopup(r), j) in s.seen ==> j < |s.log|
    ensures var m := s.log[i];
            Heard(s', r) == Heard(s, r) + if m.Available? && m.requestId == r && m.credentialId != "" then {m.credentialId} else {}
  {
    var m := s.log[i];
    forall c | c in Heard(s, r) ensures c in Heard(s', r) {
      var j :| 0 <= j < |s.log| && (ToPopup(r), j) in s.seen
               && s.log[j].Available? && s.log[j].requestId == r && s.log[j].credentialId != "" && s.log[j].credentialId == c;
      assert s'.log[j] == s.log[j];
    }
    if m.Available? && m.requestId == r && m.credentialId != "" {
      assert s'.log[i] == m;
      assert m.credentialId in Heard(s', r);
    }
    forall c | c in Heard(s', r)
      ensures c in Heard(s, r) || (m.Available? && m.requestId == r && m.credentialId == c)
    {
      var j :| 0 <= j < |s'.log| && (ToPopup(r), j) in s'.seen
               && s'.log[j].Available? && s'.log[j].requestId == r && s'.log[j].credentialId != "" && s'.log[j].credentialId == c;
      assert s'.log[j] == s.log[j];
    }
  }

  /** What a message does to the state of a popup that is still waiting. */
  lemma PopupConcludes(p: Popup, m: Message)
    requires p.result.None?
    ensures var n := PopupOnMessage(p, m).next;
            && (p.selected.Some? ==> n.selected == p.selected && n.conflicts == p.conflicts)
            && (p.selected.None? && n.selected.None? ==>
                  n.conflicts == p.conflicts +
                    if m.Available? && m.requestId == p.requestId && m.credentialId != "" then {m.credentialId} else {})
            && (n.result.Some? ==>
                  && p.selected.Some? && n.selected == p.selected && m.requestId == p.requestId
                  && ((m.Success? && m.brokerId == p.selected.value && n.result.value == Handled(m.outcome))
                      || (m.Failure? && m.brokerId == p.selected.value && n.result.value == Rejected(m.error))))
  {
    hide HexToBytes;
  }

  lemma ConcludedOnPopupMessage(s: System, r: Id, i: nat)
    requires Named(s) && Selection(s) && Executed(s) && Replied(s) && Concluded(s) && Enabled(s, Deliver(ToPopup(r), i))
    ensures Concluded(DeliverToPopup(s, r, i))
  {
    hide Heard, PopupOnMessage, Selection, Executed, Replied;
    var s', p, m := DeliverToPopup(s, r, i), s.popups[r], s.log[i];
    var posts := PopupOnMessage(p, m).posts;
    PopupConcludes(p, m);
    HeardOneMore(s, s', posts, r, i);
    forall q <- s.popups | q != r ensures Heard(s', q) == Heard(s, q) {
      HeardFrame(s, s', posts, q);
    }
    if s'.popups[r].result.Some? {
      ResultHolds(s, r, i);
    }
  }

  /** A result that a popup takes from a reply is the outcome of its own execution. */
  lemma ResultHolds(s: System, r: Id, i: nat)
    requires Named(s) && Selection(s) && Executed(s) && Replied(s) && Enabled(s, Deliver(ToPopup(r), i))
    requires DeliverToPopup(s, r, i).popups[r].result.Some?
    ensures Outcome(DeliverToPopup(s, r, i), r, DeliverToPopup(s, r, i).popups[r].result.value)
  {
    PopupConcludes(s.popups[r], s.log[i]);
    PopupStep(s.popups[r], s.log[i]);
    hide PopupOnMessage;
    assert Terminal(s.log[i]);
    var x := s.executions[r];
    assert s.log[x.at].Execute?;
  }

  lemma ConcludedKept(s: System, e: Event)
    requires Named(s) && Selection(s) && Executed(s) && Replied(s) && Concluded(s) && Enabled(s, e)
    ensures Concluded(Next(s, e))
  {
    hide Selection, Executed, Replied, Concluded, Named;
    match e
    case Deliver(ToBroker(b), i) => ConcludedOnBrokerMessage(s, b, i);
    case Deliver(ToPopup(r), i) => ConcludedOnPopupMessage(s, r, i);
    case OpenPopup(r, _, _, _) => ConcludedOnOpen(s, e);
    case HandlerEnds(r, result) =>
      ConcludedFrame(s, Next(s, e), BrokerOnHandlerEnd(s.brokers[s.executions[r].brokerId], r, result).posts);
    case HandlerAsks(b, a, c) =>
      ConcludedFrame(s, Next(s, e), BrokerAsks(s.brokers[b], a, c).value.posts);
    case PasskeyAnswers(c, answer) => ConcludedFrame(s, Next(s, e), AnswerPosts(s, c, answer));
    case DiscoveryTimesOut(r) => ConcludedOnTimeout(s, r, NotHandled(s.popups[r].conflicts));
    case CompletionTimesOut(r) => ConcludedOnTimeout(s, r, Rejected(TIMED_OUT));
    case _ =>
      ConcludedFrame(s, Next(s, e), []);
  }

  lemma ConcludedOnBrokerMessage(s: System, b: Id, i: nat)
    requires Named(s) && Selection(s) && Executed(s) && Concluded(s) && Enabled(s, Deliver(ToBroker(b), i))
    ensures Concluded(DeliverToBroker(s, b, i))
  {
    if s.log[i].Execute? && s.log[i].brokerId == b { FirstExecution(s, b, i); }
    hide Selection, Executed, Concluded, Named, BrokerOnMessage;
    ConcludedFrame(s, DeliverToBroker(s, b, i), BrokerOnMessage(s.brokers[b], s.log[i]).posts);
  }

  lemma ConcludedOnTimeout(s: System, r: Id, result: LoginResult)
    requires Concluded(s) && r in s.popups && Outcome(s, r, result)
    ensures Concluded(Conclude(s, r, result))
  {
    var s' := Conclude(s, r, result);
    forall q <- s.popups ensures Heard(s', q) == Heard(s, q) {
      HeardFrame(s, s', [], q);
    }
    hide Heard;
  }

  /** A new popup has heard and concluded nothing; the others are as they were. */
  lemma ConcludedWithNew(s: System, s': System, r: Id, posts: seq<Message>)
    requires Concluded(s) && r !in s.popups && s'.log == s.log + posts && s'.seen == s.seen && s'.executions == s.executions
    requires s'.popups.Keys == s.popups.Keys + {r} && forall q <- s.popups :: s'.popups[q] == s.popups[q]
    requires s'.popups[r].result.None? && s'.popups[r].conflicts == {} == Heard(s', r)
    requires forall q <- s.popups :: Heard(s', q) == Heard(s, q)
    ensures Concluded(s')
  {
    hide Heard;
  }

  lemma ConcludedOnOpen(s: System, e: Event)
    requires Concluded(s) && e.OpenPopup? && Enabled(s, e)
    ensures Concluded(Next(s, e))
  {
    var s' := Next(s, e);
    forall q <- s.popups ensures Heard(s', q) == Heard(s, q) {
      HeardFrame(s, s', [Probe(e.request)], q);
    }
    NothingHeard(s', e.request);
    hide Concluded, Heard;
    ConcludedWithNew(s, s', e.request, [Probe(e.request)]);
  }

  lemma NothingHeard(s: System, r: Id)
    requires forall i :: (ToPopup(r), i) !in s.seen
    ensures Heard(s, r) == {}
  {
  }

  // ----- ceremonies -----

  /** Nothing is asked and no ceremony begins; what a ceremony rests on stays. */
  lemma CeremoniesFrame(s: System, s': System, posts: seq<Message>)
    requires Ceremonies(s) && s'.log == s.log + posts && |posts| <= 1 && (posts != [] ==> !posts[0].WebAuthnRequest?)
    requires s'.asked == s.asked && s'.performing <= s.performing
    requires forall p <- s'.performed :: p in s.performed || p.0 in s.performing
    requires CeremoniesRest(s, s')
    ensures Ceremonies(s')
  {
    hide BytesToHex;
    forall c | Rightful(s, c) ensures Rightful(s', c) {
    }
    hide Rightful;
  }

  /** Brokers keep their wallet, and popups keep the broker they selected. */
  ghost predicate CeremoniesRest(s: System, s': System) {
    && (forall b <- s.brokers :: b in s'.brokers && s'.brokers[b].credentialId == s.brokers[b].credentialId)
    && (forall r <- s.popups :: r in s'.popups && s'.popups[r].canAssert == s.popups[r].canAssert
          && (s.popups[r].selected.Some? ==> s'.popups[r].selected == s.popups[r].selected))
  }

  /** What a message never changes of a popup, and the ceremony it begins: one for a request of its own broker. */
  lemma PopupPerforms(p: Popup, m: Message)
    ensures var x := PopupOnMessage(p, m);
            && x.next.canAssert == p.canAssert && (p.selected.Some? ==> x.next.selected == p.selected)
            && (x.perform.Some? ==>
                  && m.WebAuthnRequest? && m.requestId == p.requestId && p.canAssert && p.selected == Some(m.brokerId) == x.next.selected
                  && HexToBytes(m.challengeHex) == Ok(x.perform.value.2)
                  && x.perform.value == (m.assertionId, m.credentialId, x.perform.value.2))
  {
    hide HexToBytes;
  }

  lemma CeremoniesOnPopupMessage(s: System, r: Id, i: nat)
    requires Named(s) && Ceremonies(s) && Enabled(s, Deliver(ToPopup(r), i))
    ensures Ceremonies(DeliverToPopup(s, r, i))
  {
    var x := PopupOnMessage(s.popups[r], s.log[i]);
    hide PopupOnMessage, Ceremonies, Rightful, Named;
    CeremoniesBeforePerforming(s, r, i);
    if x.perform.Some? {
      PerformsAsAsked(s, r, i);
      CeremoniesMore(DeliverToPopup(s, r, i).(performing := s.performing), CeremonyOf(r, x.perform.value));
    }
  }

  lemma CeremoniesBeforePerforming(s: System, r: Id, i: nat)
    requires Ceremonies(s) && Enabled(s, Deliver(ToPopup(r), i))
    ensures Ceremonies(DeliverToPopup(s, r, i).(performing := s.performing))
  {
    PopupStep(s.popups[r], s.log[i]);
    PopupPerforms(s.popups[r], s.log[i]);
    hide PopupOnMessage, HexToBytes, Ceremonies;
    CeremoniesFrame(s, DeliverToPopup(s, r, i).(performing := s.performing), PopupOnMessage(s.popups[r], s.log[i]).posts);
  }

  /** The challenge travels unchanged: the popup begins the ceremony that the broker's handler asked for. */
  lemma PerformsAsAsked(s: System, r: Id, i: nat)
    requires Named(s) && Ceremonies(s) && Enabled(s, Deliver(ToPopup(r), i)) && PopupOnMessage(s.popups[r], s.log[i]).perform.Some?
    ensures Rightful(DeliverToPopup(s, r, i).(performing := s.performing), CeremonyOf(r, PopupOnMessage(s.popups[r], s.log[i]).perform.value))
  {
    PopupPerforms(s.popups[r], s.log[i]);
    hide PopupOnMessage, HexToBytes, BytesToHex;
    RequestAsAsked(s, i);
    hide Ceremonies;
  }

  lemma RequestAsAsked(s: System, i: nat)
    requires Ceremonies(s) && i < |s.log| && s.log[i].WebAuthnRequest?
    ensures var m := s.log[i];
            && m.assertionId in s.asked && s.asked[m.assertionId].requestId == m.requestId && s.asked[m.assertionId].brokerId == m.brokerId
            && s.asked[m.assertionId].credentialId == m.credentialId && HexToBytes(m.challengeHex) == Ok(s.asked[m.assertionId].challenge)
  {
    HexRoundTrip(s.asked[s.log[i].assertionId].challenge);
    hide HexToBytes, BytesToHex, Rightful;
  }

  lemma CeremoniesMore(s: System, c: Ceremony)
    requires Ceremonies(s) && Rightful(s, c)
    ensures Ceremonies(s.(performing := s.performing + {c}))
  {
    hide BytesToHex;
  }

  lemma CeremoniesOnAsk(s: System, b: Id, a: Id, challenge: seq<byte>)
    requires Named(s) && Ceremonies(s) && Enabled(s, HandlerAsks(b, a, challenge))
    ensures Ceremonies(AskAssertion(s, b, a, challenge))
  {
    hide BytesToHex;
    var s' := AskAssertion(s, b, a, challenge);
    forall c | Rightful(s, c) ensures Rightful(s', c) {
    }
    hide Rightful;
  }

  lemma CeremoniesOnBrokerMessage(s: System, b: Id, i: nat)
    requires Named(s) && Ceremonies(s) && Enabled(s, Deliver(ToBroker(b), i))
    ensures Ceremonies(DeliverToBroker(s, b, i))
  {
    BrokerStep(s.brokers[b], s.log[i]);
    BrokerSettles(s.brokers[b], s.log[i]);
    hide Ceremonies, BrokerOnMessage;
    CeremoniesFrame(s, DeliverToBroker(s, b, i), BrokerOnMessage(s.brokers[b], s.log[i]).posts);
  }

  lemma CeremoniesOnPosting(s: System, e: Event)
    requires Named(s) && Ceremonies(s) && Enabled(s, e) && (e.OpenPopup? || e.HandlerEnds? || e.PasskeyAnswers?)
    ensures Ceremonies(Next(s, e))
  {
    hide Ceremonies, AssertionToWire;
    match e
    case OpenPopup(r, _, _, _) => CeremoniesFrame(s, Next(s, e), [Probe(r)]);
    case HandlerEnds(r, result) =>
      CeremoniesFrame(s, Next(s, e), BrokerOnHandlerEnd(s.brokers[s.executions[r].brokerId], r, result).posts);
    case PasskeyAnswers(c, answer) => CeremoniesFrame(s, Next(s, e), AnswerPosts(s, c, answer));
  }

  lemma CeremoniesOnDrop(s: System, b: Id, dropped: set<Id>, closing: bool, reason: string)
    requires Ceremonies(s) && b in s.brokers && dropped <= s.brokers[b].pending.Keys
    ensures Ceremonies(DropAssertions(s, b, dropped, closing, reason))
  {
    hide Ceremonies;
    CeremoniesFrame(s, DropAssertions(s, b, dropped, closing, reason), []);
  }

  lemma CeremoniesOnQuiet(s: System, e: Event)
    requires Ceremonies(s) && Enabled(s, e) && (e.OpenBroker? || e.DiscoveryTimesOut? || e.CompletionTimesOut?)
    ensures Ceremonies(Next(s, e))
  {
    hide Ceremonies, TIMED_OUT;
    CeremoniesFrame(s, Next(s, e), []);
  }

  lemma CeremoniesKept(s: System, e: Event)
    requires Named(s) && Ceremonies(s) && Enabled(s, e)
    ensures Ceremonies(Next(s, e))
  {
    hide Ceremonies, Named, DeliverToBroker, DeliverToPopup, AskAssertion, DropAssertions, ASSERTION_TIMED_OUT, SESSION_CLOSED;
    match e
    case Deliver(ToBroker(b), i) => CeremoniesOnBrokerMessage(s, b, i);
    case Deliver(ToPopup(r), i) => CeremoniesOnPopupMessage(s, r, i);
    case HandlerAsks(b, a, challenge) => CeremoniesOnAsk(s, b, a, challenge);
    case OpenPopup(_, _, _, _) => CeremoniesOnPosting(s, e);
    case HandlerEnds(_, _) => CeremoniesOnPosting(s, e);
    case PasskeyAnswers(_, _) => CeremoniesOnPosting(s, e);
    case AssertionTimesOut(b, a) => CeremoniesOnDrop(s, b, {a}, false, ASSERTION_TIMED_OUT);
    case CloseBroker(b) => CeremoniesOnDrop(s, b, s.brokers[b].pending.Keys, true, SESSION_CLOSED);
    case _ => CeremoniesOnQuiet(s, e);
  }

  // ----- assertions -----

  /** Pending assertions may only end; those in `ended` are settled, an accepted one with what was performed. */
  lemma AssertedFrame(s: System, s': System, posts: seq<Message>, ended: set<Id>)
    requires Asserted(s) && s'.log == s.log + posts && |posts| <= 1
    requires posts != [] ==> !posts[0].WebAuthnSuccess?
    requires s'.asked == s.asked && s'.performed == s.performed
    requires forall b <- s'.brokers :: forall a <- s'.brokers[b].pending ::
               b in s.brokers && a in s.brokers[b].pending && s'.brokers[b].pending[a] == s.brokers[b].pending[a] && a !in ended
    requires ended <= s.asked.Keys && s'.settled.Keys == s.settled.Keys + ended
    requires forall a <- s.settled :: a in ended || s'.settled[a] == s.settled[a]
    requires forall a <- ended :: s'.settled[a].Fulfilled? ==> (CeremonyFor(a, s.asked[a]), s'.settled[a].assertion) in s.performed
    ensures Asserted(s')
  {
  }

  /** The only assertion a message can end is its own, pending for the request it names. */
  lemma BrokerSettles(b: Broker, m: Message)
    ensures var x := BrokerOnMessage(b, m);
            && |x.posts| <= 1 && x.next.id == b.id
            && (x.posts != [] ==> !x.posts[0].WebAuthnRequest? && !x.posts[0].WebAuthnSuccess?)
            && (x.settled.None? ==> x.next.pending == b.pending)
            && (x.settled.Some? ==>
                  && (m.WebAuthnSuccess? || m.WebAuthnFailure?) && x.settled.value.0 == m.assertionId
                  && m.assertionId in b.pending && b.pending[m.assertionId] == m.requestId
                  && x.next.pending == b.pending - {m.assertionId}
                  && (x.settled.value.1.Fulfilled? ==>
                        m.WebAuthnSuccess? && AssertionFromWire(m.wire) == Ok(x.settled.value.1.assertion)))
  {
    hide AssertionFromWire;
  }

  lemma PendingOnce(s: System, b: Id, a: Id)
    requires Asserted(s) && b in s.brokers && a in s.brokers[b].pending
    ensures a in s.asked && s.asked[a].brokerId == b && s.asked[a].requestId == s.brokers[b].pending[a]
    ensures forall c <- s.brokers :: c != b ==> a !in s.brokers[c].pending
  {
  }

  /** An accepted assertion is one that the popup performed in the ceremony asked for. */
  lemma AcceptedWasPerformed(s: System, i: nat)
    requires Ceremonies(s) && Asserted(s) && i < |s.log| && s.log[i].WebAuthnSuccess? && AssertionFromWire(s.log[i].wire).Ok?
    ensures var a := s.log[i].assertionId;
            a in s.asked && (CeremonyFor(a, s.asked[a]), AssertionFromWire(s.log[i].wire).value) in s.performed
  {
    var m := s.log[i];
    var p :| p in s.performed && p.0.requestId == m.requestId && p.0.assertionId == m.assertionId && AssertionToWire(p.1) == m.wire;
    AssertionRoundTrip(p.1);
    assert Rightful(s, p.0);
  }

  lemma AssertedOnSettled(s: System, b: Id, i: nat)
    requires Named(s) && Ceremonies(s) && Asserted(s) && Enabled(s, Deliver(ToBroker(b), i)) && BrokerOnMessage(s.brokers[b], s.log[i]).settled.Some?
    ensures Asserted(DeliverToBroker(s, b, i))
  {
    hide Asserted, Ceremonies, BrokerOnMessage, AssertionFromWire, AssertionToWire, Named;
    var m, x := s.log[i], BrokerOnMessage(s.brokers[b], s.log[i]);
    BrokerSettles(s.brokers[b], m);
    PendingOnce(s, b, m.assertionId);
    if x.settled.value.1.Fulfilled? { AcceptedWasPerformed(s, i); }
    AssertedFrame(s, DeliverToBroker(s, b, i), x.posts, {m.assertionId});
  }

  lemma AssertedOnBrokerMessage(s: System, b: Id, i: nat)
    requires Named(s) && Ceremonies(s) && Asserted(s) && Enabled(s, Deliver(ToBroker(b), i))
    ensures Asserted(DeliverToBroker(s, b, i))
  {
    hide Asserted, Ceremonies, BrokerOnMessage, AssertionFromWire, AssertionToWire, Named;
    var x := BrokerOnMessage(s.brokers[b], s.log[i]);
    if x.settled.Some? {
      AssertedOnSettled(s, b, i);
    } else {
      BrokerSettles(s.brokers[b], s.log[i]);
      AssertedFrame(s, DeliverToBroker(s, b, i), x.posts, {});
    }
  }

  lemma AssertedOnPopupMessage(s: System, r: Id, i: nat)
    requires Asserted(s) && Enabled(s, Deliver(ToPopup(r), i))
    ensures Asserted(DeliverToPopup(s, r, i))
  {
    PopupStep(s.popups[r], s.log[i]);
    hide PopupOnMessage, Asserted;
    AssertedFrame(s, DeliverToPopup(s, r, i), PopupOnMessage(s.popups[r], s.log[i]).posts, {});
  }

  lemma AssertedOnAsk(s: System, b: Id, a: Id, challenge: seq<byte>)
    requires Asserted(s) && Named(s) && Enabled(s, HandlerAsks(b, a, challenge))
    ensures Asserted(AskAssertion(s, b, a, challenge))
  {
    hide BytesToHex, Asserted;
    var s' := AskAssertion(s, b, a, challenge);
    AskedMore(s, s', b, a, s'.asked[a], BrokerAsks(s.brokers[b], a, challenge).value.posts);
  }

  /** One more assertion is asked and pending, for the active request of a broker. */
  lemma AskedMore(s: System, s': System, b: Id, a: Id, x: Request, posts: seq<Message>)
    requires Asserted(s) && b in s.brokers && a !in s.asked && |posts| <= 1 && x.brokerId == b
    requires posts != [] ==> posts[0].WebAuthnRequest?
    requires s' == s.(brokers := s.brokers[b := s.brokers[b].(pending := s.brokers[b].pending[a := x.requestId])],
                      log := s.log + posts, asked := s.asked[a := x])
    ensures Asserted(s')
  {
    hide AssertionToWire;
  }

  lemma AssertedOnAnswer(s: System, c: Ceremony, answer: Settlement)
    requires Asserted(s) && Named(s) && Enabled(s, PasskeyAnswers(c, answer))
    ensures Asserted(AnswerAssertion(s, c, answer))
  {
    hide AssertionToWire;
    var s' := AnswerAssertion(s, c, answer);
    if answer.Fulfilled? { assert (c, answer.assertion) in s'.performed; }
  }

  lemma AssertedOnDrop(s: System, b: Id, dropped: set<Id>, closing: bool, reason: string)
    requires Asserted(s) && b in s.brokers && dropped <= s.brokers[b].pending.Keys
    ensures Asserted(DropAssertions(s, b, dropped, closing, reason))
  {
    AssertedFrame(s, DropAssertions(s, b, dropped, closing, reason), [], dropped);
  }

  lemma AssertedKept(s: System, e: Event)
    requires Named(s) && Ceremonies(s) && Asserted(s) && Enabled(s, e)
    ensures Asserted(Next(s, e))
  {
    hide Asserted, Ceremonies, Named, DeliverToBroker, DeliverToPopup, AskAssertion, AnswerAssertion, DropAssertions;
    match e
    case Deliver(ToBroker(b), i) => AssertedOnBrokerMessage(s, b, i);
    case Deliver(ToPopup(r), i) => AssertedOnPopupMessage(s, r, i);
    case HandlerAsks(b, a, challenge) => AssertedOnAsk(s, b, a, challenge);
    case PasskeyAnswers(c, answer) => AssertedOnAnswer(s, c, answer);
    case AssertionTimesOut(b, a) => AssertedOnDrop(s, b, {a}, false, ASSERTION_TIMED_OUT);
    case CloseBroker(b) => AssertedOnDrop(s, b, s.brokers[b].pending.Keys, true, SESSION_CLOSED);
    case HandlerEnds(r, result) => AssertedOnEnd(s, r, result);
    case OpenPopup(r, _, _, _) => AssertedFrame(s, Next(s, e), [Probe(r)], {});
    case _ => AssertedOnQuiet(s, e);
  }

  lemma AssertedOnEnd(s: System, r: Id, result: HandlerResult)
    requires Asserted(s) && Enabled(s, HandlerEnds(r, result))
    ensures Asserted(EndHandler(s, r, result))
  {
    hide Asserted;
    AssertedFrame(s, EndHandler(s, r, result), BrokerOnHandlerEnd(s.brokers[s.executions[r].brokerId], r, result).posts, {});
  }

  lemma AssertedOnQuiet(s: System, e: Event)
    requires Asserted(s) && Enabled(s, e) && (e.OpenBroker? || e.DiscoveryTimesOut? || e.CompletionTimesOut?)
    ensures Asserted(Next(s, e))
  {
    hide Asserted;
    AssertedFrame(s, Next(s, e), [], {});
  }

  // ----- every run -----

  lemma {:induction false} EveryRun(events: seq<Event>)
    ensures Inv(Run(events))
  {
    if events == [] {
      assert forall r :: Heard(INIT, r) == {};
    } else {
      var s, e := Run(events[..|events| - 1]), events[|events| - 1];
      EveryRun(events[..|events| - 1]);
      if Enabled(s, e) { InvKept(s, e); }
    }
  }

  lemma InvKept(s: System, e: Event)
    requires Inv(s) && Enabled(s, e)
    ensures Inv(Next(s, e))
  {
    NamedKept(s, e);
    SelectionKept(s, e);
    ExecutedKept(s, e);
    OneAtATimeKept(s, e);
    RepliedKept(s, e);
    ConcludedKept(s, e);
    CeremoniesKept(s, e);
    AssertedKept(s, e);
  }

  lemma NamedOnBrokerMessage(s: System, b: Id, i: nat)
    requires Named(s) && Enabled(s, Deliver(ToBroker(b), i))
    ensures Named(Next(s, Deliver(ToBroker(b), i)))
  {
    hide BrokerOnMessage, PopupOnMessage, PopupAnswers;
    BrokerSettles(s.brokers[b], s.log[i]);
  }

  lemma NamedOnPopupMessage(s: System, r: Id, i: nat)
    requires Named(s) && Enabled(s, Deliver(ToPopup(r), i))
    ensures Named(Next(s, Deliver(ToPopup(r), i)))
  {
    hide BrokerOnMessage, PopupOnMessage, PopupAnswers;
    PopupStep(s.popups[r], s.log[i]);
  }

  lemma NamedOnHandler(s: System, e: Event)
    requires Named(s) && Enabled(s, e) && (e.HandlerEnds? || e.HandlerAsks?)
    ensures Named(Next(s, e))
  {
    hide BytesToHex;
  }

  lemma NamedOnOther(s: System, e: Event)
    requires Named(s) && Enabled(s, e) && !e.Deliver? && !e.HandlerEnds? && !e.HandlerAsks?
    ensures Named(Next(s, e))
  {
    hide PopupAnswers, ASSERTION_TIMED_OUT, SESSION_CLOSED, TIMED_OUT;
  }

  lemma NamedKept(s: System, e: Event)
    requires Named(s) && Enabled(s, e)
    ensures Named(Next(s, e))
  {
    hide Named, Enabled, Next;
    match e
    case Deliver(ToBroker(b), i) => NamedOnBrokerMessage(s, b, i);
    case Deliver(ToPopup(r), i) => NamedOnPopupMessage(s, r, i);
    case HandlerEnds(_, _) => NamedOnHandler(s, e);
    case HandlerAsks(_, _, _) => NamedOnHandler(s, e);
    case _ => NamedOnOther(s, e);
  }

  // ----- replies do come -----

  ghost predicate HasReply(s: System, r: Id) {
    exists i :: 0 <= i < |s.log| && Terminal(s.log[i]) && s.log[i].requestId == r
  }

  /** The request was turned away or its handler ended, and its broker is still open. */
  predicate Done(s: System, r: Id)
    requires r in s.executions
  {
    var x := s.executions[r];
    !x.status.Running? && x.brokerId in s.brokers && !s.brokers[x.brokerId].closed
  }

  ghost predicate Answered(s: System) {
    forall r <- s.executions :: Done(s, r) ==> HasReply(s, r)
  }

  lemma ReplyStays(s: System, s': System, r: Id)
    requires HasReply(s, r) && s.log <= s'.log
    ensures HasReply(s', r)
  {
    var i :| 0 <= i < |s.log| && Terminal(s.log[i]) && s.log[i].requestId == r;
    assert s'.log[i] == s.log[i];
  }

  lemma ReplyPosted(s: System, r: Id, before: seq<Message>, reply: Message)
    requires s.log == before + [reply] && Terminal(reply) && reply.requestId == r
    ensures HasReply(s, r)
  {
    assert s.log[|before|] == reply;
  }

  /** Records change at most for one request, which is answered if it is done and its broker open; brokers stay closed. */
  lemma AnsweredFrame(s: System, s': System, changed: set<Id>)
    requires Named(s) && Answered(s) && s.log <= s'.log
    requires forall r <- s'.executions :: r in changed || (r in s.executions && s'.executions[r] == s.executions[r])
    requires forall b <- s.brokers :: b in s'.brokers && (s.brokers[b].closed ==> s'.brokers[b].closed)
    requires forall r <- s'.executions :: r in changed && Done(s', r) ==> HasReply(s', r)
    ensures Answered(s')
  {
    forall r <- s'.executions ensures Done(s', r) ==> HasReply(s', r) {
      if r !in changed && HasReply(s, r) { ReplyStays(s, s', r); }
    }
  }

  lemma AnsweredOnExecute(s: System, b: Id, i: nat)
    requires Named(s) && Answered(s) && Enabled(s, Deliver(ToBroker(b), i)) && s.log[i].Execute? && s.log[i].brokerId == b
    ensures Answered(DeliverToBroker(s, b, i))
  {
    var s', reaction := DeliverToBroker(s, b, i), BrokerOnMessage(s.brokers[b], s.log[i]);
    if reaction.start.None? { ReplyPosted(s', s.log[i].requestId, s.log, reaction.posts[0]); }
    AnsweredFrame(s, s', {s.log[i].requestId});
  }

  lemma AnsweredOnHandlerEnd(s: System, r: Id, result: HandlerResult)
    requires Named(s) && Answered(s) && Enabled(s, HandlerEnds(r, result))
    ensures Answered(EndHandler(s, r, result))
  {
    var s', b := EndHandler(s, r, result), s.brokers[s.executions[r].brokerId];
    var posts := BrokerOnHandlerEnd(b, r, result).posts;
    if !b.closed { ReplyPosted(s', r, s.log, posts[0]); }
    AnsweredFrame(s, s', {r});
  }

  lemma AnsweredOnOther(s: System, e: Event)
    requires Named(s) && Answered(s) && Enabled(s, e) && !e.HandlerEnds?
    requires !(e.Deliver? && e.party.ToBroker? && s.log[e.index].Execute? && s.log[e.index].brokerId == e.party.brokerId)
    ensures Answered(Next(s, e))
  {
    AnsweredFrame(s, Next(s, e), {});
  }

  lemma AnsweredKept(s: System, e: Event)
    requires Named(s) && Answered(s) && Enabled(s, e)
    ensures Answered(Next(s, e))
  {
    if e.HandlerEnds? {
      AnsweredOnHandlerEnd(s, e.request, e.result);
    } else if e.Deliver? && e.party.ToBroker? && s.log[e.index].Execute? && s.log[e.index].brokerId == e.party.brokerId {
      AnsweredOnExecute(s, e.party.brokerId, e.index);
    } else {
      AnsweredOnOther(s, e);
    }
    hide Answered, Named, BrokerOnMessage, DeliverToBroker, EndHandler;
  }

  lemma {:induction false} EveryRunAnswers(events: seq<Event>)
    ensures Answered(Run(events))
    decreases |events|
  {
    if events != [] {
      var s, e := Run(events[..|events| - 1]), events[|events| - 1];
      EveryRunAnswers(events[..|events| - 1]);
      EveryRun(events[..|events| - 1]);
      if Enabled(s, e) { AnsweredKept(s, e); }
    }
  }

  // ----- what every run means for the user -----

  /** A request starts the login handler at most once, over all brokers. */
  lemma StartsAtMostOnce(events: seq<Event>, r: Id)
    ensures Run(events).starts[r] <= 1
  {
    EveryRun(events);
  }

  /**
    A popup that reports a handled login reports what the handler returned for that popup's own input,
    on a broker that advertises the chosen wallet when there is one.
   */
  lemma HandledTruthfully(events: seq<Event>, r: Id, outcome: LoginOutcome)
    requires var s := Run(events); r in s.popups && s.popups[r].result == Some(Handled(outcome))
    ensures var s := Run(events); var p := s.popups[r];
            && r in s.executions && s.starts[r] == 1
            && s.executions[r].status == Ended(Returned(outcome)) && s.executions[r].input == p.input
            && s.executions[r].brokerId in s.brokers
            && (p.target != "" ==> s.brokers[s.executions[r].brokerId].credentialId == p.target)
  {
    EveryRun(events);
    hide Run, OneAtATime, Replied, Asserted, Heard;
  }

  /** A result is final. */
  lemma {:induction false} ResultFinal(events: seq<Event>, more: seq<Event>, r: Id)
    requires r in Run(events).popups && Run(events).popups[r].result.Some?
    ensures r in Run(events + more).popups && Run(events + more).popups[r] == Run(events).popups[r]
  {
    if more == [] {
      assert events + more == events;
    } else {
      var rest := more[..|more| - 1];
      ResultFinal(events, rest, r);
      assert (events + more)[..|events + more| - 1] == events + rest;
      var s, e := Run(events + rest), more[|more| - 1];
      if Enabled(s, e) { ResultFinalStep(s, e, r); }
    }
  }

  lemma ResultFinalStep(s: System, e: Event, r: Id)
    requires Enabled(s, e) && r in s.popups && s.popups[r].result.Some?
    ensures r in Next(s, e).popups && Next(s, e).popups[r] == s.popups[r]
  {
    hide BrokerOnMessage, PopupOnMessage;
  }

  /**
    A popup that reports that no open wallet took the login lists exactly the other wallets it heard,
    and neither before nor after is an execute message for it ever sent.
   */
  lemma NotHandledMeansNeverExecuted(events: seq<Event>, more: seq<Event>, r: Id, conflicts: set<string>)
    requires var s := Run(events); r in s.popups && s.popups[r].result == Some(NotHandled(conflicts))
    ensures conflicts == Heard(Run(events + more), r)
    ensures var s := Run(events + more); forall i :: 0 <= i < |s.log| && s.log[i].Execute? ==> s.log[i].requestId != r
  {
    ResultFinal(events, more, r);
    EveryRun(events + more);
    hide Run;
  }

  /** No broker, open or closed, runs two handlers at once. */
  lemma OneHandlerPerBroker(events: seq<Event>, q: Id, r: Id)
    requires var s := Run(events); q in s.executions && r in s.executions
    requires var s := Run(events); s.executions[q].status.Running? && s.executions[r].status.Running?
    requires var s := Run(events); s.executions[q].brokerId == s.executions[r].brokerId
    ensures q == r
  {
    EveryRun(events);
    hide Run;
  }

  /** A request gets at most one terminal reply. */
  lemma OneTerminalReply(events: seq<Event>, i: nat, j: nat)
    requires var s := Run(events); i < |s.log| && j < |s.log| && Terminal(s.log[i]) && Terminal(s.log[j])
    requires var s := Run(events); s.log[i].requestId == s.log[j].requestId
    ensures i == j
  {
    EveryRun(events);
    hide Run;
  }

  /** While its broker is open, a request that was turned away or whose handler ended has exactly one terminal reply, and a true one. */
  lemma AnsweredOnce(events: seq<Event>, r: Id) returns (i: nat)
    requires r in Run(events).executions && Done(Run(events), r)
    ensures var s := Run(events); i < |s.log| && Terminal(s.log[i]) && s.log[i].requestId == r
    ensures var s := Run(events); forall j :: 0 <= j < |s.log| && Terminal(s.log[j]) && s.log[j].requestId == r ==> j == i
    ensures var s := Run(events);
            match s.executions[r].status
            case Ended(Returned(outcome)) => s.log[i] == Success(r, s.executions[r].brokerId, outcome)
            case Ended(Threw(error)) => s.log[i] == Failure(r, s.executions[r].brokerId, error)
            case _ => s.log[i] == Failure(r, s.executions[r].brokerId, BUSY)
  {
    EveryRunAnswers(events);
    EveryRun(events);
    hide Run, BUSY, Named, Selection, Executed, OneAtATime, Concluded, Asserted, Done;
    var s := Run(events);
    assert HasReply(s, r);
    i :| 0 <= i < |s.log| && Terminal(s.log[i]) && s.log[i].requestId == r;
  }

  /** A popup that signs, signs what a handler asked: its broker's own passkey over the handler's 32-byte challenge. */
  lemma SignsWhatWasAsked(events: seq<Event>, c: Ceremony)
    requires var s := Run(events); c in s.performing || exists x :: (c, x) in s.performed
    ensures var s := Run(events);
            && c.assertionId in s.asked && var x := s.asked[c.assertionId];
            && x == Request(x.brokerId, c.requestId, c.credentialId, c.challenge) && |c.challenge| == 32
            && x.brokerId in s.brokers && s.brokers[x.brokerId].credentialId == c.credentialId
            && c.requestId in s.popups && s.popups[c.requestId].canAssert && s.popups[c.requestId].selected == Some(x.brokerId)
  {
    EveryRun(events);
    hide Run, BytesToHex, Asserted, Selection, Concluded, Replied, Executed;
    var s := Run(events);
    if c !in s.performing {
      var x :| (c, x) in s.performed;
      assert Rightful(s, (c, x).0);
    }
  }

  /** An assertion is fulfilled only with what the popup of the asking request performed for it, unchanged. */
  lemma AssertionsStayWithTheirRequest(events: seq<Event>, a: Id)
    requires a in Run(events).settled && Run(events).settled[a].Fulfilled?
    ensures var s := Run(events);
            a in s.asked && (CeremonyFor(a, s.asked[a]), s.settled[a].assertion) in s.performed
  {
    EveryRun(events);
    hide Run;
  }
}
