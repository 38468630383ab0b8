/**
  What the channel is for: from every reachable state a login can be brokered to its end. The steps of one
  login are deliveries of the messages that the parties post, so each message has to say what the other
  end needs.
 */
module SessionProgress {
  import opened Wrappers
  import opened SessionMessages
  import opened SessionBroker
  import opened SessionProtocol

  // ----- both ends together -----

  /** A challenge that a handler asks for is the challenge that its popup's passkey signs, with the broker's own passkey. */
  lemma AskedIsPerformed(b: Broker, p: Popup, a: Id, challenge: seq<byte>)
    requires !b.closed && b.active == Some(p.requestId) && b.credentialId != "" && |challenge| == 32
    requires p.selected == Some(b.id) && p.result.None?
    ensures var asked := BrokerAsks(b, a, challenge);
            && asked.Some? && asked.value.next == b.(pending := b.pending[a := p.requestId]) && |asked.value.posts| == 1
            && var heard := PopupOnMessage(p, asked.value.posts[0]);
               if p.canAssert then heard == PopupReaction(p, [], Some((a, b.credentialId, challenge)))
               else heard == PopupReaction(p, [WebAuthnFailure(p.requestId, b.id, a, CANNOT_ASSERT)], None)
  {
    HexRoundTrip(challenge);
    hide HexToBytes, BytesToHex, CANNOT_ASSERT;
  }

  /** What the passkey answers settles the assertion that is pending for it, and nothing else. */
  lemma AnswerArrives(b: Broker, p: Popup, a: Id, answer: Settlement)
    requires !b.closed && a in b.pending && b.pending[a] == p.requestId && p.result.None?
    ensures var posts := PopupAnswers(p, b.id, a, answer);
            && |posts| == 1
            && var heard := BrokerOnMessage(b, posts[0]);
               && heard.next == b.(pending := b.pending - {a}) && heard.posts == [] && heard.start.None?
               && heard.settled.Some? && heard.settled.value.0 == a
               && if answer.Refused? || Deliverable(answer.assertion) then heard.settled.value.1 == answer
                  else heard.settled.value.1.Refused?
  {
    if answer.Fulfilled? { AssertionRoundTrip(answer.assertion); }
    hide AssertionFromWire, AssertionToWire, INVALID_ASSERTION;
  }

  // ----- steps of a run -----

  /** Only messages that were posted have been handed out. */
  ghost predicate SeenLogged(s: System) {
    forall p, i :: (p, i) in s.seen ==> i < |s.log|
  }

  lemma SeenLoggedKept(s: System, e: Event)
    requires SeenLogged(s) && Enabled(s, e)
    ensures SeenLogged(Next(s, e))
  {
    hide BrokerOnMessage, PopupOnMessage, BrokerOnHandlerEnd, BrokerAsks, PopupAnswers, ASSERTION_TIMED_OUT, SESSION_CLOSED, TIMED_OUT;
  }

  lemma {:induction false} SeenIsLogged(events: seq<Event>)
    ensures SeenLogged(Run(events))
  {
    hide Next, Enabled, SeenLogged;
    if events == [] {
      assert SeenLogged(INIT) by { NothingSeen(); }
    } else {
      var s, e := Run(events[..|events| - 1]), events[|events| - 1];
      SeenIsLogged(events[..|events| - 1]);
      if Enabled(s, e) { SeenLoggedKept(s, e); }
    }
  }

  lemma NothingSeen()
    ensures SeenLogged(INIT)
  {
  }

  lemma OneStep(events: seq<Event>, e: Event)
    requires Enabled(Run(events), e)
    ensures Run(events + [e]) == Next(Run(events), e)
  {
    hide Enabled, Next;
    assert (events + [e])[..|events + [e]| - 1] == events;
  }

  /** What was executed was opened. */
  lemma ExecutedWasOpened(s: System, r: Id)
    requires Selection(s) && Executed(s) && r in s.executions
    ensures r in s.popups
  {
    assert s.log[s.executions[r].at].Execute?;
  }

  /** One login between one broker and one popup. */
  datatype Login = Login(broker: Id, credentialId: string, request: Id, input: LoginInput, target: string, outcome: LoginOutcome,
                         assertionId: Id, challenge: seq<byte>, assertion: Assertion)

  function Last(s: System): nat { if s.log == [] then 0 else |s.log| - 1 }

  /** The last message was just posted. */
  ghost predicate Posted(s: System, m: Message) {
    s.log != [] && s.log[|s.log| - 1] == m && forall p, i :: (p, i) in s.seen ==> i < |s.log| - 1
  }

  /** The parties of a login: an open broker with its passkey, and the popup, waiting. */
  ghost predicate Parties(s: System, l: Login, selected: Option<Id>) {
    && l.broker in s.brokers && s.brokers[l.broker].id == l.broker && s.brokers[l.broker].credentialId == l.credentialId
    && !s.brokers[l.broker].closed
    && l.request in s.popups && s.popups[l.request] == Popup(l.request, l.input, l.target, true, selected, {}, None)
  }

  /** What a step of this login leaves alone: the assertions and executions of others, and the broker's own state. */
  ghost predicate Quiet(s: System, t: System) {
    t.brokers == s.brokers && t.executions == s.executions && t.asked == s.asked && t.settled == s.settled
  }

  // ----- discovery -----

  lemma Opened(s: System, l: Login) returns (t: System)
    requires l.request !in s.popups && SeenLogged(s)
    requires l.broker in s.brokers && s.brokers[l.broker].id == l.broker && s.brokers[l.broker].credentialId == l.credentialId
    requires !s.brokers[l.broker].closed
    ensures var e := OpenPopup(l.request, l.input, l.target, true); Enabled(s, e) && t == Next(s, e)
    ensures Parties(t, l, None) && Quiet(s, t) && Posted(t, Probe(l.request)) && SeenLogged(t)
  {
    t := Next(s, OpenPopup(l.request, l.input, l.target, true));
  }

  /** An open broker, busy or not, answers a probe with itself and its wallet. */
  lemma Probed(s: System, l: Login) returns (t: System)
    requires Parties(s, l, None) && Posted(s, Probe(l.request)) && SeenLogged(s)
    ensures var e := Deliver(ToBroker(l.broker), Last(s)); Enabled(s, e) && t == Next(s, e)
    ensures Parties(t, l, None) && Quiet(s, t) && Posted(t, Available(l.request, l.broker, l.credentialId)) && SeenLogged(t)
  {
    t := Next(s, Deliver(ToBroker(l.broker), Last(s)));
  }

  /** A waiting popup that wants this wallet, or any, selects it and sends its own input. */
  lemma Selected(s: System, l: Login) returns (t: System)
    requires Parties(s, l, None) && Posted(s, Available(l.request, l.broker, l.credentialId)) && SeenLogged(s)
    requires l.target == "" || l.target == l.credentialId
    ensures var e := Deliver(ToPopup(l.request), Last(s)); Enabled(s, e) && t == Next(s, e)
    ensures Parties(t, l, Some(l.broker)) && Quiet(s, t) && Posted(t, Execute(l.request, l.broker, l.input)) && SeenLogged(t)
  {
    t := Next(s, Deliver(ToPopup(l.request), Last(s)));
  }

  // ----- execution -----

  ghost predicate Executing(s: System, l: Login) {
    && Parties(s, l, Some(l.broker)) && s.brokers[l.broker].active == Some(l.request)
    && l.request in s.executions && s.executions[l.request].brokerId == l.broker
    && s.executions[l.request].input == l.input && s.executions[l.request].status.Running?
  }

  lemma Started(s: System, l: Login) returns (t: System)
    requires Parties(s, l, Some(l.broker)) && Posted(s, Execute(l.request, l.broker, l.input)) && SeenLogged(s)
    requires s.brokers[l.broker].active.None?
    ensures var e := Deliver(ToBroker(l.broker), Last(s)); Enabled(s, e) && t == Next(s, e)
    ensures Executing(t, l) && t.asked == s.asked && t.settled == s.settled && SeenLogged(t)
  {
    t := Next(s, Deliver(ToBroker(l.broker), Last(s)));
  }

  // ----- the passkey ceremony -----

  function CeremonyOfLogin(l: Login): Ceremony { Ceremony(l.request, l.assertionId, l.credentialId, l.challenge) }

  predicate CanSign(l: Login) { l.credentialId != "" && |l.challenge| == 32 && Deliverable(l.assertion) }

  ghost predicate Pending(s: System, l: Login) {
    Executing(s, l) && l.assertionId in s.brokers[l.broker].pending && s.brokers[l.broker].pending[l.assertionId] == l.request
  }

  lemma Asks(s: System, l: Login) returns (t: System)
    requires Executing(s, l) && CanSign(l) && l.assertionId !in s.asked && SeenLogged(s)
    ensures var e := HandlerAsks(l.broker, l.assertionId, l.challenge); Enabled(s, e) && t == Next(s, e)
    ensures Pending(t, l) && SeenLogged(t)
    ensures Posted(t, WebAuthnRequest(l.request, l.broker, l.assertionId, l.credentialId, BytesToHex(l.challenge)))
  {
    hide BytesToHex;
    t := Next(s, HandlerAsks(l.broker, l.assertionId, l.challenge));
  }

  lemma Performs(s: System, l: Login) returns (t: System)
    requires Pending(s, l) && CanSign(l) && SeenLogged(s)
    requires Posted(s, WebAuthnRequest(l.request, l.broker, l.assertionId, l.credentialId, BytesToHex(l.challenge)))
    ensures var e := Deliver(ToPopup(l.request), Last(s)); Enabled(s, e) && t == Next(s, e)
    ensures Pending(t, l) && SeenLogged(t) && CeremonyOfLogin(l) in t.performing
  {
    HexRoundTrip(l.challenge);
    hide BytesToHex, HexToBytes;
    t := Next(s, Deliver(ToPopup(l.request), Last(s)));
  }

  lemma Signs(s: System, l: Login) returns (t: System)
    requires Pending(s, l) && CeremonyOfLogin(l) in s.performing && SeenLogged(s)
    ensures var e := PasskeyAnswers(CeremonyOfLogin(l), Fulfilled(l.assertion)); Enabled(s, e) && t == Next(s, e)
    ensures Pending(t, l) && SeenLogged(t) && (CeremonyOfLogin(l), l.assertion) in t.performed
    ensures Posted(t, WebAuthnSuccess(l.request, l.broker, l.assertionId, AssertionToWire(l.assertion)))
  {
    hide AssertionToWire;
    t := Next(s, PasskeyAnswers(CeremonyOfLogin(l), Fulfilled(l.assertion)));
  }

  /** The handler has the assertion that the popup's passkey made. */
  ghost predicate Signed(s: System, l: Login) {
    && l.assertionId in s.settled && s.settled[l.assertionId] == Fulfilled(l.assertion)
    && (CeremonyOfLogin(l), l.assertion) in s.performed
  }

  lemma Settles(s: System, l: Login) returns (t: System)
    requires Pending(s, l) && CanSign(l) && SeenLogged(s) && (CeremonyOfLogin(l), l.assertion) in s.performed
    requires Posted(s, WebAuthnSuccess(l.request, l.broker, l.assertionId, AssertionToWire(l.assertion)))
    ensures var e := Deliver(ToBroker(l.broker), Last(s)); Enabled(s, e) && t == Next(s, e)
    ensures Executing(t, l) && SeenLogged(t) && Signed(t, l)
  {
    AssertionRoundTrip(l.assertion);
    hide AssertionToWire, AssertionFromWire;
    t := Next(s, Deliver(ToBroker(l.broker), Last(s)));
  }

  // ----- the end -----

  lemma Ends(s: System, l: Login) returns (t: System)
    requires Executing(s, l) && SeenLogged(s) && Signed(s, l)
    ensures var e := HandlerEnds(l.request, Returned(l.outcome)); Enabled(s, e) && t == Next(s, e)
    ensures Parties(t, l, Some(l.broker)) && SeenLogged(t) && Signed(t, l) && Posted(t, Success(l.request, l.broker, l.outcome))
  {
    t := Next(s, HandlerEnds(l.request, Returned(l.outcome)));
  }

  lemma Concludes(s: System, l: Login) returns (t: System)
    requires Parties(s, l, Some(l.broker)) && SeenLogged(s) && Signed(s, l) && Posted(s, Success(l.request, l.broker, l.outcome))
    ensures var e := Deliver(ToPopup(l.request), Last(s)); Enabled(s, e) && t == Next(s, e)
    ensures Signed(t, l) && l.request in t.popups && t.popups[l.request].result == Some(Handled(l.outcome))
  {
    t := Next(s, Deliver(ToPopup(l.request), Last(s)));
  }

  // ----- from every reachable state -----

  lemma Then(events: seq<Event>, e: Event) returns (longer: seq<Event>)
    requires Enabled(Run(events), e)
    ensures events <= longer && Run(longer) == Next(Run(events), e)
  {
    longer := events + [e];
    OneStep(events, e);
  }

  lemma Brokered(events: seq<Event>, l: Login) returns (longer: seq<Event>)
    requires var s := Run(events); SeenLogged(s) && l.request !in s.popups
    requires var s := Run(events);
             l.broker in s.brokers && s.brokers[l.broker].id == l.broker && s.brokers[l.broker].credentialId == l.credentialId
             && !s.brokers[l.broker].closed
    requires l.target == "" || l.target == l.credentialId
    ensures events <= longer && SeenLogged(Run(longer)) && Parties(Run(longer), l, Some(l.broker))
    ensures Quiet(Run(events), Run(longer)) && Posted(Run(longer), Execute(l.request, l.broker, l.input))
  {
    hide Run, Enabled, Next, SeenLogged, Parties, Posted;
    var s := Opened(Run(events), l);
    longer := Then(events, OpenPopup(l.request, l.input, l.target, true));
    var next := Deliver(ToBroker(l.broker), Last(s));
    s := Probed(s, l);
    longer := Then(longer, next);
    next := Deliver(ToPopup(l.request), Last(s));
    s := Selected(s, l);
    longer := Then(longer, next);
  }

  lemma HandedAssertion(events: seq<Event>, l: Login) returns (longer: seq<Event>)
    requires var s := Run(events); SeenLogged(s) && Executing(s, l) && CanSign(l) && l.assertionId !in s.asked
    ensures events <= longer && SeenLogged(Run(longer)) && Executing(Run(longer), l) && Signed(Run(longer), l)
  {
    hide Run, Enabled, Next, SeenLogged, Pending, Executing, Posted, Signed, CanSign;
    var s := Asks(Run(events), l);
    longer := Then(events, HandlerAsks(l.broker, l.assertionId, l.challenge));
    var next := Deliver(ToPopup(l.request), Last(s));
    s := Performs(s, l);
    longer := Then(longer, next);
    s := Signs(s, l);
    longer := Then(longer, PasskeyAnswers(CeremonyOfLogin(l), Fulfilled(l.assertion)));
    next := Deliver(ToBroker(l.broker), Last(s));
    s := Settles(s, l);
    longer := Then(longer, next);
  }

  /**
    Whatever happened before, a new popup can log in through any open, idle broker that holds the wallet it
    wants: its passkey signs the handler's challenge, the handler receives that very assertion, and the
    popup reports what the handler returns.
   */
  lemma LoginCanComplete(events: seq<Event>, l: Login) returns (longer: seq<Event>)
    requires var s := Run(events); l.request !in s.popups && l.broker in s.brokers && l.assertionId !in s.asked
    requires var b := Run(events).brokers[l.broker]; !b.closed && b.active.None? && b.credentialId == l.credentialId
    requires CanSign(l) && (l.target == "" || l.target == l.credentialId)
    ensures events <= longer
    ensures var s := Run(longer); Signed(s, l) && l.request in s.popups && s.popups[l.request].result == Some(Handled(l.outcome))
  {
    SeenIsLogged(events);
    EveryRun(events);
    hide Run, Enabled, Next, SeenLogged, Parties, Posted, Executing, Signed, CanSign, Selection, Executed, OneAtATime, Replied,
         Concluded, Ceremonies, Asserted;
    longer := Brokered(events, l);
    var s := Run(longer);
    if l.request in s.executions { ExecutedWasOpened(Run(events), l.request); }
    var next := Deliver(ToBroker(l.broker), Last(s));
    s := Started(s, l);
    longer := Then(longer, next);
    longer := HandedAssertion(longer, l);
    s := Ends(Run(longer), l);
    longer := Then(longer, HandlerEnds(l.request, Returned(l.outcome)));
    next := Deliver(ToPopup(l.request), Last(s));
    s := Concludes(s, l);
    longer := Then(longer, next);
  }

  /** A reply that reaches its waiting popup ends the wait, with the handler's own outcome or error. */
  lemma ReplyConcludes(events: seq<Event>, r: Id, i: nat)
    requires var s := Run(events); Enabled(s, Deliver(ToPopup(r), i)) && Terminal(s.log[i]) && s.log[i].requestId == r
    ensures var s := Run(events);
            && r in s.executions && i < |s.log|
            && Next(s, Deliver(ToPopup(r), i)).popups[r].result
               == match s.executions[r].status
                  case Ended(Returned(outcome)) => Some(Handled(outcome))
                  case Ended(Threw(error)) => Some(Rejected(error))
                  case _ => Some(Rejected(BUSY))
  {
    EveryRun(events);
    hide Run, BUSY, OneAtATime, Concluded, Ceremonies, Asserted;
    var s := Run(events);
    assert s.log[s.executions[r].at].Execute?;
  }

  // ----- both ends fall silent -----

  /** The messages that a broker posts, and those that a popup posts. */
  predicate FromBroker(m: Message, b: Id) {
    (m.Available? || m.Started? || m.Success? || m.Failure? || m.WebAuthnRequest?) && m.brokerId == b
  }

  predicate FromPopup(m: Message, r: Id) {
    (m.Probe? || m.Execute? || m.WebAuthnSuccess? || m.WebAuthnFailure?) && m.requestId == r
  }

  /** Nothing reaches a closed broker or a popup that has its result: neither acts on a message. */
  lemma ClosedEndsIgnore(b: Broker, p: Popup, m: Message)
    ensures b.closed ==> BrokerOnMessage(b, m) == BrokerReaction(b, [], None, None)
    ensures p.result.Some? ==> PopupOnMessage(p, m) == PopupReaction(p, [], None)
  {
  }

  lemma BrokerPosts(b: Broker, m: Message)
    ensures var posts := BrokerOnMessage(b, m).posts; posts == [] || (|posts| == 1 && !b.closed && FromBroker(posts[0], b.id))
    ensures BrokerOnMessage(b, m).next.closed == b.closed
  {
    hide AssertionFromWire;
  }

  lemma PopupPosts(p: Popup, m: Message)
    ensures var posts := PopupOnMessage(p, m).posts; posts == [] || (|posts| == 1 && p.result.None? && FromPopup(posts[0], p.requestId))
    ensures p.result.Some? ==> PopupOnMessage(p, m).next == p
  {
    hide HexToBytes;
  }

  /** What a step adds to the channel comes from an open broker or a waiting popup. */
  ghost predicate SpeaksInTurn(s: System, s': System) {
    && s.log <= s'.log
    && forall i :: |s.log| <= i < |s'.log| ==>
         var m := s'.log[i];
         || (m.requestId in s.popups && s.popups[m.requestId].result.None? && FromPopup(m, m.requestId))
         || (m.Probe? && m.requestId !in s.popups)
         || (!m.Probe? && m.brokerId in s.brokers && !s.brokers[m.brokerId].closed && FromBroker(m, m.brokerId))
  }

  lemma Speaks(s: System, e: Event)
    requires Named(s) && Enabled(s, e) && e.Deliver?
    ensures SpeaksInTurn(s, Next(s, e))
  {
    hide BrokerOnMessage, PopupOnMessage;
    match e.party
    case ToBroker(b) => BrokerPosts(s.brokers[b], s.log[e.index]);
    case ToPopup(r) => PopupPosts(s.popups[r], s.log[e.index]);
  }

  lemma SpeaksOtherwise(s: System, e: Event)
    requires Named(s) && Enabled(s, e) && !e.Deliver?
    ensures SpeaksInTurn(s, Next(s, e))
  {
    hide BytesToHex, AssertionToWire, ASSERTION_TIMED_OUT, SESSION_CLOSED, TIMED_OUT;
  }

  lemma ClosedStays(s: System, e: Event, b: Id)
    requires Named(s) && Enabled(s, e) && b in s.brokers && s.brokers[b].closed
    ensures b in Next(s, e).brokers && Next(s, e).brokers[b].closed
  {
    hide BrokerOnMessage, PopupOnMessage, PopupAnswers, ASSERTION_TIMED_OUT, SESSION_CLOSED, TIMED_OUT, BytesToHex;
    if e.Deliver? && e.party.ToBroker? { BrokerPosts(s.brokers[e.party.brokerId], s.log[e.index]); }
  }

  /** After a tab closed its broker, nothing it would post is ever on the channel again. */
  lemma {:induction false} ClosedBrokerIsSilent(events: seq<Event>, more: seq<Event>, b: Id, i: nat)
    requires b in Run(events).brokers && Run(events).brokers[b].closed
    ensures var s := Run(events + more); b in s.brokers && s.brokers[b].closed && Run(events).log <= s.log
    ensures var s := Run(events + more); |Run(events).log| <= i < |s.log| ==> !FromBroker(s.log[i], b)
  {
    hide Enabled, Next, Inv;
    if more == [] {
      assert events + more == events;
    } else {
      var rest := more[..|more| - 1];
      ClosedBrokerIsSilent(events, rest, b, i);
      assert (events + more)[..|events + more| - 1] == events + rest;
      EveryRun(events + rest);
      NamedOf(Run(events + rest));
      var s, e := Run(events + rest), more[|more| - 1];
      RunLast(events + more);
      hide Named, Run;
      if Enabled(s, e) {
        ClosedStays(s, e, b);
        if e.Deliver? { Speaks(s, e); } else { SpeaksOtherwise(s, e); }
      }
    }
  }

  lemma NamedOf(s: System)
    requires Inv(s)
    ensures Named(s)
  {
  }

  lemma RunLast(events: seq<Event>)
    requires events != []
    ensures var s, e := Run(events[..|events| - 1]), events[|events| - 1]; Run(events) == if Enabled(s, e) then Next(s, e) else s
  {
    hide Enabled, Next;
  }

  /** After a popup has its result, nothing it would post is ever on the channel again. */
  lemma {:induction false} FinishedPopupIsSilent(events: seq<Event>, more: seq<Event>, r: Id, i: nat)
    requires r in Run(events).popups && Run(events).popups[r].result.Some?
    ensures var s := Run(events + more); |Run(events).log| <= i < |s.log| ==> !FromPopup(s.log[i], r)
    ensures Run(events).log <= Run(events + more).log
  {
    hide Enabled, Next, Inv;
    if more == [] {
      assert events + more == events;
    } else {
      var rest := more[..|more| - 1];
      FinishedPopupIsSilent(events, rest, r, i);
      ResultFinal(events, rest, r);
      assert (events + more)[..|events + more| - 1] == events + rest;
      EveryRun(events + rest);
      NamedOf(Run(events + rest));
      var s, e := Run(events + rest), more[|more| - 1];
      RunLast(events + more);
      hide Named, Run;
      if Enabled(s, e) { if e.Deliver? { Speaks(s, e); } else { SpeaksOtherwise(s, e); } }
    }
  }
}
