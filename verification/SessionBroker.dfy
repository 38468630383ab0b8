/**
  The two ends of the wallet-session channel: the broker a management tab registers, and the popup that
  tries to log in through it. Each is a class whose event handlers update its fields; every handler is
  specified by a step function on the values of those fields, which the protocol model runs.
 */
module SessionBroker {
  import opened Wrappers
  import opened SessionMessages

  const OPEN_WALLET := "The open Magna wallet"
  const BUSY := OPEN_WALLET + " is already processing another action."
  const ASSERTION_TIMED_OUT := "The Login with Magna popup did not complete the passkey assertion in time."
  const SESSION_CLOSED := "The open Magna wallet session closed before passkey authorization completed."
  const CANNOT_ASSERT := "The Login with Magna popup cannot perform passkey assertions."
  const INVALID_CHALLENGE := "WebAuthn challenge must be exactly 32 bytes."
  const INVALID_ASSERTION := "Invalid WebAuthn assertion returned by the popup: "
  const TIMED_OUT := OPEN_WALLET + " did not finish the login request in time."

  datatype HandlerResult = Returned(outcome: LoginOutcome) | Threw(error: string)

  datatype Settlement = Fulfilled(assertion: Assertion) | Refused(error: string)

  // ----- the broker -----

  datatype Broker = Broker(id: Id, credentialId: string, active: Option<Id>, closed: bool, pending: map<Id, Id>)

  /** What an event makes a broker do: messages posted, a handler started, an assertion settled. */
  datatype BrokerReaction = BrokerReaction(
    next: Broker, posts: seq<Message>, start: Option<LoginInput>, settled: Option<(Id, Settlement)>)

  function BrokerOnMessage(b: Broker, m: Message): BrokerReaction {
    var idle := BrokerReaction(b, [], None, None);
    if b.closed then idle
    else
      match m
      case WebAuthnSuccess(request, broker, assertion, wire) =>
        if broker == b.id && assertion in b.pending && b.pending[assertion] == request then
          var settlement := match AssertionFromWire(wire)
                            case Ok(a) => Fulfilled(a)
                            case Err(e) => Refused(INVALID_ASSERTION + e);
          BrokerReaction(b.(pending := b.pending - {assertion}), [], None, Some((assertion, settlement)))
        else idle
      case WebAuthnFailure(request, broker, assertion, error) =>
        if broker == b.id && assertion in b.pending && b.pending[assertion] == request then
          BrokerReaction(b.(pending := b.pending - {assertion}), [], None, Some((assertion, Refused(error))))
        else idle
      case Probe(request) => idle.(posts := [Available(request, b.id, b.credentialId)])
      case Execute(request, broker, input) =>
        if broker != b.id then idle
        else if b.active.Some? then idle.(posts := [Failure(request, b.id, BUSY)])
        else BrokerReaction(b.(active := Some(request)), [Started(request, b.id)], Some(input), None)
      case _ => idle
  }

  /** The handler of a request returned or threw. */
  function BrokerOnHandlerEnd(b: Broker, request: Id, result: HandlerResult): BrokerReaction {
    var reply := match result
                 case Returned(outcome) => Success(request, b.id, outcome)
                 case Threw(error) => Failure(request, b.id, error);
    BrokerReaction(
      if b.active == Some(request) then b.(active := None) else b,
      if b.closed then [] else [reply], None, None)
  }

  /** The running handler asks the popup for an assertion; None when it is refused before anything is sent. */
  function BrokerAsks(b: Broker, assertion: Id, challenge: seq<byte>): Option<BrokerReaction> {
    if b.active.None? || b.credentialId == "" || |challenge| != 32 then None
    else
      var request := b.active.value;
      var posts := if b.closed then []
                   else [WebAuthnRequest(request, b.id, assertion, b.credentialId, BytesToHex(challenge))];
      Some(BrokerReaction(b.(pending := b.pending[assertion := request]), posts, None, None))
  }

  class WalletBroker {
    const id: Id
    const credentialId: string
    var activeRequestId: Option<Id>
    var closed: bool
    var pendingAssertions: map<Id, Id>

    function View(): Broker
      reads this
    {
      Broker(id, credentialId, activeRequestId, closed, pendingAssertions)
    }

    constructor (id: Id, credentialId: string)
      ensures View() == Broker(id, credentialId, None, false, map[])
    {
      this.id, this.credentialId := id, credentialId;
      activeRequestId, closed, pendingAssertions := None, false, map[];
    }

    method OnMessage(m: Message) returns (posts: seq<Message>, start: Option<LoginInput>, settled: Option<(Id, Settlement)>)
      modifies this
      ensures BrokerReaction(View(), posts, start, settled) == BrokerOnMessage(old(View()), m)
    {
      posts, start, settled := [], None, None;
      if closed { return; }
      if (m.WebAuthnSuccess? || m.WebAuthnFailure?) && m.brokerId == id {
        if m.assertionId !in pendingAssertions || pendingAssertions[m.assertionId] != m.requestId { return; }
        pendingAssertions := pendingAssertions - {m.assertionId};
        if m.WebAuthnFailure? {
          settled := Some((m.assertionId, Refused(m.error)));
          return;
        }
        match AssertionFromWire(m.wire) {
          case Ok(a) => settled := Some((m.assertionId, Fulfilled(a)));
          case Err(e) => settled := Some((m.assertionId, Refused(INVALID_ASSERTION + e)));
        }
        return;
      }
      if m.Probe? {
        posts := [Available(m.requestId, id, credentialId)];
        return;
      }
      if !m.Execute? || m.brokerId != id { return; }
      if activeRequestId.Some? {
        posts := [Failure(m.requestId, id, BUSY)];
        return;
      }
      activeRequestId := Some(m.requestId);
      posts, start := [Started(m.requestId, id)], Some(m.input);
    }

    method OnHandlerEnd(request: Id, result: HandlerResult) returns (posts: seq<Message>)
      modifies this
      ensures BrokerReaction(View(), posts, None, None) == BrokerOnHandlerEnd(old(View()), request, result)
    {
      posts := [];
      if !closed {
        match result {
          case Returned(outcome) => posts := [Success(request, id, outcome)];
          case Threw(error) => posts := [Failure(request, id, error)];
        }
      }
      if activeRequestId == Some(request) { activeRequestId := None; }
    }

    method RequestWebAuthnAssertion(assertion: Id, challenge: seq<byte>) returns (posts: seq<Message>, sent: bool)
      modifies this
      ensures match BrokerAsks(old(View()), assertion, challenge)
              case None => !sent && posts == [] && View() == old(View())
              case Some(r) => sent && BrokerReaction(View(), posts, None, None) == r
    {
      posts, sent := [], false;
      if activeRequestId.None? || credentialId == "" || |challenge| != 32 { return; }
      pendingAssertions := pendingAssertions[assertion := activeRequestId.value];
      sent := true;
      if !closed {
        posts := [WebAuthnRequest(activeRequestId.value, id, assertion, credentialId, BytesToHex(challenge))];
      }
    }

    /** An assertion that timed out is rejected and forgotten. */
    method OnAssertionTimeout(assertion: Id)
      modifies this
      ensures View() == old(View()).(pending := old(pendingAssertions) - {assertion})
    {
      pendingAssertions := pendingAssertions - {assertion};
    }

    method Close() returns (rejected: set<Id>)
      modifies this
      ensures View() == old(View()).(closed := true, pending := map[]) && rejected == old(pendingAssertions.Keys)
    {
      closed := true;
      rejected := pendingAssertions.Keys;
      pendingAssertions := map[];
    }
  }

  // ----- the popup -----

  datatype LoginResult =
    | Handled(outcome: LoginOutcome)
    | NotHandled(conflictingCredentialIds: set<string>)
    | Rejected(error: string)

  datatype Popup = Popup(
    requestId: Id, input: LoginInput, target: string, canAssert: bool,
    selected: Option<Id>, conflicts: set<string>, result: Option<LoginResult>)

  /** What an event makes a popup do: messages posted, an assertion (id, credential, challenge) begun. */
  datatype PopupReaction = PopupReaction(next: Popup, posts: seq<Message>, perform: Option<(Id, string, seq<byte>)>)

  function PopupOnMessage(p: Popup, m: Message): PopupReaction {
    var idle := PopupReaction(p, [], None);
    if p.result.Some? || m.requestId != p.requestId then idle
    else if m.Available? && p.selected.None? then
      if p.target != "" && m.credentialId != p.target then
        idle.(next := if m.credentialId != "" then p.(conflicts := p.conflicts + {m.credentialId}) else p)
      else PopupReaction(p.(selected := Some(m.brokerId)), [Execute(p.requestId, m.brokerId, p.input)], None)
    else if m.Probe? || p.selected != Some(m.brokerId) then idle
    else
      match m
      case WebAuthnRequest(_, broker, assertion, credential, challengeHex) =>
        if !p.canAssert then
          idle.(posts := [WebAuthnFailure(p.requestId, broker, assertion, CANNOT_ASSERT)])
        else
          (match HexToBytes(challengeHex)
           case Err(e) => idle.(posts := [WebAuthnFailure(p.requestId, broker, assertion, "WebAuthn challenge " + e)])
           case Ok(challenge) =>
             if |challenge| != 32 then
               idle.(posts := [WebAuthnFailure(p.requestId, broker, assertion, INVALID_CHALLENGE)])
             else idle.(perform := Some((assertion, credential, challenge))))
      case Success(_, _, outcome) => idle.(next := p.(result := Some(Handled(outcome))))
      case Failure(_, _, error) => idle.(next := p.(result := Some(Rejected(error))))
      case _ => idle
  }

  /** The answer to an assertion the popup performed; a closed channel carries nothing. */
  function PopupAnswers(p: Popup, broker: Id, assertion: Id, result: Settlement): seq<Message> {
    if p.result.Some? then []
    else match result
      case Fulfilled(a) => [WebAuthnSuccess(p.requestId, broker, assertion, AssertionToWire(a))]
      case Refused(e) => [WebAuthnFailure(p.requestId, broker, assertion, e)]
  }

  class LoginPopup {
    const requestId: Id
    const input: LoginInput
    const target: string
    const canAssert: bool
    var selectedBrokerId: Option<Id>
    var conflictingCredentialIds: set<string>
    var result: Option<LoginResult>

    function View(): Popup
      reads this
    {
      Popup(requestId, input, target, canAssert, selectedBrokerId, conflictingCredentialIds, result)
    }

    constructor (requestId: Id, input: LoginInput, target: string, canAssert: bool)
      ensures View() == Popup(requestId, input, target, canAssert, None, {}, None)
    {
      this.requestId, this.input, this.target, this.canAssert := requestId, input, target, canAssert;
      selectedBrokerId, conflictingCredentialIds, result := None, {}, None;
    }

    method OnMessage(m: Message) returns (posts: seq<Message>, perform: Option<(Id, string, seq<byte>)>)
      modifies this
      ensures PopupReaction(View(), posts, perform) == PopupOnMessage(old(View()), m)
    {
      posts, perform := [], None;
      if result.Some? || m.requestId != requestId { return; }
      if m.Available? && selectedBrokerId.None? {
        if target != "" && m.credentialId != target {
          if m.credentialId != "" {
            conflictingCredentialIds := conflictingCredentialIds + {m.credentialId};
          }
          return;
        }
        selectedBrokerId := Some(m.brokerId);
        posts := [Execute(requestId, m.brokerId, input)];
        return;
      }
      if m.Probe? || selectedBrokerId != Some(m.brokerId) { return; }
      if m.WebAuthnRequest? {
        if !canAssert {
          posts := [WebAuthnFailure(requestId, m.brokerId, m.assertionId, CANNOT_ASSERT)];
          return;
        }
        match HexToBytes(m.challengeHex) {
          case Err(e) =>
            posts := [WebAuthnFailure(requestId, m.brokerId, m.assertionId, "WebAuthn challenge " + e)];
          case Ok(challenge) =>
            if |challenge| != 32 {
              posts := [WebAuthnFailure(requestId, m.brokerId, m.assertionId, INVALID_CHALLENGE)];
            } else {
              perform := Some((m.assertionId, m.credentialId, challenge));
            }
        }
        return;
      }
      if m.Success? {
        result := Some(Handled(m.outcome));
      } else if m.Failure? {
        result := Some(Rejected(m.error));
      }
    }

    /** The discovery timer is cleared when a broker is selected. */
    method OnDiscoveryTimeout()
      requires result.None? && selectedBrokerId.None?
      modifies this
      ensures View() == old(View()).(result := Some(NotHandled(old(conflictingCredentialIds))))
    {
      result := Some(NotHandled(conflictingCredentialIds));
    }

    /** The completion timer runs from the selection of a broker to the first result. */
    method OnCompletionTimeout()
      requires result.None? && selectedBrokerId.Some?
      modifies this
      ensures View() == old(View()).(result := Some(Rejected(TIMED_OUT)))
    {
      result := Some(Rejected(TIMED_OUT));
    }
  }
}
