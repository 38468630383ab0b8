/** What the authorization page does after it tried an open wallet session. */
module AuthorizeFlow {
  import opened Wrappers
  import opened Numerals
  import opened SessionMessages
  import opened SessionBroker
  import opened SessionProtocol

  const AUTH_NOTE_MISSING := "PASSKEY_ACCOUNT_AUTH_NOTE_MISSING"

  predicate OccursAt(text: string, part: string, i: int) {
    0 <= i <= |text| - |part| && text[i..i + |part|] == part
  }

  /** `text.includes(part)` */
  ghost predicate Includes(text: string, part: string) {
    exists i :: OccursAt(text, part, i)
  }

  datatype Next = Complete(outcome: LoginOutcome) | LoginHere | Fail(error: string)

  const OPENING := '\U{201C}'
  const CLOSING := '\U{201D}'
  const CONFLICT_START := "The selected wallet is not the wallet "
  const CONFLICT_TEXT := CONFLICT_START + "currently open in the management tab. Open "
  const CONFLICT_ADVICE := " in management, then retry Login with Magna."

  /** The error for a chosen wallet that is not the open one; it quotes the wallet's display name. */
  function ConflictError(displayName: string): string {
    (CONFLICT_TEXT + [OPENING]) + displayName + ([CLOSING] + CONFLICT_ADVICE)
  }

  /** `completion` is the error that completing a handled login threw, if it threw one. */
  ghost function AfterBroker(result: LoginResult, displayName: string, completion: Option<string>): Next {
    match result
    case Handled(outcome) => if completion.None? then Complete(outcome) else OnError(completion.value)
    case NotHandled(conflicts) => if conflicts == {} then LoginHere else OnError(ConflictError(displayName))
    case Rejected(error) => OnError(error)
  }

  ghost function OnError(error: string): Next {
    if Includes(error, AUTH_NOTE_MISSING) then LoginHere else Fail(error)
  }

  /** The code has an underscore, so a text that includes it has one too. */
  lemma CodeHasUnderscore(text: string)
    ensures Includes(text, AUTH_NOTE_MISSING) ==> '_' in text
  {
    if Includes(text, AUTH_NOTE_MISSING) {
      var i :| OccursAt(text, AUTH_NOTE_MISSING, i);
      assert text[i + 7] == text[i..i + |AUTH_NOTE_MISSING|][7] == AUTH_NOTE_MISSING[7];
    }
  }

  lemma QuotesNotInCode()
    ensures OPENING !in AUTH_NOTE_MISSING && CLOSING !in AUTH_NOTE_MISSING
  {
  }

  lemma ConflictTextHasNoUnderscore()
    ensures '_' !in CONFLICT_TEXT
  {
  }

  lemma ConflictAdviceHasNoUnderscore()
    ensures '_' !in CONFLICT_ADVICE
  {
  }

  /** Between two characters that are not in it, a code occurs only inside, if a mark of it occurs nowhere else. */
  lemma OccursInside(before: string, name: string, after: string, code: string, mark: nat, i: int)
    requires before != "" && before[|before| - 1] !in code && after != "" && after[0] !in code
    requires mark < |code| && code[mark] !in before && code[mark] !in after
    requires OccursAt(before + name + after, code, i)
    ensures OccursAt(name, code, i - |before|)
  {
    var text, n := before + name + after, |code|;
    forall j | i <= j < i + n ensures text[j] == code[j - i] && text[j] in code {
      assert text[i..i + n][j - i] == text[j];
    }
    var opening, closing := |before| - 1, |before| + |name|;
    assert text[opening] == before[opening] && text[closing] == after[0];
    assert text[i + mark] == code[mark];
    assert name[i - |before|..i - |before| + n] == text[i..i + n];
  }

  lemma CodeStaysIncluded(before: string, name: string, after: string)
    requires Includes(name, AUTH_NOTE_MISSING)
    ensures Includes(before + name + after, AUTH_NOTE_MISSING)
  {
    var i :| OccursAt(name, AUTH_NOTE_MISSING, i);
    var text := before + name + after;
    assert text[|before| + i..|before| + i + |AUTH_NOTE_MISSING|] == name[i..i + |AUTH_NOTE_MISSING|];
    assert OccursAt(text, AUTH_NOTE_MISSING, |before| + i);
  }

  /** A conflict with another open wallet stops the page, unless the chosen wallet's own name contains the code. */
  lemma ConflictStopsUnlessNamedSo(conflicts: set<string>, displayName: string, completion: Option<string>)
    requires conflicts != {}
    ensures AfterBroker(NotHandled(conflicts), displayName, completion) == LoginHere <==> Includes(displayName, AUTH_NOTE_MISSING)
  {
    ConflictTextHasNoUnderscore();
    ConflictAdviceHasNoUnderscore();
    QuotesNotInCode();
    assert |AUTH_NOTE_MISSING| > 7 && AUTH_NOTE_MISSING[7] == '_';
    hide CONFLICT_TEXT, CONFLICT_ADVICE, AUTH_NOTE_MISSING;
    var before, after := CONFLICT_TEXT + [OPENING], [CLOSING] + CONFLICT_ADVICE;
    assert before[|before| - 1] == OPENING && '_' !in before && after[0] == CLOSING && '_' !in after;
    if Includes(ConflictError(displayName), AUTH_NOTE_MISSING) {
      var i :| OccursAt(ConflictError(displayName), AUTH_NOTE_MISSING, i);
      OccursInside(before, displayName, after, AUTH_NOTE_MISSING, 7, i);
    }
    if Includes(displayName, AUTH_NOTE_MISSING) { CodeStaysIncluded(before, displayName, after); }
  }

  /** When the page logs in itself, for every way the broker and the completion can end; else it completes or fails with what happened. */
  lemma LogsInHereExactly(result: LoginResult, displayName: string, completion: Option<string>)
    ensures AfterBroker(result, displayName, completion) == LoginHere <==>
              match result
              case Handled(_) => completion.Some? && Includes(completion.value, AUTH_NOTE_MISSING)
              case NotHandled(conflicts) => conflicts == {} || Includes(displayName, AUTH_NOTE_MISSING)
              case Rejected(error) => Includes(error, AUTH_NOTE_MISSING)
    ensures match AfterBroker(result, displayName, completion)
            case LoginHere => true
            case Complete(outcome) => result == Handled(outcome) && completion.None?
            case Fail(error) => !Includes(error, AUTH_NOTE_MISSING)
                                && (result.Handled? ==> completion == Some(error)) && (result.Rejected? ==> result.error == error)
                                && (result.NotHandled? ==> error == ConflictError(displayName))
  {
    hide Includes, ConflictError;
    if result.NotHandled? && result.conflictingCredentialIds != {} {
      ConflictStopsUnlessNamedSo(result.conflictingCredentialIds, displayName, completion);
    }
  }

  lemma CodeIncludesItself()
    ensures Includes(AUTH_NOTE_MISSING, AUTH_NOTE_MISSING)
  {
    assert AUTH_NOTE_MISSING[0..|AUTH_NOTE_MISSING|] == AUTH_NOTE_MISSING;
    assert OccursAt(AUTH_NOTE_MISSING, AUTH_NOTE_MISSING, 0);
  }

  /** A wallet named like the code is opened here although another wallet is the open one. */
  lemma ConflictIgnoredForName(other: string)
    ensures AfterBroker(NotHandled({other}), AUTH_NOTE_MISSING, None) == LoginHere
  {
    CodeIncludesItself();
    hide Includes, ConflictError;
    assert other in {other};
    ConflictStopsUnlessNamedSo({other}, AUTH_NOTE_MISSING, None);
  }

  const URL_ERROR_START := "URL constructor: "
  const URL_ERROR_END := " is not a valid URL."

  /** A login that was handled is run again when completing it throws a text that quotes the code, as of a malformed redirect URI. */
  lemma HandledLoginRepeated(outcome: LoginOutcome, displayName: string)
    ensures AfterBroker(Handled(outcome), displayName, Some(URL_ERROR_START + AUTH_NOTE_MISSING + URL_ERROR_END)) == LoginHere
  {
    CodeIncludesItself();
    CodeStaysIncluded(URL_ERROR_START, AUTH_NOTE_MISSING, URL_ERROR_END);
    hide Includes;
  }

  const NO_AUTHORIZATION := "Aztec login did not produce a " + "chain-bound session authorization."
  const NO_WINDOW := "The requesting dApp " + "window is no longer available."
  const NO_REDIRECT := "redirectUri is required " + "for redirectCode responseMode"
  const WRONG_REDIRECT := "redirectUri origin is not " + "registered for this dApp"
  const CODE_FAILED := "failed to create Magna session code: "
  const CODE_MISSING := "session code response is missing code"

  /** The texts that the page itself throws while it completes a handled login. */
  ghost predicate OwnCompletionError(text: string) {
    || text in {NO_AUTHORIZATION, NO_WINDOW, NO_REDIRECT, WRONG_REDIRECT, CODE_MISSING}
    || exists status: nat :: text == CODE_FAILED + Decimal(status)
  }

  lemma AuthorizationErrorHasNoUnderscore()
    ensures '_' !in NO_AUTHORIZATION
  {
  }

  lemma WindowErrorHasNoUnderscore()
    ensures '_' !in NO_WINDOW
  {
  }

  lemma MissingRedirectHasNoUnderscore()
    ensures '_' !in NO_REDIRECT
  {
  }

  lemma WrongRedirectHasNoUnderscore()
    ensures '_' !in WRONG_REDIRECT
  {
  }

  lemma CodeErrorsHaveNoUnderscore()
    ensures '_' !in CODE_FAILED && '_' !in CODE_MISSING
  {
  }

  /** After a handled login that completes or fails with one of the page's own texts, the page never logs in itself. */
  lemma HandledOnceForOwnErrors(outcome: LoginOutcome, displayName: string, completion: Option<string>)
    requires completion.Some? ==> OwnCompletionError(completion.value)
    ensures AfterBroker(Handled(outcome), displayName, completion) != LoginHere
  {
    AuthorizationErrorHasNoUnderscore();
    WindowErrorHasNoUnderscore();
    MissingRedirectHasNoUnderscore();
    WrongRedirectHasNoUnderscore();
    CodeErrorsHaveNoUnderscore();
    hide NO_AUTHORIZATION, NO_WINDOW, NO_REDIRECT, WRONG_REDIRECT, CODE_FAILED, CODE_MISSING, Includes, Decimal;
    if completion.Some? {
      var text := completion.value;
      CodeHasUnderscore(text);
      if text !in {NO_AUTHORIZATION, NO_WINDOW, NO_REDIRECT, WRONG_REDIRECT, CODE_MISSING} {
        var status: nat :| text == CODE_FAILED + Decimal(status);
        DecimalParses(status);
        assert forall c :: c in Decimal(status) ==> IsDigit(c);
      }
    }
  }

  lemma BusyHasNoUnderscore()
    ensures '_' !in BUSY
  {
  }

  lemma TimedOutHasNoUnderscore()
    ensures '_' !in TIMED_OUT
  {
  }

  /**
    The page's own login never overlaps a brokered one: when it starts, and ever after, no handler runs
    for the request. After a rejection it starts only because the handler itself threw the auth-note code,
    and after a handled login it repeats one that the handler had finished.
   */
  lemma LoginsNeverOverlap(events: seq<Event>, more: seq<Event>, r: Id, displayName: string, completion: Option<string>)
    requires var s := Run(events); r in s.popups && s.popups[r].result.Some?
    requires AfterBroker(Run(events).popups[r].result.value, displayName, completion) == LoginHere
    ensures var s := Run(events + more); !(r in s.executions && s.executions[r].status.Running?)
    ensures var s := Run(events + more); var result := Run(events).popups[r].result.value;
            && (result.NotHandled? ==> r !in s.executions)
            && (result.Rejected? ==> r in s.executions && s.executions[r].status == Ended(Threw(result.error)))
            && (result.Handled? ==> r in s.executions && s.executions[r].status == Ended(Returned(result.outcome)))
  {
    hide Includes, BUSY, TIMED_OUT, CONFLICT_TEXT, CONFLICT_ADVICE;
    ResultFinal(events, more, r);
    EveryRun(events + more);
    BusyHasNoUnderscore();
    TimedOutHasNoUnderscore();
    CodeHasUnderscore(BUSY);
    CodeHasUnderscore(TIMED_OUT);
    hide Run, Heard, Includes;
    var s := Run(events + more);
    assert Outcome(s, r, s.popups[r].result.value);
    if r in s.executions {
      var x := s.executions[r];
      assert s.log[x.at].Execute?;
    }
  }
}
