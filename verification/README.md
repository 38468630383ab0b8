# Magna: verified model of the wallet, login and recovery protocols

Magna lets a dApp ask a passkey wallet to prove facts about a passport or an Instagram handle. This
project models the stateful protocols and exact encodings of its TypeScript packages and proves what
they promise for all inputs, all runs and all interleavings. `dafny verify dfyconfig.toml` checks
everything.

| files | what they model |
|---|---|
| `Wrappers`, `Numerals` | thrown errors as results, decimal and hexadecimal texts |
| `Ledger` | the Aztec chain: blocks with a time and nullifiers, only ever appended, also between and during any two reads of a node |
| `CredentialStatus`, `RootLocator` | the three status readers and the search for live roots |
| `SponsorAllowance`, `SponsorClients`, `Preflight` | five sponsored slots per credential and day: one wallet's selection and retry, many wallets together, and the preflight of a login with several requirements |
| `SessionMessages`, `SessionBroker`, `SessionProtocol`, `SessionProgress`, `AuthorizeFlow` | logging in through an open management tab: codecs, the two ends as classes, any number of both over a lossy, reordering channel, what can always be completed, and the popup's fallback |
| `Policies`, `SessionBinding`, `WireAgreement` | normalized policies, the preimage that binds a login to its request, the dApp's check of the response, and why dApp and wallet compute the same requirements |
| `Calendar`, `PassportExpiry`, `Disclosure` | time values of ECMA-262 section 21.4.1, the MRZ expiry, and the MRZ disclosures of ICAO Doc 9303 |
| `Storage`, `Recovery` | local storage with its witness sidecars, and crash-safe recovery finalization |
| `ClockPacing`, `ArtifactScan` | debug-warp pacing on a local network, and the guards against private artifacts |

## How the model stands to the code

* Code that changes things step by step is a class or a method with loops, proved equal to a function of
  the old state; what the code promises is then proved about that function. Protocols are transition
  systems whose steps are these same functions, and the results hold after every sequence of steps.
* A node, a local network and a proof's sending are classes whose methods promise only what the real ones
  do: the chain may have grown, time may have passed, a send may have failed. Callers see these contracts
  and never the bodies, which are one possible behaviour.
* Poseidon hashes are injective constructors with a domain separator. The Pedersen hash, text encoding,
  address parsing and the node's receipts are parameters.
* Thrown errors are results. The texts of errors are shortened where nothing depends on them.

## What the proofs found

* `expiryMrz` refuses the last second of a day in the years 0 to 99, which `Date.UTC` reads as 1900 to
  1999; `AcceptedExactly` gives the exact condition and `YearFiftyRefused` an instance. Callers pass
  unsigned values, for which it holds without exception.
* After a conflict with another open wallet, the authorization page stops, unless the chosen wallet's own
  display name contains the auth-note code: the error quotes the name and is then searched for the code
  (`ConflictStopsUnlessNamedSo`, with the instance `ConflictIgnoredForName`).
* A login that the open wallet already handled is run a second time when completing it throws a text that
  contains the auth-note code, since it is completed inside the same `try`. The page's own messages never
  contain the code (`HandledOnceForOwnErrors`), but a runtime's message may, as one that quotes a malformed
  redirect URI (`HandledLoginRepeated`). `LogsInHereExactly` gives the exact condition for every ending.

## Model

| member | source | states |
|---|---|---|
| SessionMessages.HexRoundTrip | apps/magna-management/src/lib/wallet-session-broker.ts:65-75 | every byte string except the empty one survives its hexadecimal text unchanged |
| SessionMessages.HexToBytesIff | apps/magna-management/src/lib/wallet-session-broker.ts:69-75 | a text decodes to given bytes exactly when it is their hexadecimal, in either case, with or without 0x, and they are not empty |
| SessionMessages.AssertionRoundTrip | apps/magna-management/src/lib/wallet-session-broker.ts:77-93 | an assertion comes back unchanged exactly when it has a 64-byte signature and no empty part; any other is refused |
| SessionBroker.WalletBroker.OnMessage | apps/magna-management/src/lib/wallet-session-broker.ts:163-208 | new state, posts, handler start and settled assertion of a broker for every message are those of the protocol's step |
| SessionBroker.WalletBroker.OnHandlerEnd | apps/magna-management/src/lib/wallet-session-broker.ts:207-230 | the handler's outcome or error is replied unless closed, and only its own request is released |
| SessionBroker.WalletBroker.RequestWebAuthnAssertion | apps/magna-management/src/lib/wallet-session-broker.ts:139-161 | an assertion is asked only for the active request, with a credential and a 32-byte challenge; else nothing changes |
| SessionBroker.WalletBroker.OnAssertionTimeout | apps/magna-management/src/lib/wallet-session-broker.ts:147-150 | a timed-out assertion is forgotten and nothing else |
| SessionBroker.WalletBroker.Close | apps/magna-management/src/lib/wallet-session-broker.ts:233-241 | closing rejects every pending assertion |
| SessionBroker.LoginPopup.OnMessage | apps/magna-management/src/lib/wallet-session-broker.ts:278-343 | new state, posts and passkey ceremony of a popup, with its credential and challenge, are those of the protocol's step for every message |
| SessionBroker.LoginPopup.OnDiscoveryTimeout | apps/magna-management/src/lib/wallet-session-broker.ts:273-276 | without a selected broker the popup reports the other wallets it heard |
| SessionBroker.LoginPopup.OnCompletionTimeout | apps/magna-management/src/lib/wallet-session-broker.ts:289-292 | with a selected broker the popup rejects |
| SessionProtocol.EveryRun | apps/magna-management/src/lib/wallet-session-broker.ts:117-347 | the eight protocol invariants hold after every sequence of events of any number of tabs and popups |
| SessionProtocol.StartsAtMostOnce | apps/magna-management/src/lib/wallet-session-broker.ts:194-208 | in every run each popup request starts the login handler at most once over all brokers |
| SessionProtocol.HandledTruthfully | apps/magna-management/src/lib/wallet-session-broker.ts:278-344 | a popup resolves handled only with what the handler returned for its own input, on a broker advertising the chosen wallet |
| SessionProtocol.ResultFinal | apps/magna-management/src/lib/wallet-session-broker.ts:267-272 | no later event changes a popup's result |
| SessionProtocol.NotHandledMeansNeverExecuted | apps/magna-management/src/lib/wallet-session-broker.ts:263-300 | not handled means no execute message for it exists, then or later, and lists exactly the other wallets it heard |
| SessionProtocol.OneHandlerPerBroker | apps/magna-management/src/lib/wallet-session-broker.ts:194-231 | a broker never runs two handlers at once |
| SessionProtocol.OneTerminalReply | apps/magna-management/src/lib/wallet-session-broker.ts:194-231 | a request gets at most one success or failure message |
| SessionProtocol.AnsweredOnce | apps/magna-management/src/lib/wallet-session-broker.ts:194-231 | while the broker is open, a request turned away or finished has exactly one terminal reply, with the handler's own outcome or error |
| SessionProtocol.AssertionsStayWithTheirRequest | apps/magna-management/src/lib/wallet-session-broker.ts:163-184 | an assertion is fulfilled only with what the popup of the asking request signed in the ceremony asked for |
| SessionProtocol.SignsWhatWasAsked | apps/magna-management/src/lib/wallet-session-broker.ts:139-161 | in every run a popup's passkey signs only the 32-byte challenge that the handler of its own broker asked for, with that broker's passkey |
| SessionProgress.AskedIsPerformed | apps/magna-management/src/lib/wallet-session-broker.ts:139-326 | a challenge asked for reaches the popup's passkey unchanged, through its hexadecimal |
| SessionProgress.AnswerArrives | apps/magna-management/src/lib/wallet-session-broker.ts:163-184 | what the passkey answers settles its own assertion and nothing else |
| SessionProgress.LoginCanComplete | apps/magna-management/src/lib/wallet-session-broker.ts:117-347 | from every reachable state a new popup can log in through any open, idle broker of its wallet, with an assertion, for any input and outcome |
| SessionProgress.ReplyConcludes | apps/magna-management/src/lib/wallet-session-broker.ts:339-344 | a reply that reaches its waiting popup ends the wait with the handler's own outcome or error |
| SessionProgress.ClosedEndsIgnore | apps/magna-management/src/lib/wallet-session-broker.ts:163-165 | a closed broker and a popup with a result ignore every message |
| SessionProgress.ClosedBrokerIsSilent | apps/magna-management/src/lib/wallet-session-broker.ts:207-241 | after a broker closed, nothing from it is ever on the channel again |
| SessionProgress.FinishedPopupIsSilent | apps/magna-management/src/lib/wallet-session-broker.ts:267-272 | nor from a popup after it has its result |
| AuthorizeFlow.LogsInHereExactly | apps/magna-management/src/AuthorizePage.tsx:169-208 | for every ending of the broker and of the completion: exactly when the page logs in itself |
| AuthorizeFlow.LoginsNeverOverlap | apps/magna-management/src/AuthorizePage.tsx:169-208 | when the page logs in itself, no brokered handler runs for the request, then or later: it was never executed, or the handler threw that error, or it had finished with the outcome that was being completed |
| AuthorizeFlow.HandledLoginRepeated | apps/magna-management/src/AuthorizePage.tsx:181-194 | a handled login is repeated when completing it throws a text that quotes the code |
| AuthorizeFlow.HandledOnceForOwnErrors | apps/magna-management/src/AuthorizePage.tsx:114-150 | after a handled login, none of the page's own errors while completing it starts a second login |
| AuthorizeFlow.ConflictStopsUnlessNamedSo | apps/magna-management/src/AuthorizePage.tsx:185-194 | a conflict stops the page exactly when the chosen wallet's display name does not contain the auth-note code |
| AuthorizeFlow.ConflictIgnoredForName | apps/magna-management/src/AuthorizePage.tsx:185-194 | the exception is real: a wallet named like the code is opened although another one is open |
| Ledger.ChainGrows | packages/magna-wallet/src/browser/credential-chain-state.ts:129-144 | over any growth of the chain, nullifiers and time only increase |
| CredentialStatus.ReadAtOneBlock | packages/magna-wallet/src/browser/credential-chain-state.ts:127-144 | block and lookups pinned to one block number are those of the chain up to that block, whatever is appended meanwhile |
| CredentialStatus.KillSwitchesDiffer | packages/magna-wallet/src/browser/credential-chain-state.ts:101-134 | nullifiers agree exactly within one kind, issuer, secret and credential or root; of different kinds never |
| CredentialStatus.RootedNotesIff | packages/magna-wallet/src/browser/credential-chain-state.ts:79-99 | the reader takes the notes of one rooted credential and no other combination |
| CredentialStatus.InstagramNotesIff | packages/magna-wallet/src/browser/credential-chain-state.ts:235-262 | the same for independent and linked Instagram credentials |
| CredentialStatus.RootActiveIff | packages/magna-wallet/src/browser/credential-chain-state.ts:213-232 | a root is active exactly while neither of its nullifiers is on chain, else inactive |
| CredentialStatus.RootedActiveIff | packages/magna-wallet/src/browser/credential-chain-state.ts:146-198 | inactive exactly when its root, its authority or it itself is revoked; else active exactly before both deadlines, and expired after one |
| CredentialStatus.InstagramActiveIff | packages/magna-wallet/src/browser/credential-chain-state.ts:263-275 | inactive exactly when it is itself revoked, or linked to a dead root or to another root secret; else active exactly before its expiry |
| CredentialStatus.RootedReasonIsTrue | packages/magna-wallet/src/browser/credential-chain-state.ts:146-198 | the reason given names a kill switch that is on chain, or a deadline that passed |
| CredentialStatus.InstagramReasonIsTrue | packages/magna-wallet/src/browser/credential-chain-state.ts:271-275 | the same for Instagram credentials, with the version mismatch |
| CredentialStatus.ReadRooted | packages/magna-wallet/src/browser/credential-chain-state.ts:63-199 | whatever is appended between its reads, the result is the status of the chain up to the named block; it throws exactly on mismatched notes while blocks are served |
| CredentialStatus.ReadRootStatus | packages/magna-wallet/src/browser/credential-chain-state.ts:213-232 | the same for the root's own status |
| CredentialStatus.ReadInstagram | packages/magna-wallet/src/browser/credential-chain-state.ts:235-276 | the same for independent and linked Instagram credentials |
| CredentialStatus.RootNeverImproves | packages/magna-wallet/src/browser/credential-chain-state.ts:227-231 | for any growth of the chain the reason only gives way to one of higher priority; inactive stays inactive |
| CredentialStatus.RootedNeverImproves | packages/magna-wallet/src/browser/credential-chain-state.ts:146-198 | the same for rooted passports; expired is never active again |
| CredentialStatus.InstagramNeverImproves | packages/magna-wallet/src/browser/credential-chain-state.ts:271-275 | the same for Instagram credentials |
| CredentialStatus.RevocationIsFinal | packages/magna-wallet/src/browser/credential-chain-state.ts:146-276 | once a credential's own nullifier is on chain, or its authority's, it reads inactive on every extension |
| CredentialStatus.ReadersAgreeOnTheRoot | packages/magna-wallet/src/browser/credential-chain-state.ts:146-276 | on one chain both rooted readers report the root's own reason when it is dead and never otherwise, so active implies an active root |
| CredentialStatus.LineageKill | packages/magna-wallet/src/browser/credential-chain-state.ts:105-156 | once either nullifier of a root is on chain no credential under its secret is active again |
| CredentialStatus.IndependentOfRoots | packages/magna-wallet/src/browser/credential-chain-state.ts:235-276 | no root or authority nullifier changes the reading of an independent Instagram credential |
| CredentialStatus.LinkedToOneRootSecret | packages/magna-wallet/src/browser/credential-chain-state.ts:208-276 | a linked status derived from one root secret is never active against another |
| RootLocator.CandidateRoots | apps/magna-management/src/lib/credential-lifecycle.ts:28-28 | the roots of rooted passports, each once |
| RootLocator.FindLivePassportRoots | apps/magna-management/src/lib/credential-lifecycle.ts:27-39 | under concurrent spends and for whatever note each fetch gives: every listed root was live under its note when the search began, and every root live under its note at the end is listed |
| SponsorAllowance.SlotNullifierInjective | packages/magna-wallet/src/browser/sponsor-allowance.ts:58-62 | credentials, windows and slots never share a nullifier |
| SponsorAllowance.StatusFieldsIff | packages/magna-wallet/src/browser/sponsor-allowance.ts:46-55 | a status note is taken exactly when it is of the selected credential's type and claims |
| SponsorAllowance.SelectMeans | packages/magna-wallet/src/browser/sponsor-allowance.ts:76-84 | granted exactly when enough slots are free, with the least; refused it says whether any is left; both with the second the window ends |
| SponsorAllowance.SponsorWallet.GetAnchorTimestamp | packages/magna-wallet/src/browser/consumer-login.ts:225-238 | the synced anchor may lag the tip but never goes back |
| SponsorAllowance.SponsorWallet.ReadWindow | packages/magna-wallet/src/browser/sponsor-allowance.ts:71-76 | the window is that of the proof's anchor, or without a PXE of the block to look at, which does not precede the anchor |
| SponsorAllowance.SponsorWallet.ReadSlots | packages/magna-wallet/src/browser/sponsor-allowance.ts:78-81 | from five lookups at one block: the least free slot and the number of free slots |
| SponsorAllowance.SponsorWallet.SelectUnusedSlot | packages/magna-wallet/src/browser/sponsor-allowance.ts:65-84 | the selection is the one that a single chain snapshot during the call calls for, no earlier than the anchor, in a window between the oldest proof time and the tip |
| SponsorAllowance.SelectedIsLeast | packages/magna-wallet/src/browser/sponsor-allowance.ts:80-83 | a selection of one slot always has a free slot to give |
| SponsorAllowance.ExhaustedIsUsedUp | packages/magna-wallet/src/browser/sponsor-allowance.ts:80-82 | exhaustion of one slot means all five are spent, now and later |
| SponsorAllowance.SponsorWallet.CollisionConfirmed | packages/magna-wallet/src/browser/sponsor-allowance.ts:104-118 | a collision counts only if the reported nullifier is this credential's slot, selected or under a window reached meanwhile, and is on chain |
| SponsorAllowance.SponsorWallet.TrySlot | packages/magna-wallet/src/browser/sponsor-allowance.ts:100-119 | a landed send is delivered, a collision on chain is retried with nothing spent, and any other failure is returned |
| SponsorAllowance.SponsorWallet.SendWithAvailableSlot | packages/magna-wallet/src/browser/sponsor-allowance.ts:91-123 | under any concurrent spends: at most five sends, each with the least free slot of a moment, all but the last confirmed collisions; at most one spend, of the last slot; refusal only for a used-up day; within one day the slots strictly increase and the last collision is never thrown |
| SponsorAllowance.ClimbOn | packages/magna-wallet/src/browser/sponsor-allowance.ts:91-102 | in one window the next slot lies above every slot that collided |
| SponsorAllowance.TopReached | packages/magna-wallet/src/browser/sponsor-allowance.ts:96-99 | after five collisions in one window no slot is free |
| SponsorAllowance.SixthRound | packages/magna-wallet/src/browser/sponsor-allowance.ts:96-99 | a free slot in the sixth round means that the window has changed, so else only exhaustion is thrown |
| SponsorClients.EveryRun | packages/magna-wallet/src/browser/sponsor-allowance.ts:65-102 | for any number of wallets and any interleaving, the logins of a credential in a window land at slots 0, 1, 2, ..., these are exactly the spent slots, and never more than five |
| SponsorClients.SelectsTheCount | packages/magna-wallet/src/browser/sponsor-allowance.ts:78-83 | at any block looked at, the selected slot equals the number already spent |
| SponsorClients.LandsNext | packages/magna-wallet/src/browser/sponsor-allowance.ts:91-102 | a login that lands takes the slot numbered by how many landed before it |
| Preflight.CheckAll | apps/magna-management/src/lib/wallet-login.ts:429-451 | the per-credential counting loop: passing means every check in turn found as many free slots as its key was seen, and refusing names a check that a chain state during the call did not satisfy |
| Preflight.SendAll | apps/magna-management/src/lib/wallet-login.ts:452-491 | the sends land in order with pairwise distinct nullifiers, a stop has its cause, and none finds its credential used up while only this login spends |
| Preflight.RunLogin | apps/magna-management/src/lib/wallet-login.ts:411-497 | a failed check means nothing was sent; and for every requirement list, if the checks pass, nobody else spends and the day does not change, every send finds a free slot |
| Preflight.SlotsDiffer | apps/magna-management/src/lib/wallet-login.ts:452-491 | two logins of one credential on one day take different slots |
| Preflight.InputIff | packages/magna-wallet/src/browser/sponsor-allowance.ts:46-55 | a requirement is checked exactly with the status note of its own credential, whose secret then decides the slots |
| Preflight.KeyIff | apps/magna-management/src/lib/wallet-login.ts:441-443 | two requirements are counted under one key exactly when credential type and claims hash agree |
| Preflight.EqualCredentialsShareAKey | packages/magna-wallet/src/browser/client.ts:974-1008 | the text counted and the value spent never part, as the text is the decimal form of the value: one credential has one key |
| Preflight.PreflightSuffices | apps/magna-management/src/lib/wallet-login.ts:441-446 | for every requirement list and chain state, checks that pass leave a slot for every requirement |
| Preflight.PreflightExactIff | apps/magna-management/src/lib/wallet-login.ts:429-451 | the checks pass exactly in the chain states with enough slots, if and only if requirements of one type and claims hash use one status note (or one is asked for more than five times, when neither ever holds) |
| Policies.PadConstraints | packages/magna-core/src/policy.ts:16-26 | the padded list keeps the given constraints and adds empty ones up to the size |
| Policies.NormalAt | packages/magna-core/src/policy.ts:5-14 | a normal form has eight constraints, those of the policy and then empty ones, and is its own normal form |
| Policies.NormalFormIff | packages/magna-core/src/policy.ts:5-26 | two policies have one normal form exactly when they constrain the same eight places alike |
| SessionBinding.FieldsWellFormed | packages/magna-core/src/session-assertion.ts:34-75 | the preimage exists exactly for well-formed requests and always has 31 fields |
| SessionBinding.FieldsAt | packages/magna-core/src/session-assertion.ts:60-75 | which value stands at each of the 31 places |
| SessionBinding.HexFieldOfBytes | packages/magna-core/src/session-assertion.ts:34-42 | a text field is the number of the bytes it shows, most significant first, and refused from the modulus on |
| SessionBinding.FieldsBindTheRequest | packages/magna-core/src/session-assertion.ts:45-75 | equal preimages mean equal gateway, request id and challenge (up to 0x), expiry, index, type and normalized constraints, and conversely |
| SessionBinding.NullifierBindsTheRequest | packages/magna-client/src/connector.ts:75-89 | equal authorization nullifiers mean the same contract and the same request, and conversely |
| SessionBinding.RandomChallengeFits | packages/magna-core/src/connector-protocol.ts:203-206 | a generated challenge always fits the field |
| SessionBinding.ValidateLoginResponse | packages/magna-client/src/connector.ts:103-146 | accepts exactly the current responses of this request, dApp and origin whose every receipt is bound; any rejection names something that is wrong, the first in order |
| SessionBinding.AcceptedLogin | packages/magna-client/src/connector.ts:103-146 | a login accepted with k requirements rests on k pairwise distinct nullifiers of mined, successful transactions, one per index |
| SessionBinding.NoReplay | packages/magna-client/src/connector.ts:75-146 | a nullifier that authorizes in two logins means the same request, expiry, index and policy |
| WireAgreement.AssertWirePolicy | packages/magna-core/src/connector-protocol.ts:91-113 | the loop accepts exactly the valid wire policies |
| WireAgreement.AssertWireLoginRequirements | packages/magna-core/src/connector-protocol.ts:130-155 | the loop with its id set accepts exactly 1 to 4 valid requirements with unique ids, or none |
| WireAgreement.PolicyRoundTrip | packages/magna-core/src/connector-protocol.ts:209-230 | a policy survives the wire unchanged exactly with at most 8 constraints, known identifiers and values from 0 below 10^78; any other is refused |
| WireAgreement.WireFormIff | packages/magna-core/src/connector-protocol.ts:91-230 | a wire policy decodes to a policy exactly when it is the canonical wire form of it |
| WireAgreement.PackingInjective | packages/magna-client/src/connector.ts:33-34 | handles of one length with one packed value are the same bytes |
| WireAgreement.HandleBinds | packages/magna-wallet/src/engine/encoding.ts:121-133 | two handles of at most 31 bytes have one preimage only if they are equal, and every part of it is a field value |
| WireAgreement.HandlePolicyAsks | packages/magna-client/src/connector.ts:30-40 | the dApp's policy has one constraint: the handle's hash equals the hash that the wallet computes |
| WireAgreement.HandlePolicyBinds | packages/magna-client/src/connector.ts:30-40 | with a collision-free hash, two handles share a policy only if equal, and a handle's policy is met by that handle alone |
| WireAgreement.InstagramHandlePolicy | packages/magna-client/src/connector.ts:30-40 | the dApp's packing loop yields the normalized policy of the shared preimage |
| WireAgreement.ComputeInstagramHandleHash | packages/magna-wallet/src/engine/encoding.ts:121-133 | the wallet's packing loop hashes the same preimage |
| WireAgreement.RequirementAgrees | apps/magna-management/src/AuthorizePage.tsx:76-91 | one requirement, sent and resolved, is taken up exactly when acceptable and then matches the dApp's |
| WireAgreement.RequestWritten | packages/magna-client/src/connector.ts:200-222 | a request can be written exactly with a policy among its requirements, policies within the limit and handles that fit; then the dApp checks, in order, what it was asked for |
| WireAgreement.BothSidesAgree | packages/magna-client/src/connector.ts:200-222 | for every requirement list the wallet takes the request up exactly when it is acceptable, and then proves in order the requirements the dApp checks |
| WireAgreement.SinglePolicyAgrees | packages/magna-client/src/connector.ts:190-198 | the same for a login with one policy |
| WireAgreement.AgreementAuthorizes | apps/magna-management/src/lib/wallet-login.ts:310-367 | matching requirements give the same authorization fields in every session |
| Calendar.DayRoundTrip | packages/magna-passport-wrapper-proof/src/inputs.ts:113-121 | every day number is rebuilt from its civil date |
| Calendar.DateRoundTrip | packages/magna-passport-wrapper-proof/src/inputs.ts:113-121 | every valid civil date is read back from its day number |
| Calendar.SuccessiveDays | packages/magna-passport-wrapper-proof/src/inputs.ts:113-121 | the date of the next day is the calendar's next date |
| PassportExpiry.AcceptedExactly | packages/magna-passport-wrapper-proof/src/inputs.ts:108-132 | accepted are exactly the last seconds of UTC days in the time range outside the years 0 to 99 |
| PassportExpiry.YearFiftyRefused | packages/magna-passport-wrapper-proof/src/inputs.ts:114-124 | the exception is real |
| PassportExpiry.AcceptedForCallers | packages/magna-recovery-wrapper-proof/src/inputs.ts:80-93 | for unsigned timestamps there is no exception |
| PassportExpiry.ShowsTheDate | packages/magna-passport-wrapper-proof/src/inputs.ts:125-131 | the six bytes are the digits of year, month and day of the day that ends |
| PassportExpiry.BytesIdentifyExpiry | packages/magna-passport-wrapper-proof/src/inputs.ts:108-132 | within a century the bytes determine the timestamp |
| PassportExpiry.MutatedExpiryDiffers | apps/magna-management/src/lib/recovery-v3.ts:450-450 | an accepted expiry plus one day is accepted again with different bytes |
| PassportExpiry.LocalExpiryAccepted | apps/magna-management/src/lib/passport-issuance.ts:138-153 | every expiry the app builds is accepted and ends the disclosed day, with the exact exceptions |
| Disclosure.Place | packages/magna-passport-wrapper-proof/src/inputs.ts:143-154 | one fill discloses the values at their place and leaves every other position |
| Disclosure.BuildDisclosure | packages/magna-passport-wrapper-proof/src/inputs.ts:134-156 | the two arrays filled in place show exactly document type, nationality and expiry |
| Disclosure.BuildRecoveryDisclosure | packages/magna-recovery-wrapper-proof/src/inputs.ts:95-111 | the second copy shows the same |
| Disclosure.ShownFields | packages/magna-passport-wrapper-proof/src/inputs.ts:134-156 | the three fields stand at their places of the 90 bytes and every other position is masked |
| Disclosure.ShownInjective | packages/magna-passport-wrapper-proof/src/inputs.ts:134-156 | a disclosure determines layout, subtype, nationality and expiry |
| Disclosure.FindDisclosure | packages/magna-passport-wrapper-proof/src/inputs.ts:276-294 | the search returns the first of the 74 candidates whose commitment the proof carries |
| Disclosure.SearchIsFirst | packages/magna-passport-wrapper-proof/src/inputs.ts:276-294 | the search gives the first candidate that is committed to, and none exactly when there is none |
| Disclosure.SearchBinds | packages/magna-passport-wrapper-proof/src/inputs.ts:276-299 | the search succeeds exactly with the authenticated nationality and expiry of a supported document, and finds that document |
| Disclosure.MutatedExpiryRejected | apps/magna-management/src/lib/recovery-v3.ts:446-450 | after a document was found, the mutated expiry finds none |
| Storage.PassportKeyIff | apps/magna-management/src/lib/storage.ts:157-168 | two credentials share a passport witness exactly when issuer, owner, mode, root and claims agree |
| Storage.InstagramKeyIff | apps/magna-management/src/lib/storage.ts:225-234 | two credentials share an Instagram witness exactly when issuer, owner and claims agree |
| Storage.CredentialKeyIff | apps/magna-management/src/lib/storage.ts:383-392 | two references are of one cached credential exactly when scope, kind, mode, claims and root agree |
| Storage.ScopeIgnores | apps/magna-management/src/lib/storage.ts:379-381 | space around a scope and letter case do not matter, and nothing else is changed |
| Storage.NormalScopeIsNormal | apps/magna-management/src/lib/storage.ts:379-381 | a normalized scope is its own normal form and has no upper case |
| Storage.SaveWitnessKeeps | apps/magna-management/src/lib/storage.ts:170-191 | saving one witness alters no other |
| Storage.NothingLost | apps/magna-management/src/lib/storage.ts:286-309 | with the claims hash determining the witness, no sequence of saves, upserts, replacements and clears loses or alters a saved witness |
| Storage.PassportWitnessReturns | apps/magna-management/src/lib/storage.ts:200-219 | a saved passport witness comes back with its credential after any operations |
| Storage.InstagramWitnessReturns | apps/magna-management/src/lib/credential-lifecycle.ts:48-59 | so does an Instagram witness, also for the reference that linking makes |
| Storage.HydrationAddsOnly | apps/magna-management/src/lib/storage.ts:200-284 | hydration changes dates, recorded hashes and the private part alone |
| Storage.HydrationRestores | apps/magna-management/src/lib/storage.ts:170-284 | what was saved comes back whole on the chain's reference |
| Storage.HydrationPrefersSaved | apps/magna-management/src/lib/storage.ts:200-219 | where the chain's reference and the saved one differ, what was saved wins |
| Storage.OnlyCompleteSaved | apps/magna-management/src/lib/storage.ts:170-265 | a reference without a complete witness saves nothing |
| Storage.UpsertKeepsOthers | apps/magna-management/src/lib/storage.ts:424-431 | the reference is stored; a known credential keeps its place, a new one goes first, and all others stay in order |
| Storage.UpsertCounts | apps/magna-management/src/lib/storage.ts:424-431 | no reference of another credential is dropped or doubled |
| Storage.ReplacementKeepsOthers | apps/magna-management/src/lib/storage.ts:419-420 | after a replacement the cache holds exactly the loaded references of other scopes, in order |
| Storage.NeverTwice | apps/magna-management/src/lib/storage.ts:297-431 | after any operations no credential is in the cache twice |
| Storage.ClearForgets | apps/magna-management/src/lib/storage.ts:304-309 | what is left after clearing depends on the sidecars alone |
| Storage.PendingReturns | apps/magna-management/src/lib/storage.ts:335-361 | a saved record loads back exactly when its target has a public key, and a cleared one never |
| Storage.ReplacementIsTheChain | apps/magna-management/src/lib/storage.ts:411-418 | a replacement returns exactly the chain's keys without duplicates, under each the last chain reference with its witness |
| Storage.MapSetKeys | apps/magna-management/src/lib/storage.ts:411-416 | setting a key keeps the insertion order of the keys |
| Storage.OutsideInOrder | apps/magna-management/src/lib/storage.ts:419-420 | all references of other scopes stay, in order |
| Storage.LinkingKeepsSiblings | apps/magna-management/src/lib/credential-lifecycle.ts:62-68 | linking replaces the converted reference by the linked one, once, and drops no other |
| Storage.LinkingConverts | apps/magna-management/src/lib/credential-lifecycle.ts:48-68 | the linked reference is rooted, shares the witness of its source and takes its place |
| Storage.WalletStorage.SaveCredentialPrivateWitness | apps/magna-management/src/lib/storage.ts:286-289 | the sidecars after one save |
| Storage.WalletStorage.LoadCredentialRefs | apps/magna-management/src/lib/storage.ts:291-295 | every cached reference comes hydrated |
| Storage.WalletStorage.SaveCredentialRefs | apps/magna-management/src/lib/storage.ts:297-302 | the witnesses are saved in order, then the cache |
| Storage.WalletStorage.ReplaceCredentialRefsForOwnerFromChain | apps/magna-management/src/lib/storage.ts:406-422 | throws exactly for a reference out of scope, and then changes nothing; else returns the canonical snapshot |
| Storage.WalletStorage.UpsertCredentialRef | apps/magna-management/src/lib/storage.ts:424-431 | the cache after an upsert, as UpsertKeepsOthers describes it, with all witnesses saved |
| Storage.WalletStorage.ClearStoredWalletState | apps/magna-management/src/lib/storage.ts:304-309 | clears the wallet's state but not the sidecars |
| Storage.WalletStorage.SaveRecoveryTargetProfile | apps/magna-management/src/lib/storage.ts:328-333 | a target without a passkey public key is refused and nothing changes |
| Storage.WalletStorage.SavePendingFinalization | apps/magna-management/src/lib/storage.ts:355-357 | the record is stored and nothing else changes |
| Storage.WalletStorage.LoadPendingFinalization | apps/magna-management/src/lib/storage.ts:335-353 | a record without a target public key does not load |
| Storage.WalletStorage.ClearPendingFinalization | apps/magna-management/src/lib/storage.ts:359-361 | the record is removed and nothing else changes |
| Recovery.CrashSafe | apps/magna-management/src/App.tsx:2107-2190 | after any throws, crashes and resumes the record loads back, or the destination was read active and the witness is in the sidecar |
| Recovery.RecoveredHasWitness | apps/magna-management/src/App.tsx:2125-2165 | once the recovery is on chain, its witness is in the record or in the sidecar |
| Recovery.CanFinish | apps/magna-management/src/App.tsx:1792-1831 | after any crash one undisturbed resume, which the page allows, finishes a recovery that is on chain, with the references the chain holds for the working owner; the credential is then cached as active, with its witness and hash |
| Recovery.NextKeeps | apps/magna-management/src/App.tsx:1752-1790 | every single step, failure and foreign storage operation keeps the invariant |
| Recovery.RecoveryPage.Submit | apps/magna-management/src/App.tsx:2107-2166 | the record is saved before sending and again when mined, as a run of the protocol; it loads back, with the transaction's hash once mined |
| Recovery.RecoveryPage.StartRootRecovery | apps/magna-management/src/App.tsx:2107-2190 | a whole first attempt is a run, and says exactly when it finishes |
| Recovery.RecoveryPage.ReadAndComplete | apps/magna-management/src/App.tsx:1783-1831 | finalization starts only after the destination's notes were found and read active |
| Recovery.RecoveryPage.CompleteFinalization | apps/magna-management/src/App.tsx:1752-1790 | witness first, then refresh, reference and last the record, as a run of the protocol; then the cache holds the credential as active with the recovery's hash |
| Recovery.RecoveryPage.ResumeRecovery | apps/magna-management/src/App.tsx:1792-1831 | a resume goes on with the record in memory or storage, and says exactly when it finishes |
| ClockPacing.WaitIsLeast | apps/magna-management/src/lib/recovery-v3.ts:197-204 | the wait is the least one after which L1 is strictly behind the host |
| ClockPacing.WarpTo | apps/magna-management/src/lib/recovery-v3.ts:266-269 | one warp to a time the host has reached keeps drift within one slot or what it was, and reports an L2 block only if one was made |
| ClockPacing.AdvanceClockPacedCheckpoint | apps/magna-management/src/lib/recovery-v3.ts:252-278 | ends by the deadline; every warp targets host time with L1 seen strictly behind; drift stays within one slot or what it was; it refuses exactly when it read a drift of the danger bound |
| ClockPacing.WaitLocally | apps/magna-management/src/lib/recovery-v3.ts:279-293 | the same over all attempts, with the reported count of checkpoints backed by warps, and no answer after the deadline |
| ClockPacing.WaitByPolling | apps/magna-management/src/lib/recovery-v3.ts:294-306 | without debug advancement nothing is warped |
| ClockPacing.WaitForInboxMessage | apps/magna-management/src/lib/recovery-v3.ts:206-312 | ends by attempts or deadline, succeeds only for the expected leaf, refuses other chains, and in a healthy network never finds itself too far ahead |
| ArtifactScan.CleanMeansNoneOccurs | apps/magna-verification-api/src/service.ts:683-699 | the recursive predicate is exactly that no forbidden key occurs at any depth |
| ArtifactScan.AssertNoPrivateArtifacts | apps/magna-management/src/lib/passport-issuance.ts:264-280 | the worklist scan ends for every finite value, accepts exactly the clean ones, and names a forbidden key that occurs |
| ArtifactScan.ServerAcceptsLess | apps/magna-verification-api/src/service.ts:661-681 | whatever the service accepts the client accepts; they differ exactly by the revocation secrets |

## Left out

* React rendering, routing, notices, passkey ceremonies and session codes: they hold no protocol state
  beyond what is modelled.
* Proof generation and verification, registry lookups, DKIM and e-mail: foreign calls.
* The Noir contracts: only that the chain refuses a duplicate nullifier and that nullifiers only grow.
* RPC failures of the node during status reads, slot lookups and collision checks: they end the call with
  an error and change nothing. A block that the node no longer serves is modelled.
* Decoding of note fields (numbers, texts, objects) and other `typeof` checks of untyped JSON values: the
  model starts from typed values.
* Corrupted local storage, the chain-fingerprint reset and a second recovery attempt over an unfinished
  record.
- Numerals: texts are ASCII; Unicode encoding, trimming and case folding beyond ASCII are not modelled.
- SponsorClients.EveryRun: assumes, as the code's comment does, that a send lands in the window it was selected for; a send that crosses midnight is covered for one wallet by SendWithAvailableSlot.
- Preflight.RunLogin: the status notes fetched again at the send are taken to be those of the check, and credential resolution before the checks is not modelled.
- SessionBinding.ValidateLoginResponse: models the default chain verifier, not one that the dApp supplies.
- WireAgreement.BothSidesAgree: says nothing about whether the wallet finds an active credential, which depends on chain and storage.
- Storage.NothingLost: assumes that a claims hash contains no colon, as its decimal text does.
- Storage.NeverTwice: a list that a caller saves whole is taken to hold no credential twice.
- Recovery.CrashSafe: covers one attempt; the refresh of other references enters as any chain snapshot.
- Recovery.RecoveryPage.ResumeRecovery: takes it that the destination reads as active only once the recovery is on chain, as its notes exist only then.
- ClockPacing.WaitForInboxMessage: assumes a host clock that does not go back, and that others stamp L1 blocks no later than host time.
- SessionProtocol.EveryRun: message and assertion identifiers are taken to be unique, as random ones are.
* The public-input binding and time bounds of the verification service, the mutation list beyond the
  expiry, freshness messages and Fee Juice: straight-line checks and foreign calls.
