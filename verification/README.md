# A model of the credential daemon and its clients

This project models four components of the repository in Dafny and proves properties of them for
every input, every interleaving and every run.

**The credential ceremony** (Rust daemon). `Authenticator` holds the messages and the retry loop
around an authenticator operation. `DeviceSelection` and `CredentialSelection` are the two
choices a user makes. `AuthenticatorMachine` is the state machine behind a USB ceremony; the NFC
machine is the same one with a different way of discovering a device, so the transport is a
parameter. `MachineRules` says what each turn does, state by state,
and `MachineProperties` proves what every run of it keeps. `Hybrid` is the phone transport
with its two producers. `Service` is the credential service on values, `ServiceObjects` the
service with its shared slot, tokens and reply channels, proved to do the same. `Ceremony` puts
the service, any number of streams and the handlers behind them together; `CeremonyOrder` proves
that each stream reaches the UI in order, and `CeremonyProvenance` that responses come from the
request's own authenticators. `PinRouting` is the event loop that routes what the user enters;
`CeremonyRouting` composes it with whole ceremonies, and `CeremonySelection` follows a credential
selection from the UI to the reply. `PollRace` splits a poll into the token check
and the taking of the slot.

The central fact: `complete_request` takes whatever is in the slot without looking at an ID. For
every request ever made, holding the slot, having a live token and having no reply are one and
the same; therefore a terminal event answers the request its stream was started for, and the
caller receives that event's payload. This is so when a poll is one step. When the check and the
taking of the slot are apart, each request still gets at most one reply, but
`PollRace.AnswerReachesItsRequestIff` gives the exact condition for the reply to be its own, and
`PollRace.LateAnswerReachesNextRequest` is a run in which it is not.

**The CBOR decoder and the authenticator-data parser** (Python, two copies each). `Cbor` says what
the decoder does from a cursor position, `CborParser` is the decoder with its mutable cursor, and
`CborRoundTrip` is an encoder in the sense of RFC 8949 with the proof that the decoder inverts it
anywhere in a buffer. `CborRules` lists examples of the standard and
what the decoder makes of everything else. `CborWeight` bounds what any bytes can be read as, and
`CborTruncation` shows that a read does not depend on what follows it. `AuthenticatorData` and
`LateExtensions` cover section 6.1 and section 6.5.1 of WebAuthn Level 3.

**The secret page** (`SecretPage`): the writer and the reader of one memory-mapped page.

**Origins** (`Origin`, with decimal numbers in `Decimal`): parsing, printing, and normal forms.

What the outside world decides is a parameter: device listings, device answers and their order,
authenticator messages, UI events, cancellation, request IDs, the hash of a credential ID, and
UTF-8 decoding. A run takes an arbitrary sequence of such decisions.

Where the source's code and its intent differ, the model follows the code:

- Data with both attested data and extensions counts the header twice
  (`demo_client/webauthn.py:618` and `627`). `AuthenticatorData.BothPartsSkipBytes` says exactly
  what is read then and `DisplacedExtensionsComeBack` when that is right. Extensions in their
  proper place, of any length, are lost unless they are null or spend 37 bytes on the
  arguments of heads, nulls, breaks and whatever follows them (`LateExtensions.FrugalExtensionsComeBackIff`;
  text counts with the bytes of its characters).
- A parser object that has been used takes its next head from the first byte of the buffer again
  (`demo_client/cbor.py:25`); both programs use each parser once (`Cbor.OnlyTheFirstParseReads`).
- The demo client turns an empty credential ID into an absent one; the browser shim does not
  (`CredentialIdComesBackIff`).
- An assertion response without assertions makes the hybrid task panic; the stream then reports
  nothing (`Hybrid.TerminalState`).
- Showing the assertions to choose from panics inside the poll when one has no ID
  (`credentialsd/src/credential_service/usb.rs:644`); in `Ceremony` the update is forwarded, and
  `CredentialSelection` requires the IDs. Starting a stream while no request is current panics
  (`credentialsd/src/credential_service/mod.rs:206` and `233`); in `Ceremony` it starts nothing.
- The phone's two producers can both report a terminal state, in either order
  (`Hybrid.BothProducersCanFinish`); the service still forwards at most one per request.
- The reader of a secret page trusts the length of the file; it stays inside the page exactly
  when that length is at most a page (`SecretPage.ReaderStaysInsideIff`).

## Model

| member | source | states |
|---|---|---|
| `Authenticator.AwaitAnswer` | credentialsd/src/credential_service/usb.rs:408-460 | user errors are retried; the first other result settles the operation, with the error it is mapped to; with only user errors it never settles |
| `Authenticator.SettlingAttemptDecides` | credentialsd/src/credential_service/usb.rs:428-459 | the first attempt that is not retried decides: an answer is passed on, and each kind of failure becomes its own error |
| `Authenticator.SettlementNeverCancelled` | credentialsd/src/credential_service/usb.rs:448-459 | no authenticator result is ever mapped to a cancelled request |
| `CredentialSelection.FindsEarliest` | credentialsd/src/credential_service/usb.rs:180-210 | the lookup finds the first assertion whose hashed ID was chosen, and fails exactly when there is none; an assertion without an ID never matches |
| `CredentialSelection.SelectionInvertsPresentation` | credentialsd/src/credential_service/usb.rs:629-660 | a chosen string finds an assertion if and only if it was presented, and what it finds is presented as that string |
| `CredentialSelection.EveryEntryLeadsBackIff` | credentialsd/src/credential_service/usb.rs:176-209 | every entry leads back to the very assertion behind it if and only if different assertions have different hashes |
| `DeviceSelection.SelectDevice` | credentialsd/src/credential_service/usb.rs:81-174 | the earliest answer from an opened and touched device selects that device, and exactly the other opened devices are cancelled, each once; without one, a cancelled request cancels every opened device and is reported as cancelled, and otherwise nothing is selected or cancelled; at most one answer per device is handled |
| `DeviceSelection.CancelAll` | credentialsd/src/credential_service/usb.rs:161-164 | every remaining handle is cancelled exactly once |
| `DeviceSelection.ChosenWasTouched` | credentialsd/src/credential_service/usb.rs:138-172 | a selected device answered, was opened and was touched; none is selected exactly when no answer is such |
| `DeviceSelection.EarliestTouchIsChosen` | credentialsd/src/credential_service/usb.rs:138-172 | the selection is the earliest touched answer; if there is none it is cancelled exactly when the request is |
| `DeviceSelection.AnswersFit` | credentialsd/src/credential_service/usb.rs:85-87 | there are never more answers than devices, so the answer channel has room for all of them |
| `AuthenticatorMachine.ProcessIdleWaiting` | credentialsd/src/credential_service/usb.rs:42-79 | one round of polling: the next state or error, and the failure count after it, in all cases including cancellation while listing or sleeping; the NFC variant is nfc.rs:38-71 |
| `AuthenticatorMachine.NextState` | credentialsd/src/credential_service/usb.rs:287-322 | the dispatch over states, with device selection run as its own loop, gives the specified next state and failure count |
| `AuthenticatorMachine.Iterate` | credentialsd/src/credential_service/usb.rs:284-370 | one turn of the loop moves the specification by one step: what is sent, the new state, the counters, and how the loop goes on |
| `AuthenticatorMachine.Process` | credentialsd/src/credential_service/usb.rs:272-371 | the whole loop sends exactly what the specified run emits, spawns exactly as many operations (none in a turn whose token had fired before it began), and ends for the same reason; also nfc.rs:168-262 |
| `AuthenticatorMachine.EndedStaysEnded` | credentialsd/src/credential_service/usb.rs:324-369 | after the loop has ended, nothing more is entered or sent |
| `MachineRules.CancellationRules` | credentialsd/src/credential_service/usb.rs:324-330 | a cancelled turn sends and changes nothing and stops the loop; it has spawned an operation only from Connected and only if it had begun |
| `MachineRules.TurnRules` | credentialsd/src/credential_service/usb.rs:336-369 | any other turn stops on a cancellation, enters Failed with the error, or enters the next state; it is sent if it is news; a closed receiver, a completion and a failure end the loop |
| `MachineRules.PollingRules` | credentialsd/src/credential_service/usb.rs:47-61 | polling: no device gives Waiting, sent once; devices give exactly that selection, or for NFC a connection to the device (nfc.rs:48-53); cancellation while listing or sleeping stops |
| `MachineRules.FailedPollingRules` | credentialsd/src/credential_service/usb.rs:62-77 | the fifth failed listing ends the run with the internal error, every other one changes only the count, unless the pause after it is cancelled |
| `MachineRules.ErrorTexts` | credentialsd/src/credential_service/usb.rs:65-68 | the texts of the internal errors of both transports |
| `MachineRules.SelectingRules` | credentialsd/src/credential_service/usb.rs:138-173 | the earliest touch connects exactly the touched device; without one a cancelled selection stops and any other returns to Idle |
| `MachineRules.OperatingCounts` | credentialsd/src/credential_service/usb.rs:296-312 | while an operation runs every signal is received once; from Connected exactly one operation is spawned |
| `MachineRules.PromptRules` | credentialsd/src/credential_service/usb.rs:225-239 | each request of the authenticator enters its own state with its own payload; PIN prompts are always sent, the others when they differ from the state before; a closed channel fails the run |
| `MachineRules.FinishRules` | credentialsd/src/credential_service/usb.rs:240-264 | a registration or exactly one assertion completes; any other number of assertions is put to the user, all of them; an error fails the run with that error |
| `MachineRules.ChoiceRules` | credentialsd/src/credential_service/usb.rs:180-217 | the first assertion with the chosen hash completes; a string that belongs to none fails with the error for missing credentials, a closed channel with an internal error |
| `MachineProperties.StepKeepsSound` | credentialsd/src/credential_service/usb.rs:284-370 | every step keeps the invariant: refinement of the trace, prompts relayed, phases in order, one spawn, budget, discovery, earned completion, fresh channels |
| `MachineProperties.EveryRunIsSound` | credentialsd/src/credential_service/usb.rs:272-371 | the invariant holds after every run |
| `MachineProperties.EmissionRefinesTrace` | credentialsd/src/credential_service/usb.rs:344-362 | in every run, with the initial Idle in front and repeats dropped, the variants sent are the variants entered, and every PIN prompt received is entered and sent by itself, in order; when the run ended because its receiver was gone, the last state entered is the one not sent |
| `MachineProperties.RunMovesForward` | credentialsd/src/credential_service/usb.rs:284-370 | phases never go back; Connected is entered at most once and at most one operation is spawned; nothing follows a terminal state; a cancelled request is never entered or sent as a failure |
| `MachineProperties.DiscoveryFailureBudget` | credentialsd/src/credential_service/usb.rs:62-77 | over a whole run at most five listings fail, at most four while it runs, and the fifth ends it with the internal error |
| `MachineProperties.FailuresCountListFailures` | credentialsd/src/credential_service/usb.rs:281-294 | the counter is never reset: it is the number of failed listings of the whole run |
| `MachineProperties.ShownCredentialCompletes` | credentialsd/src/credential_service/usb.rs:176-218 | choosing any string that was shown completes with an assertion shown as that string, never with the error for missing credentials, and the completion is sent if somebody listens |
| `MachineProperties.RunDiscoversAndEarns` | credentialsd/src/credential_service/usb.rs:81-90 | a selecting state always has a device; a connection is to one of the devices listed; what completes was answered by the authenticator; no two states sent share a reply channel |
| `MachineProperties.NoChoiceIsMadeForTheUser` | credentialsd/src/credential_service/usb.rs:248-262 | over a whole run, an assertion completes it only if it was the only one answered, or the state before let the user choose and offered it |
| `MachineProperties.StepEmission` | credentialsd/src/credential_service/usb.rs:355-362 | a step sends nothing or the state it enters, never a cancellation, and any reply channel it hands out is new |
| `MachineProperties.SentCompletionsAreAnswered` | credentialsd/src/credential_service/usb.rs:240-264 | a completion that was sent carries what the authenticator answered, or one of the assertions it answered |
| `Hybrid.StepKeepsSound` | credentialsd/src/credential_service/hybrid.rs:94-191 | one step of either producer keeps the invariant and only appends, at most one state |
| `Hybrid.EveryRunIsSound` | credentialsd/src/credential_service/hybrid.rs:51-192 | the QR code comes first and once, at most one response is sent, and a cancellation is never sent |
| `Hybrid.SetupRules` | credentialsd/src/credential_service/hybrid.rs:71-90 | the QR code is announced, and a device or channel that cannot be created ends the task without a word |
| `Hybrid.UpdateRules` | credentialsd/src/credential_service/hybrid.rs:304-329 | which state each connection update sends, before and after the operation has settled |
| `Hybrid.SettlementRules` | credentialsd/src/credential_service/hybrid.rs:128-190 | how the operation ends for each kind of settling attempt: with the response, the first assertion or the error it means; a cancellation sends nothing |
| `Hybrid.RetryingGoesOn` | credentialsd/src/credential_service/hybrid.rs:133-138 | an operation that met only user errors goes on |
| `Hybrid.ResponsesWereAnswered` | credentialsd/src/credential_service/hybrid.rs:99-190 | a response is sent only if it is what the settling attempt, the first not retried, of the task's own uncancelled operation gave; of several assertions it is the first |
| `Hybrid.EndsWithItsSettlingAnswer` | credentialsd/src/credential_service/hybrid.rs:128-185 | an operation ends in a response if and only if its first attempt that is not retried gives that response |
| `Hybrid.AnsweredOnce` | credentialsd/src/credential_service/hybrid.rs:162-190 | a task is answered with at most one response, and with none before its operation has settled |
| `Hybrid.UpdatesOnlyReport` | credentialsd/src/credential_service/hybrid.rs:312-330 | connection updates add only connection states or an authenticator failure and never end the operation |
| `Hybrid.HandleUpdates` | credentialsd/src/credential_service/hybrid.rs:298-331 | the relaying loop does what the specified run of its updates does |
| `Service.InitKeepsAgreement` | credentialsd/src/credential_service/mod.rs:269-294 | a request is accepted exactly when the slot is free; the agreement of slot, token and reply is kept, and a refusal changes nothing |
| `Service.ReplyKeepsAgreement` | credentialsd/src/credential_service/mod.rs:550-554 | taking the slot, cancelling and answering keeps the agreement and touches no other request |
| `Service.CancelAnswersOnlyItsRequest` | credentialsd/src/credential_service/mod.rs:296-312 | cancelling answers the live request only if it has that ID, and nothing else changes |
| `Service.PollAnswersItsOwnRequest` | credentialsd/src/credential_service/mod.rs:434-463 | an event is let through exactly while the stream's own request is in the slot, and a terminal one answers exactly that request; the same for mod.rs:390-419 |
| `Service.PollDeliversPayload` | credentialsd/src/credential_service/mod.rs:440-459 | a current stream forwards every event unchanged; a response answers the request with that response, an error with that error, and a reported cancellation or any other event with nothing |
| `PollRace.StepKeepsConsistent` | credentialsd/src/credential_service/mod.rs:443-456 | with check and taking apart, the agreement still holds: each request gets at most one reply |
| `PollRace.CheckRules` | credentialsd/src/credential_service/mod.rs:443-456 | the check leaves an answer to be given exactly for a final event of a request whose token is live |
| `PollRace.Run` | credentialsd/src/credential_service/mod.rs:434-463 | that holds over any interleaving of initialisations, cancellations, checks and takings |
| `PollRace.AnswerReachesItsRequestIff` | credentialsd/src/credential_service/mod.rs:546-559 | an answer reaches its own request if and only if that request's token is still live when the slot is taken; where it goes otherwise |
| `PollRace.LateAnswerReachesNextRequest` | credentialsd/src/credential_service/mod.rs:546-559 | a run in which an answer computed for one request reaches the next |
| `ServiceObjects.CredentialService.constructor` | credentialsd/src/credential_service/mod.rs:167-175 | a new service is the empty one |
| `ServiceObjects.CredentialService.InitRequest` | credentialsd/src/credential_service/mod.rs:269-294 | the shared slot is filled with a fresh token and reply channel as specified, or the call is refused and nothing changes |
| `ServiceObjects.CredentialService.TakeAndReply` | credentialsd/src/credential_service/mod.rs:550-554 | only the token and the channel of the request in the slot change, although all requests share the heap |
| `ServiceObjects.CredentialService.CancelRequest` | credentialsd/src/credential_service/mod.rs:296-312 | the heap after a cancellation is the specified state |
| `ServiceObjects.CredentialService.CompleteRequest` | credentialsd/src/credential_service/mod.rs:546-559 | the heap after a completion is the specified state |
| `ServiceObjects.StateStream.constructor` | credentialsd/src/credential_service/mod.rs:210-235 | a stream keeps the token of the request in the slot; also mod.rs:181-208 |
| `ServiceObjects.StateStream.PollNext` | credentialsd/src/credential_service/mod.rs:434-463 | a poll of the object is the specified poll for the request it was started for; the event comes out as it went in, or the stream ends if the token was cancelled; the same for mod.rs:390-419 |
| `Ceremony.EventsAreNeverCancellations` | credentialsd/src/credential_service/mod.rs:446-458 | every terminal event a handler sends carries a reply, so the branch for reported cancellations is never taken |
| `Ceremony.ActionRules` | credentialsd/src/credential_service/mod.rs:181-235 | a stream is started for the current request with a new handler, its handler runs by itself, and polling logs its next event, unchanged, exactly while its request is current |
| `Ceremony.FinalEventsCarry` | credentialsd/src/credential_service/mod.rs:402-414 | completed, done, failed and broken are the final events, and what each carries |
| `Ceremony.StepKeepsSound` | credentialsd/src/credential_service/mod.rs:269-463 | every action on service, streams and handlers keeps the invariant of the whole system |
| `Ceremony.ContinuingKeepsSound` | credentialsd/src/credential_service/mod.rs:336-375 | from any sound system the invariant survives any interleaving of any number of requests, streams, handler steps, cancellations and polls |
| `Ceremony.EveryRunIsSound` | credentialsd/src/credential_service/mod.rs:269-463 | the invariant holds after every run of the whole system |
| `Ceremony.RunsContinue` | credentialsd/src/credential_service/mod.rs:336-375 | every later moment of a run is reached by continuing from the earlier one |
| `Ceremony.SlotTokenAndReplyAgree` | credentialsd/src/credential_service/mod.rs:269-312 | in every run and for every request ever made: in the slot, token live and unanswered are equivalent; at most one reply each |
| `Ceremony.VerdictsAreConclusive` | credentialsd/src/credential_service/mod.rs:390-463 | what the updates of a request say about its slot, its reply and the position of a terminal event |
| `Ceremony.CallerGetsTheTerminalEvent` | credentialsd/src/dbus/flow_control.rs:290-292 | the merged updates of a request are ongoing ones and at most one final one at the end; the caller has a reply exactly when the request is over, and it is the response of that event's Completed or Done, the error of its Failed or Broken, or without such an event the cancellation error with the request's number |
| `Ceremony.FinishedRequestsAreFrozen` | credentialsd/src/credential_service/mod.rs:443-445 | from any sound system, so from any moment of any run: once a request is over, no stream ever forwards anything for it and its reply never changes |
| `CeremonyOrder.StepKeepsOrder` | credentialsd/src/credential_service/mod.rs:390-463 | every action keeps this for every stream: the UI was shown the beginning of what its handler sent, and all that was taken from it while its request is current |
| `CeremonyOrder.EveryRunIsOrdered` | credentialsd/src/credential_service/mod.rs:336-375 | so in every run each stream reaches the UI in order and without gaps, however the streams are merged |
| `CeremonyOrder.ShownStatesRefineTrace` | credentialsd/src/credential_service/mod.rs:434-463 | what the UI was shown of a machine, repeats dropped, is a beginning of what the machine entered, and all of it once everything sent was shown; the prompts shown are the first ones the authenticator asked for |
| `CeremonyProvenance.EventsAreAnswered` | credentialsd/src/credential_service/mod.rs:446-458 | an event that carries a response comes from a handler, USB, NFC or phone, whose own run received that response from its authenticator |
| `CeremonyProvenance.RepliesAreAnswered` | credentialsd/src/dbus/flow_control.rs:290-292 | a response that a caller receives was carried by a logged update of one of its own request's streams, and the handler of that very stream received it from its authenticator |
| `CeremonyProvenance.NothingAnsweredAtFirst` | credentialsd/src/credential_service/mod.rs:181-235 | a handler that has only been started has received no response at all |
| `PinRouting.FlowControl.constructor` | credentialsd/src/dbus/flow_control.rs:143-145 | all three slots start empty |
| `PinRouting.FlowControl.Show` | credentialsd/src/dbus/flow_control.rs:163-201 | NeedsPin fills the client-PIN slot, PinNotSet the set-PIN slot and a USB credential selection the selector slot, each with its own channel; every other update and slot is left alone |
| `PinRouting.FlowControl.Enter` | credentialsd/src/dbus/flow_control.rs:205-270 | an entry empties the slot of its kind and is sent on what was in it, or dropped |
| `PinRouting.FlowControl.Serve` | credentialsd/src/dbus/flow_control.rs:147-278 | the loop over any interleaving of updates and UI events ends in the specified routing |
| `PinRouting.RoutingDeliversToOpenPrompts` | credentialsd/src/dbus/flow_control.rs:143-277 | every entry made before the loop stops goes to the latest prompt of its kind that nothing has been entered for since, and nowhere if there is none |
| `PinRouting.EntryReachesItsState` | credentialsd/src/dbus/flow_control.rs:164-270 | an entered client PIN, new device PIN or selection is sent on the channel of the latest NeedsPin, PinNotSet or USB SelectCredential shown, if nothing of its kind was entered since; otherwise, or once the loop has stopped, it is dropped |
| `PinRouting.EverySentIsExplained` | credentialsd/src/dbus/flow_control.rs:205-270 | the converse: whatever is sent was entered while such a state waited for that kind on that channel |
| `PinRouting.OnlyEntriesSend` | credentialsd/src/dbus/flow_control.rs:153-276 | nothing but an entry sends anything |
| `PinRouting.RoutingIsOrderly` | credentialsd/src/dbus/flow_control.rs:205-270 | what is sent answers a prompt of its own kind, no channel is sent to twice, and slots hold unused channels |
| `PinRouting.ChannelsNeverFull` | credentialsd/src/credential_service/usb.rs:738-738 | a channel of capacity one has at most one message even if nobody reads it, and it is the one that was sent |
| `PinRouting.EachPromptAnsweredOnce` | credentialsd/src/dbus/flow_control.rs:205-270 | each prompt's channel gets at most one message, of the prompt's kind |
| `CeremonyRouting.HandlersOfferTheirOwnChannels` | credentialsd/src/credential_service/usb.rs:737-780 | the reply channels one handler offers are its own and all different |
| `CeremonyRouting.UpdatesOfferSeparateChannels` | credentialsd/src/credential_service/usb.rs:737-780 | over a whole run no two updates offer the same reply channel |
| `CeremonyRouting.CeremonyPromptsAnsweredOnce` | credentialsd/src/dbus/flow_control.rs:143-277 | for any run, any request and any interleaving of its updates with UI events, entries go to open prompts only and no prompt is answered twice or in another kind |
| `CeremonySelection.ArrivedWasSelected` | credentialsd/src/dbus/flow_control.rs:259-270 | in any run, what arrives on a machine's selection channel is one message, which the user entered as a selection and not as a PIN |
| `CeremonySelection.SelectionIsAnswered` | credentialsd/src/dbus/flow_control.rs:191-292 | from the UI event to the reply: when a choosing machine takes what was routed to it, uncancelled, listened to and still current, and it is a string the machine showed, then polling its stream gives the caller an assertion shown under that string |
| `Cbor.ReadValue` | demo_client/cbor.py:28-153 | reading ends on every input and cursor position, never moves the cursor back, and moves it whenever a value was read from something |
| `CborParser.Parser.constructor` | demo_client/cbor.py:20-22 | a parser starts at the beginning of its buffer |
| `CborParser.Parser.Parse` | demo_client/cbor.py:24-26 | one value is read, with the head always taken from the first byte of the buffer and the rest from behind the cursor |
| `Cbor.OnlyTheFirstParseReads` | demo_client/cbor.py:24-26 | a new parser reads the first value; one that has been used repeats the first head, with an input that shows it |
| `Cbor.UsedParserReadsAfterEqualHeads` | demo_client/cbor.py:24-26 | a used parser reads the value at its cursor whenever the head there is the buffer's first head |
| `Cbor.DifferentHeadsMayAgree` | demo_client/cbor.py:140-150 | the converse fails: null and undefined have different heads and read alike, with the bytes that show it |
| `CborParser.Parser.ReadValue` | demo_client/cbor.py:28-153 | the parser with its mutable cursor, through all its recursion and loops, gives the specified value or exception and the specified cursor; also webext/app/credential_manager_shim.py |
| `CborParser.Parser.ReadBody` | demo_client/cbor.py:72-153 | what follows a head, for every major type, gives the specified value or exception and cursor |
| `CborParser.Parser.ReadByteChunks` | demo_client/cbor.py:82-89 | the loop over an indefinite byte string, which takes element zero of each chunk |
| `CborParser.Parser.ReadTextChunks` | demo_client/cbor.py:96-102 | the loop over an indefinite text string |
| `CborParser.Parser.ReadItems` | demo_client/cbor.py:133-135 | the counted loop over array items |
| `CborParser.Parser.ReadItemsToBreak` | demo_client/cbor.py:125-131 | the loop over array items up to a break |
| `CborParser.Parser.ReadEntry` | demo_client/cbor.py:119-121 | one key and value put into the dictionary, replacing an equal key |
| `CborParser.Parser.ReadEntries` | demo_client/cbor.py:118-121 | the counted loop over map entries |
| `CborParser.Parser.ReadEntriesToBreak` | demo_client/cbor.py:109-116 | the loop over map entries up to a break |
| `CborParser.Loads` | demo_client/cbor.py:156-158 | the first value of a buffer, whatever follows it |
| `CborRoundTrip.HeadReadsBack` | demo_client/cbor.py:31-70 | a head of any major type and width reads back as its type, its argument and its length |
| `CborRoundTrip.BytesReadBack` | demo_client/cbor.py:35-46 | an argument that fits its bytes, big-endian, reads back |
| `CborRoundTrip.EncodingsDecode` | demo_client/cbor.py:28-153 | every nested item, with any choice of widths and of definite or indefinite lengths, decodes to its value from wherever it stands in a buffer, and the cursor stops at its end |
| `CborRoundTrip.ReadsBack` | demo_client/cbor.py:28-153 | between any two byte strings an encoding is read as its value with the exact cursor |
| `CborRoundTrip.EncodingsAreUnambiguous` | demo_client/cbor.py:28-153 | no encoding is a proper beginning of another, and equal encodings stand for equal values |
| `CborRules.StandardIntegers` | demo_client/cbor.py:74-78 | the encodings and values that RFC 8949 lists for some integers |
| `CborRules.StandardStrings` | demo_client/cbor.py:90-105 | the same for strings |
| `CborRules.StandardSimpleValues` | demo_client/cbor.py:140-148 | the same for booleans and null |
| `CborRules.StandardArrays` | demo_client/cbor.py:123-135 | the same for an array, with definite and indefinite length |
| `CborRules.StandardMaps` | demo_client/cbor.py:107-121 | the same for a map |
| `CborRules.HeadOf` | demo_client/cbor.py:31-50 | reserved and truncated heads are refused, short ones are read |
| `CborRules.SimpleRules` | demo_client/cbor.py:137-150 | tags and unknown simple values are refused; the four known ones are read |
| `CborRules.WideSimpleRules` | demo_client/cbor.py:137-150 | the same for wider arguments, floats included |
| `CborRules.OpenIntegers` | demo_client/cbor.py:47-78 | an integer without a length is none if positive and raises if negative |
| `CborRules.EmptyContainers` | demo_client/cbor.py:107-135 | empty arrays and maps |
| `CborRules.EmptyOpenItems` | demo_client/cbor.py:82-131 | empty indefinite items; the byte string comes out as text |
| `CborRules.MissingBreaks` | demo_client/cbor.py:86-128 | an indefinite item without a break raises |
| `CborRules.OverlongBytes` | demo_client/cbor.py:90-92 | a byte string longer than the buffer gives what is left, and the cursor passes the end |
| `CborRules.ByteChunksRaise` | demo_client/cbor.py:86-88 | a byte chunk of an indefinite byte string raises |
| `CborRules.TextAmongByteChunks` | demo_client/cbor.py:86-88 | a text chunk among them gives its first character |
| `CborRules.OtherTextChunksRaise` | demo_client/cbor.py:99-101 | anything but text in an indefinite text raises |
| `CborRules.BadTextRaises` | demo_client/cbor.py:104-104 | text that does not decode raises |
| `CborRules.MissingItemsAreNone` | demo_client/cbor.py:133-135 | items announced by a definite array but missing are none |
| `CborRules.MissingEntriesAreNone` | demo_client/cbor.py:118-121 | missing entries of a definite map are one entry of none for none |
| `CborRules.PutRules` | demo_client/cbor.py:115-121 | a later equal key replaces the value and keeps the first key, its place and all other entries |
| `CborRules.SameKeyIff` | demo_client/cbor.py:115-121 | keys are equal as in Python: false is 0 and true is 1 |
| `CborRules.UnhashableKeysRaise` | demo_client/cbor.py:119-121 | lists and dictionaries as keys raise, and nothing else does |
| `AuthenticatorData.ReadFlags` | demo_client/webauthn.py:599-605 | the shifting loop collects exactly the names of the bits set |
| `AuthenticatorData.FlagsNameTheirBits` | demo_client/webauthn.py:601-605 | which bit each name stands for, in both directions; the backup flags BE and BS are never named, although the clients ask for them |
| `AuthenticatorData.ParseAttested` | demo_client/webauthn.py:609-618 | the key is cut out of the longer buffer at the decoder's final cursor |
| `AuthenticatorData.ParseAuthenticatorData` | demo_client/webauthn.py:593-638 | the parser does what is specified for both programs; also webext/app/credential_manager_shim.py:344-387 |
| `AuthenticatorData.Assemble` | demo_client/webauthn.py:626-638 | the extensions are read behind the attested data as its length was computed, and every field is put in its place, empty ones as the program does |
| `AuthenticatorData.GetPubKey` | demo_client/webauthn.py:585-587 | the key bytes decoded, or none if absent or empty |
| `AuthenticatorData.HeaderReadsBack` | demo_client/webauthn.py:596-607 | RP ID hash, flags and counter come back from a serialised header |
| `AuthenticatorData.AttestedReadsBack` | demo_client/webauthn.py:609-618 | attested data whose key decodes up to its own end is cut apart at exactly these places |
| `AuthenticatorData.KeyIsCutOut` | demo_client/webauthn.py:613-617 | an embedded key is found and cut out exactly, whatever follows it |
| `AuthenticatorData.AttestedRoundTrip` | demo_client/webauthn.py:593-638 | with AT and without ED every field comes back, the key bytes are the embedded key whatever follows, and they decode to the same map again |
| `AuthenticatorData.AcceptedKeysDecode` | demo_client/webauthn.py:585-587 | after any successful parse, of serialised data or not, the key bytes kept decode up to their own end, so asking for the key never fails |
| `AuthenticatorData.PlainRoundTrip` | demo_client/webauthn.py:596-638 | with AT and ED clear, as in an ordinary assertion, hash, flags and counter come back and nothing else, whatever follows |
| `AuthenticatorData.TooShortIff` | demo_client/webauthn.py:600-611 | data is refused as too short exactly below 37 bytes, or below 55 with AT |
| `AuthenticatorData.AttestedFailsIff` | demo_client/webauthn.py:613-617 | with AT and enough bytes, parsing fails exactly when the key does not decode or its cursor passes the end |
| `AuthenticatorData.ExtensionsFailIff` | demo_client/webauthn.py:626-629 | with ED only, parsing succeeds exactly when what follows the header decodes, and gives that value |
| `CborTruncation.ValueKept` | demo_client/cbor.py:28-153 | for every input, a buffer cut anywhere behind the cursor after a read gives the same value and cursor again |
| `AuthenticatorData.CredentialIdComesBackIff` | demo_client/webauthn.py:635-635 | the credential ID comes back if and only if it is not empty or the browser shim parses |
| `AuthenticatorData.ExtensionsRoundTrip` | demo_client/webauthn.py:620-629 | with ED and without AT the extensions come back, whatever follows them |
| `AuthenticatorData.BothPartsSkipBytes` | demo_client/webauthn.py:618-629 | with AT and ED the 37 bytes after the attested data are skipped and the extensions read from the rest |
| `AuthenticatorData.DisplacedExtensionsComeBack` | demo_client/webauthn.py:618-629 | extensions come back when 37 further bytes stand before them |
| `AuthenticatorData.BothPartsLoseShortExtensions` | demo_client/webauthn.py:618-629 | extensions in their proper place that end within 37 bytes with all that follows them read as nothing; this is right if and only if they are the null item |
| `CborWeight.ValueWeighs` | demo_client/cbor.py:28-153 | a value read between two cursor positions is no heavier than the bytes between them, for every input, well-formed or not |
| `CborWeight.PutAddsWeight` | demo_client/cbor.py:113-121 | putting an entry into a dictionary adds at most the entry's own weight, whether it replaces an equal key or not |
| `CborWeight.EncodingsAreHeavyEnough` | demo_client/cbor.py:28-153 | no encoding is shorter than its value is heavy, and only null weighs nothing |
| `LateExtensions.ParsedIffComesBack` | demo_client/webauthn.py:618-629 | with AT and ED the parser returns extensions of any length, whatever follows, if and only if what is left 37 bytes later reads as their value |
| `LateExtensions.OnlyWastefulExtensionsComeBack` | demo_client/webauthn.py:618-629 | then extensions of any length come back only if they are null or their encoding, with what follows it, is at least 37 bytes longer than their value is heavy |
| `LateExtensions.FrugalExtensionsComeBackIff` | demo_client/webauthn.py:618-629 | extensions of any length without that much waste come back if and only if they are null |
| `LateExtensions.EmptyChunksComeBackIff` | demo_client/webauthn.py:618-629 | with 37 bytes of waste it depends on the contents: a text in empty chunks comes back from 37 chunks on, and not with 36 |
| `SecretPage.Mmap.Write` | credentialsd-common/src/memfd.rs:94-111 | the bytes that fit are copied behind the cursor, nothing else in the page changes |
| `SecretPage.Mmap.WriteAll` | credentialsd-common/src/memfd.rs:44-44 | all bytes are written if and only if they fit behind the cursor |
| `SecretPage.WriteSecret` | credentialsd-common/src/memfd.rs:32-49 | a secret is accepted if and only if it is at most a page; the file has its length and its bytes |
| `SecretPage.MmapReader.ReadInto` | credentialsd-common/src/memfd.rs:190-206 | the bytes at the cursor are copied, at most to the end of the file; the copy leaves the page exactly when it reaches past 4096 bytes |
| `SecretPage.MmapReader.ReadToEnd` | credentialsd-common/src/memfd.rs:23-28 | with any non-empty buffer sizes the whole file is read if and only if it is at most a page |
| `SecretPage.MmapReader.ReadEach` | credentialsd-common/src/memfd.rs:190-206 | reads of any sizes, empty ones too, stay inside the page if and only if the specified cursor does, and then end at that cursor with the bytes before it |
| `SecretPage.WriteThenRead` | credentialsd-common/src/memfd.rs:23-49 | every secret of at most a page comes back exactly, then the file ends; larger ones are refused |
| `SecretPage.CursorStaysWithinSize` | credentialsd-common/src/memfd.rs:190-206 | the cursor that `ReadEach` follows never passes the file's size |
| `SecretPage.ReaderStaysInsideIff` | credentialsd-common/src/memfd.rs:161-179 | the reads of `ReadEach` stay inside the page for all sizes of buffers if and only if the file is at most a page |
| `Origin.PrintedNumberReadsBack` | credentialsd/src/webauthn.rs:66-68 | a printed number consists of digits and reads back |
| `Origin.ParsedIsNormal` | credentialsd/src/webauthn.rs:93-135 | what parsing returns has a valid lower-case host and a port below 65536, or a valid app ID |
| `Origin.NormalPrintsBack` | credentialsd/src/webauthn.rs:61-74 | parsing what a normal origin prints gives that origin |
| `Origin.ParsableIffNormal` | credentialsd/src/webauthn.rs:93-135 | an origin can be parsed from some string if and only if it is normal |
| `Origin.NormalFormsDecide` | credentialsd/src/webauthn.rs:61-135 | accepted strings mean the same origin if and only if they print the same, and printing after parsing is idempotent |
| `Origin.LeadingZerosVanish` | credentialsd/src/webauthn.rs:121-123 | leading zeros and a leading plus sign do not change a port |
| `Origin.CaseMakesNoDifference` | credentialsd/src/webauthn.rs:119-119 | hosts that differ only in case give the same result, for any port text |
| `Origin.HttpsParses` | credentialsd/src/webauthn.rs:97-125 | a valid host with any port text parses to its lower-case form with that port, or fails at the port |
| `Origin.AppParses` | credentialsd/src/webauthn.rs:126-130 | an app origin parses if and only if its ID is valid, and keeps it unchanged |
| `Origin.PortIff` | credentialsd/src/webauthn.rs:121-123 | a port text is accepted exactly if it is the decimal notation of a number below 65536, with any leading zeros and at most one plus sign, and gives that number |
| `Origin.HostIff` | credentialsd/src/webauthn.rs:103-118 | a host is accepted exactly if it starts with a letter, has only letters, digits, hyphens and dots, and its last label is not empty |
| `Origin.AppIdIff` | credentialsd/src/webauthn.rs:23-52 | an app ID is accepted exactly if it starts with a letter, has only letters, digits, dots, hyphens and underscores, and none of its labels is empty |
| `Origin.LowerSpelledOut` | credentialsd/src/webauthn.rs:119-119 | each capital becomes its small letter, every other character stays |
| `Origin.CharactersSpelledOut` | credentialsd/src/webauthn.rs:104-111 | which characters are letters and digits |
| `Origin.Refusals` | credentialsd/src/webauthn.rs:97-134 | the reason for which every other string is refused |

## Left out

- Ceremony.EveryRunIsSound: a poll is one atomic step, although the token check and the taking of the slot are not under one lock; `PollRace` treats the two apart.
- Liveness: a request need not be answered. A channel that cannot be opened reports nothing (`credentialsd/src/credential_service/usb.rs:388-393`), and a UI that cannot be launched leaves the request in the slot (`credentialsd/src/dbus/flow_control.rs:137-140`).
- DeviceSelection.SelectDevice: describes returns of the function itself; when the outer cancellation drops it, nothing is cancelled by it.
- AuthenticatorMachine.Process: any cancellation flag may be set at any step, independent of the service's token, which admits more runs than the daemon has; channel capacities other than one, and waiting for room in them, are not modelled.
- MachineProperties.EmissionRefinesTrace: repeated user-verification prompts are compared by variant only, as in the code, so their remaining attempts may not be sent.
- LateExtensions.OnlyWastefulExtensionsComeBack: one direction, because with 37 bytes of waste or more it depends on the contents, as `EmptyChunksComeBackIff` shows both ways; it takes the characters of decoded text to need no more bytes than it was decoded from, as in UTF-8.
- CborParser.Parser.ReadValue: Python's recursion limit; for indefinite byte strings, tags, floats, malformed items and boolean map keys there is the exact behaviour (`CborRules`) and termination, but no round trip.
- PinRouting.FlowControl.Serve: the end of the loop by the request's token is the same to it as the end of the UI events; a send that finds its receiver gone is a send.
- Ceremony.CallerGetsTheTerminalEvent: a caller that has stopped listening is not told apart from one that listens.
- What happens to a PIN after it was received from the prompt's channel; NFC is proved with the USB machine, though the daemon does not start it.
- libwebauthn and the HID, NFC and caBLE transports, D-Bus, the GTK front end, JSON, signatures, and relying-party IDs derived from origins: foreign code or plumbing.
- Operating-system errors of memory mapping, flushing and erasing a secret.
- Conversions between event and error types for display, manifests, allow-lists and the web-extension bridge: they would only add easy members.
