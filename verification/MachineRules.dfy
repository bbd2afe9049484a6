/** What one turn of the ceremony machine does, state by state and input by input. */
module MachineRules {
  import opened Basics
  import opened Authenticator
  import opened DeviceSelection
  import opened AuthenticatorMachine
  import CredentialSelection

  /** The loop ends without a word, in the state it was in. */
  ghost predicate Stops(c: Config, c': Config) {
    c'.status == Stopped && c'.state == c.state && c'.trace == c.trace && c'.emitted == c.emitted
  }

  /** The machine enters `s`. If that is news it is sent, or ends the loop when nobody listens. */
  ghost predicate Enters(c: Config, c': Config, s: MachineState, news: bool, open: bool) {
    && c'.state == s && c'.trace == c.trace + [s]
    && c'.emitted == (if news && open then c.emitted + [s] else c.emitted)
    && (if news && !open then c'.status == ReceiverGone
        else if s.Completed? then c'.status == Exited(None)
        else if s.Failed? then c'.status == Exited(Some(s.error))
        else c'.status == Running)
  }

  /** Only the signals received, the failures met and the operations spawned are left to say. */
  ghost predicate Counts(c: Config, c': Config, received: seq<Signal>, failures: nat, spawned: nat) {
    c'.received == received && c'.failures == failures && c'.spawned == spawned
  }

  /** A cancelled turn stops the loop; it has spawned the operation of a connected device if it had
      begun. */
  lemma CancellationRules(t: Transport, hash: Hash, c: Config, e: Environment)
    requires Applies(t, c, e) && e.cancelled
    ensures var c' := Step(t, hash, c, e);
            && Stops(c, c')
            && Counts(c, c', c.received, c.failures,
                      if c.state.Connected? && e.begun then c.spawned + 1 else c.spawned)
  {
  }

  /** Otherwise the next state is entered, or the loop stops if there is none. */
  lemma TurnRules(t: Transport, hash: Hash, c: Config, e: Environment)
    requires Applies(t, c, e) && !e.cancelled
    ensures var c' := Step(t, hash, c, e);
            var (next, failures) := Advance(t, hash, c.handler, |c.received|, c.state, c.failures, e);
            && c'.failures == failures
            && c'.spawned == (if c.state.Connected? then c.spawned + 1 else c.spawned)
            && match next
               case Err(x) =>
                 if x == RequestCancelled then Stops(c, c')
                 else Enters(c, c', Failed(x), Changed(Failed(x), c.state), e.receiverOpen)
               case Ok(s) => Enters(c, c', s, Changed(s, c.state), e.receiverOpen)
  {
  }

  /** Polling for devices: the listing is cancelled, or finds some or none. */
  lemma PollingRules(t: Transport, hash: Hash, c: Config, e: Environment)
    requires Applies(t, c, e) && !e.cancelled && (c.state.Idle? || c.state.Waiting?)
    requires e.listing.Some? ==> e.listing.value.Devices?
    ensures var c', open := Step(t, hash, c, e), e.receiverOpen;
            && Counts(c, c', c.received, c.failures, c.spawned)
            && match e.listing
               case None => Stops(c, c')
               case Some(listing) =>
                 if listing.devices == [] then
                   if t.Usb? && e.sleepCancelled then Stops(c, c')
                   else Enters(c, c', Waiting, !c.state.Waiting?, open)
                 else if t.Usb? then Enters(c, c', SelectingDevice(listing.devices), true, open)
                 else Enters(c, c', Connected(listing.devices[0]), true, open)
  {
    TurnRules(t, hash, c, e);
    var (next, failures) := IdleWaiting(t, c.failures, c.state, e);
    assert Advance(t, hash, c.handler, |c.received|, c.state, c.failures, e) == (next, failures);
  }

  /** Polling for devices: the listing fails. The fifth failure ends the run, the others change
      nothing but the count. */
  lemma FailedPollingRules(t: Transport, hash: Hash, c: Config, e: Environment, message: string)
    requires Applies(t, c, e) && !e.cancelled && (c.state.Idle? || c.state.Waiting?)
    requires e.listing == Some(ListError(message))
    ensures var c', open := Step(t, hash, c, e), e.receiverOpen;
            && Counts(c, c', c.received, c.failures + 1, c.spawned)
            && (if c.failures == 4 then Enters(c, c', Failed(ListFailure(t, message)), true, open)
                else if e.sleepCancelled then Stops(c, c')
                else Enters(c, c', c.state, false, open))
  {
    TurnRules(t, hash, c, e);
    var (next, failures) := IdleWaiting(t, c.failures, c.state, e);
    assert Advance(t, hash, c.handler, |c.received|, c.state, c.failures, e) == (next, failures);
    assert !Changed(c.state, c.state);
  }

  /** The internal errors of the two transports are told apart by their texts only. */
  lemma ErrorTexts(message: string)
    ensures ListFailure(Usb, message) ==
            Internal("Failed to list USB authenticators: " + message + ". Cancelling USB state updates.")
    ensures ListFailure(Nfc, message) ==
            Internal("Failed to list NFC authenticators: " + message + ". Cancelling NFC state updates.")
    ensures ChannelClosed(Usb) == Internal("USB UV handler channel closed")
    ensures ChannelClosed(Nfc) == Internal("NFC UV handler channel closed")
  {
  }

  /** Letting the user touch a device: the earliest touch connects exactly that device. */
  lemma SelectingRules(t: Transport, hash: Hash, c: Config, e: Environment)
    requires Applies(t, c, e) && !e.cancelled && c.state.SelectingDevice?
    ensures var c', s := Step(t, hash, c, e), e.schedule;
            && Counts(c, c', c.received, c.failures, c.spawned)
            && (forall p :: FirstTouched(s, s.answers, p) ==>
                  && s.answers[p] < |c.state.devices|
                  && Enters(c, c', Connected(c.state.devices[s.answers[p]]), true, e.receiverOpen))
            && (NoneTouched(s, s.answers) ==>
                  if s.cancelled then Stops(c, c') else Enters(c, c', Idle, true, e.receiverOpen))
  {
    var s := e.schedule;
    EarliestTouchIsChosen(s, s.answers);
    forall p | FirstTouched(s, s.answers, p) ensures s.answers[p] < |c.state.devices| {
      assert s.answers[p] in s.answers;
    }
  }

  /** An operation runs on the connected device, or waits for the user. */
  ghost predicate Operating(s: MachineState) {
    s.Connected? || s.NeedsPin? || s.PinNotSet? || s.NeedsUserVerification? || s.NeedsUserPresence?
  }

  /** Every signal is received once, and a connected machine has spawned the operation. */
  lemma OperatingCounts(t: Transport, hash: Hash, c: Config, e: Environment)
    requires Applies(t, c, e) && !e.cancelled && Operating(c.state)
    ensures Counts(c, Step(t, hash, c, e),
                   c.received + (if e.signal.Some? then [e.signal.value] else []),
                   c.failures, if c.state.Connected? then c.spawned + 1 else c.spawned)
  {
  }

  /** What the authenticator asks for while an operation runs. */
  lemma PromptRules(t: Transport, hash: Hash, c: Config, e: Environment)
    requires Applies(t, c, e) && !e.cancelled && Operating(c.state)
    requires e.signal.Some? ==> !e.signal.value.Finished?
    ensures var c', open := Step(t, hash, c, e), e.receiverOpen;
            var pinTx := PinChannel(c.handler, |c.received|);
            match e.signal
            case None => Enters(c, c', Failed(ChannelClosed(t)), true, open)
            case Some(UvRetry(attempts)) =>
              Enters(c, c', NeedsUserVerification(attempts), !c.state.NeedsUserVerification?, open)
            case Some(PresenceRequired) =>
              Enters(c, c', NeedsUserPresence, !c.state.NeedsUserPresence?, open)
            case Some(PinRequired(attempts)) => Enters(c, c', NeedsPin(attempts, pinTx), true, open)
            case Some(NoPinSet(reason)) => Enters(c, c', PinNotSet(reason, pinTx), true, open)
            case Some(Finished(_)) => false
  {
    TurnRules(t, hash, c, e);
    var next := UserInteraction(t, c.handler, |c.received|, e.signal);
    assert Advance(t, hash, c.handler, |c.received|, c.state, c.failures, e) == (next, c.failures);
  }

  /** How an operation ends. */
  lemma FinishRules(t: Transport, hash: Hash, c: Config, e: Environment, result: Result<Answer, ServiceError>)
    requires Applies(t, c, e) && !e.cancelled && Operating(c.state)
    requires e.signal == Some(Finished(result))
    ensures Finishes(c, Step(t, hash, c, e), result, e.receiverOpen)
  {
    TurnRules(t, hash, c, e);
    var next := UserInteraction(t, c.handler, |c.received|, e.signal);
    assert Advance(t, hash, c.handler, |c.received|, c.state, c.failures, e) == (next, c.failures);
  }

  /** A registration or a single assertion completes the ceremony, any other number of assertions is
      put to the user, an error ends it, and a cancellation stops it. */
  ghost predicate Finishes(c: Config, c': Config, result: Result<Answer, ServiceError>, open: bool) {
    match result
    case Ok(Created(x)) => Enters(c, c', Completed(Registration(x)), true, open)
    case Ok(Asserted(xs)) =>
      if |xs| == 1 then Enters(c, c', Completed(Authentication(xs[0])), true, open)
      else Enters(c, c', SelectCredential(xs, CredChannel(c.handler)), true, open)
    case Err(x) => if x == RequestCancelled then Stops(c, c') else Enters(c, c', Failed(x), true, open)
  }

  /** The user's choice: the first assertion hashed to the chosen string completes the ceremony; a
      string that belongs to none of them, or a closed channel, fails it. */
  lemma ChoiceRules(t: Transport, hash: Hash, c: Config, e: Environment)
    requires Applies(t, c, e) && !e.cancelled && c.state.SelectCredential?
    ensures var c', open, xs := Step(t, hash, c, e), e.receiverOpen, c.state.assertions;
            && Counts(c, c', c.received, c.failures, c.spawned)
            && match e.choice
               case None =>
                 Enters(c, c', Failed(Internal("Cred channel disconnected prematurely")), true, open)
               case Some(id) =>
                 && ((forall x :: x in xs ==> !HashedTo(x, hash, id)) ==>
                       Enters(c, c', Failed(NoCredentials), true, open))
                 && (forall i :: FirstHashedTo(xs, hash, id, i) ==>
                       Enters(c, c', Completed(Authentication(xs[i])), true, open))
  {
    TurnRules(t, hash, c, e);
    var next := ChosenCredential(c.state.assertions, hash, e.choice);
    assert Advance(t, hash, c.handler, |c.received|, c.state, c.failures, e) == (next, c.failures);
    if e.choice.Some? {
      FirstHashedIsChosen(c.state.assertions, hash, e.choice.value);
    }
  }

  lemma FirstHashedIsChosen(xs: seq<Assertion>, hash: Hash, id: string)
    ensures (forall x :: x in xs ==> !HashedTo(x, hash, id)) ==>
              ChosenCredential(xs, hash, Some(id)) == Err(NoCredentials)
    ensures forall i :: FirstHashedTo(xs, hash, id, i) ==>
              ChosenCredential(xs, hash, Some(id)) == Ok(Completed(Authentication(xs[i])))
  {
    CredentialSelection.FindsEarliest(xs, hash, id);
    var found := CredentialSelection.Find(xs, hash, id);
    assert forall x :: HashedTo(x, hash, id) <==> CredentialSelection.Matches(x, hash, id);
    forall i | FirstHashedTo(xs, hash, id, i) ensures found == Some(xs[i]) {
      assert xs[i] in xs;
      var j :| 0 <= j < |xs| && xs[j] == found.value && CredentialSelection.Matches(xs[j], hash, id)
               && forall q :: 0 <= q < j ==> !CredentialSelection.Matches(xs[q], hash, id);
      assert i == j;
    }
  }

  ghost predicate HashedTo(x: Assertion, hash: Hash, id: string) {
    x.credentialId.Some? && hash(x.credentialId.value) == id
  }

  ghost predicate FirstHashedTo(xs: seq<Assertion>, hash: Hash, id: string, i: int) {
    0 <= i < |xs| && HashedTo(xs[i], hash, id)
    && forall j :: 0 <= j < i ==> !HashedTo(xs[j], hash, id)
  }
}
