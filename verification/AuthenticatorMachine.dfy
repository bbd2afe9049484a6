/** The state machine behind a USB or NFC ceremony: polling for a device within a failure
    budget, device selection, prompts, credential selection, and the emission of every state
    the rest of the daemon should see. NFC differs only in how it discovers a device. */
module AuthenticatorMachine {
  import opened Basics
  import opened Authenticator
  import opened DeviceSelection
  import CredentialSelection

  datatype Transport = Usb | Nfc

  /** A channel back to a handler. Every PIN prompt gets a channel of its own, named after the
      message that carries it; a handler has one channel for credential selections. */
  datatype ChannelId = PinChannel(handler: nat, message: nat) | CredChannel(handler: nat)

  datatype MachineState =
    | Idle
    | Waiting
    | SelectingDevice(devices: seq<Device>)
    | Connected(device: Device)
    | NeedsPin(attemptsLeft: Option<nat>, pinTx: ChannelId)
    | PinNotSet(reason: nat, pinTx: ChannelId)
    | NeedsUserVerification(attemptsLeft: Option<nat>)
    | NeedsUserPresence
    | SelectCredential(assertions: seq<Assertion>, credTx: ChannelId)
    | Completed(response: Response)
    | Failed(error: ServiceError)
  {
    predicate Terminal() { Completed? || Failed? }

    predicate Interacting() {
      Connected? || NeedsPin? || PinNotSet? || NeedsUserVerification? || NeedsUserPresence?
    }

    predicate Prompt() { NeedsPin? || PinNotSet? }

    /** The states a ceremony passes through, in order. */
    function Phase(): nat {
      if Idle? || Waiting? || SelectingDevice? then 0
      else if Connected? then 1
      else if SelectCredential? then 3
      else if Terminal() then 4
      else 2
    }

    function Channel(): Option<ChannelId> {
      if Prompt() then Some(pinTx) else if SelectCredential? then Some(credTx) else None
    }
  }

  datatype Variant =
    | VIdle | VWaiting | VSelectingDevice | VConnected | VNeedsPin | VPinNotSet
    | VNeedsUserVerification | VNeedsUserPresence | VSelectCredential | VCompleted | VFailed

  function VariantOf(s: MachineState): Variant {
    match s
    case Idle => VIdle
    case Waiting => VWaiting
    case SelectingDevice(_) => VSelectingDevice
    case Connected(_) => VConnected
    case NeedsPin(_, _) => VNeedsPin
    case PinNotSet(_, _) => VPinNotSet
    case NeedsUserVerification(_) => VNeedsUserVerification
    case NeedsUserPresence => VNeedsUserPresence
    case SelectCredential(_, _) => VSelectCredential
    case Completed(_) => VCompleted
    case Failed(_) => VFailed
  }

  /** What the authenticator reports while an operation runs, and how the operation ends. */
  datatype Signal =
    | UvRetry(attemptsLeft: Option<nat>)
    | PinRequired(attemptsLeft: Option<nat>)
    | NoPinSet(reason: nat)
    | PresenceRequired
    | Finished(result: Result<Answer, ServiceError>)

  datatype Listing = Devices(devices: seq<Device>) | ListError(message: string)

  /** Everything the outside world decides during one iteration of the machine's loop. Only the
      parts that the current state asks for are looked at. */
  datatype Environment = Environment(
    cancelled: bool,             // the token fires before the next state is known
    begun: bool,                 // if so, whether it fires after the turn has begun
    listing: Option<Listing>,    // None: the token fires while devices are listed
    sleepCancelled: bool,        // the token fires while polling is throttled
    schedule: Schedule,          // how the blinking devices behave
    signal: Option<Signal>,      // None: the signal channel is closed
    choice: Option<string>,      // None: the credential channel is closed
    receiverOpen: bool)          // somebody still listens for state changes

  /** `Stopped` is a cancellation; `Exited` carries the error the loop ends with, if any. */
  datatype Status = Running | Stopped | Exited(error: Option<ServiceError>) | ReceiverGone

  /** The loop's variables, with the history of its run: the signals received, the states
      entered, the states sent, and how many authenticator operations were spawned. */
  datatype Config = Config(
    handler: nat,
    state: MachineState,
    failures: nat,
    received: seq<Signal>,
    trace: seq<MachineState>,
    emitted: seq<MachineState>,
    spawned: nat,
    status: Status)

  function Start(handler: nat): Config {
    Config(handler, Idle, 0, [], [Idle], [], 0, Running)
  }

  // ---------- one iteration ----------

  function ListFailure(t: Transport, message: string): ServiceError {
    match t
    case Usb =>
      Internal("Failed to list USB authenticators: " + message + ". Cancelling USB state updates.")
    case Nfc =>
      Internal("Failed to list NFC authenticators: " + message + ". Cancelling NFC state updates.")
  }

  function ChannelClosed(t: Transport): ServiceError {
    match t
    case Usb => Internal("USB UV handler channel closed")
    case Nfc => Internal("NFC UV handler channel closed")
  }

  function IdleWaiting(t: Transport, failures: nat, prev: MachineState, e: Environment)
    : (Result<MachineState, ServiceError>, nat)
  {
    match e.listing
    case None => (Err(RequestCancelled), failures)
    case Some(Devices(devices)) =>
      if devices == [] then
        (if t.Usb? && e.sleepCancelled then Err(RequestCancelled) else Ok(Waiting), failures)
      else
        (Ok(if t.Usb? then SelectingDevice(devices) else Connected(devices[0])), failures)
    case Some(ListError(message)) =>
      if failures + 1 == 5 then (Err(ListFailure(t, message)), failures + 1)
      else if e.sleepCancelled then (Err(RequestCancelled), failures + 1)
      else (Ok(prev), failures + 1)
  }

  function SelectionState(devices: seq<Device>, selection: Selection)
    : Result<MachineState, ServiceError>
  {
    match selection
    case Selected(idx) => if idx < |devices| then Ok(Connected(devices[idx])) else Ok(Idle)
    case NoneSelected => Ok(Idle)
    case SelectionCancelled => Err(RequestCancelled)
  }

  /** `n` numbers the message among those the handler has received. */
  function UserInteraction(t: Transport, handler: nat, n: nat, signal: Option<Signal>)
    : Result<MachineState, ServiceError>
  {
    match signal
    case None => Err(ChannelClosed(t))
    case Some(UvRetry(attempts)) => Ok(NeedsUserVerification(attempts))
    case Some(PinRequired(attempts)) => Ok(NeedsPin(attempts, PinChannel(handler, n)))
    case Some(NoPinSet(reason)) => Ok(PinNotSet(reason, PinChannel(handler, n)))
    case Some(PresenceRequired) => Ok(NeedsUserPresence)
    case Some(Finished(Ok(Created(attestation)))) => Ok(Completed(Registration(attestation)))
    case Some(Finished(Ok(Asserted(assertions)))) =>
      if |assertions| == 1 then Ok(Completed(Authentication(assertions[0])))
      else Ok(SelectCredential(assertions, CredChannel(handler)))
    case Some(Finished(Err(error))) => Err(error)
  }

  function ChosenCredential(assertions: seq<Assertion>, hash: Hash, choice: Option<string>)
    : Result<MachineState, ServiceError>
  {
    match choice
    case None => Err(Internal("Cred channel disconnected prematurely"))
    case Some(id) =>
      match CredentialSelection.Find(assertions, hash, id)
      case Some(assertion) => Ok(Completed(Authentication(assertion)))
      case None => Err(NoCredentials)
  }

  /** The next state and the failure count after computing it, for a handler that has received
      `messages` messages. */
  function Advance(t: Transport, hash: Hash, handler: nat, messages: nat,
                   state: MachineState, failures: nat, e: Environment)
    : (Result<MachineState, ServiceError>, nat)
  {
    match state
    case Idle => IdleWaiting(t, failures, state, e)
    case Waiting => IdleWaiting(t, failures, state, e)
    case SelectingDevice(devices) =>
      (SelectionState(devices, Choose(e.schedule, e.schedule.answers)), failures)
    case SelectCredential(assertions, _) => (ChosenCredential(assertions, hash, e.choice), failures)
    case Completed(_) => (Ok(state), failures)
    case Failed(_) => (Ok(state), failures)
    case _ => (UserInteraction(t, handler, messages, e.signal), failures)
  }

  /** Variants decide whether a state is news, except that every PIN prompt is. */
  predicate Changed(next: MachineState, prev: MachineState) {
    if next.PinNotSet? && prev.PinNotSet? then true
    else if next.NeedsPin? && prev.NeedsPin? then true
    else VariantOf(next) != VariantOf(prev)
  }

  /** What can happen in a state: blink tasks follow a possible schedule, and the NFC handler
      passes no presence requests on. */
  ghost predicate Applies(t: Transport, c: Config, e: Environment) {
    && c.status.Running?
    && (c.state.SelectingDevice? ==> Possible(|c.state.devices|, e.schedule))
    && (t.Nfc? && c.state.Interacting() ==> e.signal != Some(PresenceRequired))
  }

  /** A cancellation stops the loop; any other error is a state of its own. */
  function Outcome(next: Result<MachineState, ServiceError>): Option<MachineState> {
    if next == Err(RequestCancelled) then None
    else if next.Ok? then Some(next.value) else Some(Failed(next.error))
  }

  /** Entering a state: it is sent if it is news, and the loop ends on a terminal state or when
      nobody receives what is sent. */
  function Enter(c: Config, state: MachineState, receiverOpen: bool): Config {
    var entered := c.(state := state, trace := c.trace + [state]);
    if Changed(state, c.state) && !receiverOpen then entered.(status := ReceiverGone)
    else entered.(
      emitted := if Changed(state, c.state) then c.emitted + [state] else c.emitted,
      status := Ending(state))
  }

  function Ending(state: MachineState): Status {
    match state
    case Completed(_) => Exited(None)
    case Failed(error) => Exited(Some(error))
    case _ => Running
  }

  /** A turn in the connected state spawns the operation, unless the token had fired before. */
  function Spawns(state: MachineState, e: Environment): nat {
    if state.Connected? && (!e.cancelled || e.begun) then 1 else 0
  }

  /** The configuration once the next state is known but not entered yet. */
  function Informed(c: Config, failures: nat, e: Environment): Config {
    c.(failures := failures,
       spawned := c.spawned + Spawns(c.state, e),
       received := if c.state.Interacting() && e.signal.Some?
                   then c.received + [e.signal.value] else c.received)
  }

  ghost function Step(t: Transport, hash: Hash, c: Config, e: Environment): Config {
    if !Applies(t, c, e) then c
    else if e.cancelled then
      c.(spawned := c.spawned + Spawns(c.state, e), status := Stopped)
    else
      var (next, failures) := Advance(t, hash, c.handler, |c.received|, c.state, c.failures, e);
      var informed := Informed(c, failures, e);
      match Outcome(next)
      case None => informed.(status := Stopped)
      case Some(state) => Enter(informed, state, e.receiverOpen)
  }

  /** The run so far; environments that cannot occur are skipped. */
  ghost function Run(t: Transport, hash: Hash, c: Config, envs: seq<Environment>): Config {
    if envs == [] then c
    else Step(t, hash, Run(t, hash, c, envs[..|envs| - 1]), envs[|envs| - 1])
  }

  // ---------- the loop ----------

  method ProcessIdleWaiting(t: Transport, failures: nat, prev: MachineState, e: Environment)
    returns (next: Result<MachineState, ServiceError>, failures': nat)
    ensures (next, failures') == IdleWaiting(t, failures, prev, e)
  {
    failures' := failures;
    if e.listing == None {
      return Err(RequestCancelled), failures';
    }
    match e.listing.value {
      case Devices(devices) =>
        if devices == [] {
          if t.Usb? && e.sleepCancelled {
            return Err(RequestCancelled), failures';
          }
          return Ok(Waiting), failures';
        } else if t.Usb? {
          return Ok(SelectingDevice(devices)), failures';
        } else {
          return Ok(Connected(devices[0])), failures';
        }
      case ListError(message) =>
        failures' := failures' + 1;
        if failures' == 5 {
          return Err(ListFailure(t, message)), failures';
        } else if e.sleepCancelled {
          return Err(RequestCancelled), failures';
        }
        return Ok(prev), failures';
    }
  }

  method NextState(t: Transport, hash: Hash, handler: nat, messages: nat,
                   prev: MachineState, failures: nat, e: Environment)
    returns (next: Result<MachineState, ServiceError>, failures': nat)
    requires prev.SelectingDevice? ==> Possible(|prev.devices|, e.schedule)
    ensures (next, failures') == Advance(t, hash, handler, messages, prev, failures, e)
  {
    failures' := failures;
    match prev {
      case Idle =>
        next, failures' := ProcessIdleWaiting(t, failures, prev, e);
      case Waiting =>
        next, failures' := ProcessIdleWaiting(t, failures, prev, e);
      case SelectingDevice(devices) =>
        var selection, device, _, _ := SelectDevice(devices, e.schedule);
        next := if device.Some? then Ok(Connected(device.value))
                else if selection.SelectionCancelled? then Err(RequestCancelled) else Ok(Idle);
      case SelectCredential(assertions, _) =>
        next := ChosenCredential(assertions, hash, e.choice);
      case Completed(_) =>
        next := Ok(prev);
      case Failed(_) =>
        next := Ok(prev);
      case _ =>
        next := UserInteraction(t, handler, messages, e.signal);
    }
  }

  /** The loop body: from the state at the head of the loop to the one after it, with what is
      sent in between. `c` is the specification's view of the head. */
  method Iterate(t: Transport, hash: Hash, ghost c: Config, handler: nat, messages: nat,
                 prev: MachineState, failures: nat, e: Environment)
    returns (state: MachineState, failures': nat, messages': nat,
             sent: seq<MachineState>, status: Status)
    requires Applies(t, c, e)
    requires c.handler == handler && |c.received| == messages
    requires c.state == prev && c.failures == failures
    ensures var c' := Step(t, hash, c, e);
            && c'.emitted == c.emitted + sent && c'.status == status
            && c'.state == state && c'.failures == failures'
            && (status.Running? ==> |c'.received| == messages')
  {
    state, failures', messages', sent := prev, failures, messages, [];
    if e.cancelled {
      return state, failures', messages', sent, Stopped;
    }
    var next: Result<MachineState, ServiceError>;
    next, failures' := NextState(t, hash, handler, messages, prev, failures, e);
    messages' := messages + if prev.Interacting() && e.signal.Some? then 1 else 0;
    if next == Err(RequestCancelled) {
      return state, failures', messages', sent, Stopped;
    }
    state := match next case Ok(s) => s case Err(error) => Failed(error);
    if Changed(state, prev) {
      if !e.receiverOpen {
        return state, failures', messages', sent, ReceiverGone;
      }
      sent := [state];
    }
    return state, failures', messages', sent, Ending(state);
  }

  /** The processing loop over the environments it meets. It sends exactly the states that the
      specification emits and ends for the same reason; `spawned` counts the authenticator
      operations it starts. */
  method Process(t: Transport, hash: Hash, handler: nat, envs: seq<Environment>)
    returns (sent: seq<MachineState>, spawned: nat, status: Status)
    requires forall i :: 0 <= i < |envs| ==>
               var c := Run(t, hash, Start(handler), envs[..i]);
               c.status.Running? ==> Applies(t, c, envs[i])
    ensures var c := Run(t, hash, Start(handler), envs);
            sent == c.emitted && spawned == c.spawned && status == c.status
  {
    var state: MachineState, failures, messages: nat := Idle, 0, 0;
    sent, spawned, status := [], 0, Running;
    var i := 0;
    ghost var c := Start(handler);
    while i < |envs| && status.Running?
      invariant 0 <= i <= |envs|
      invariant c == Run(t, hash, Start(handler), envs[..i]) && c.handler == handler
      invariant sent == c.emitted && spawned == c.spawned && status == c.status
      invariant status.Running? ==>
                  state == c.state && failures == c.failures && messages == |c.received|
    {
      spawned := spawned + Spawns(state, envs[i]);
      var emitted;
      state, failures, messages, emitted, status :=
        Iterate(t, hash, c, handler, messages, state, failures, envs[i]);
      sent := sent + emitted;
      StepFrame(t, hash, c, envs[i]);
      c := Step(t, hash, c, envs[i]);
      i := i + 1;
      assert envs[..i][..i - 1] == envs[..i - 1];
    }
    EndedStaysEnded(t, hash, Start(handler), envs, i);
    assert envs[..|envs|] == envs;
  }

  lemma StepFrame(t: Transport, hash: Hash, c: Config, e: Environment)
    requires Applies(t, c, e)
    ensures var c' := Step(t, hash, c, e);
            c'.handler == c.handler && c'.spawned == c.spawned + Spawns(c.state, e)
  {
  }

  /** Once the loop has ended, nothing changes any more. */
  lemma {:induction false} EndedStaysEnded(
    t: Transport, hash: Hash, c: Config, envs: seq<Environment>, i: nat)
    requires i <= |envs|
    ensures !Run(t, hash, c, envs[..i]).status.Running? ==>
              Run(t, hash, c, envs) == Run(t, hash, c, envs[..i])
  {
    if i < |envs| {
      EndedStaysEnded(t, hash, c, envs[..|envs| - 1], i);
      assert envs[..|envs| - 1][..i] == envs[..i];
    } else {
      assert envs[..i] == envs;
    }
  }
}
