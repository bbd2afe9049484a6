/** What every run of the ceremony machine keeps, for any sequence of environments. */
module MachineProperties {
  import opened Basics
  import opened Authenticator
  import opened DeviceSelection
  import opened AuthenticatorMachine
  import CredentialSelection

  // ---------- views of a history ----------

  function Variants(states: seq<MachineState>): (v: seq<Variant>)
    ensures |v| == |states|
  {
    seq(|states|, i requires 0 <= i < |states| => VariantOf(states[i]))
  }

  /** Drops every element equal to the one before it. */
  function Dedup(v: seq<Variant>): (d: seq<Variant>)
    ensures v != [] ==> d != [] && d[|d| - 1] == v[|v| - 1]
  {
    if |v| <= 1 then v
    else
      var d := Dedup(v[..|v| - 1]);
      if v[|v| - 1] == v[|v| - 2] then d else d + [v[|v| - 1]]
  }

  function Prompts(states: seq<MachineState>): seq<MachineState> {
    if states == [] then []
    else
      var last := states[|states| - 1];
      Prompts(states[..|states| - 1]) + if last.Prompt() then [last] else []
  }

  /** The prompt a handler owes for the `n`th message it received, if it asks for a PIN. */
  function Owed(handler: nat, n: nat, signal: Signal): seq<MachineState> {
    match signal
    case PinRequired(attempts) => [NeedsPin(attempts, PinChannel(handler, n))]
    case NoPinSet(reason) => [PinNotSet(reason, PinChannel(handler, n))]
    case _ => []
  }

  /** The prompts a handler owes for the signals it received, in order. */
  function PromptsOwed(handler: nat, received: seq<Signal>): seq<MachineState> {
    if received == [] then []
    else
      var n := |received| - 1;
      PromptsOwed(handler, received[..n]) + Owed(handler, n, received[n])
  }

  /** Polling for a device and being told that the listing failed. */
  ghost predicate MeetsListFailure(t: Transport, c: Config, e: Environment) {
    && Applies(t, c, e) && (c.state.Idle? || c.state.Waiting?)
    && !e.cancelled && e.listing.Some? && e.listing.value.ListError?
  }

  /** The listing failures the machine met along a run. */
  ghost function ListFailures(t: Transport, hash: Hash, c: Config, envs: seq<Environment>): nat {
    if envs == [] then 0
    else
      var init, last := envs[..|envs| - 1], envs[|envs| - 1];
      ListFailures(t, hash, c, init) +
      if MeetsListFailure(t, Run(t, hash, c, init), last) then 1 else 0
  }

  /** The states entered that somebody was still there to be told about. */
  function Told(c: Config): seq<MachineState> {
    if c.status.ReceiverGone? && c.trace != [] then c.trace[..|c.trace| - 1] else c.trace
  }

  // ---------- beginnings of histories ----------

  lemma {:induction false} DedupPrefix(v: seq<Variant>, m: nat)
    requires m <= |v|
    ensures Dedup(v[..m]) <= Dedup(v)
  {
    if m == |v| {
      assert v[..m] == v;
    } else {
      DedupPrefix(v[..|v| - 1], m);
      assert v[..|v| - 1][..m] == v[..m];
      DedupLast(v);
    }
  }

  lemma DedupLast(v: seq<Variant>)
    requires v != []
    ensures Dedup(v[..|v| - 1]) <= Dedup(v)
  {
  }

  lemma {:induction false} PromptsPrefix(states: seq<MachineState>, m: nat)
    requires m <= |states|
    ensures Prompts(states[..m]) <= Prompts(states)
  {
    if m == |states| {
      assert states[..m] == states;
    } else {
      PromptsPrefix(states[..|states| - 1], m);
      assert states[..|states| - 1][..m] == states[..m];
    }
  }

  // ---------- what every configuration satisfies ----------

  ghost predicate Shaped(c: Config) {
    && c.trace != [] && c.trace[|c.trace| - 1] == c.state
    && (c.status.Running? ==> !c.state.Terminal())
    && (c.status.ReceiverGone? ==> |c.trace| > 1)
  }

  /** The states sent, after the initial Idle and up to repeated variants, are the states entered. */
  ghost predicate Refines(c: Config) {
    Dedup([VIdle] + Variants(c.emitted)) == Dedup(Variants(Told(c)))
  }

  /** Every prompt received is sent by itself, in order, on the channel made for it. */
  ghost predicate PromptsRelayed(c: Config) {
    && Prompts(c.trace) == PromptsOwed(c.handler, c.received)
    && Prompts(c.emitted) == Prompts(Told(c))
  }

  /** Phases never go back, and only discovery and prompting can be entered twice. */
  ghost predicate Monotone(c: Config) {
    forall i, j :: 0 <= i < j < |c.trace| ==>
      && c.trace[i].Phase() <= c.trace[j].Phase()
      && (c.trace[i].Phase() == c.trace[j].Phase() ==> c.trace[i].Phase() in {0, 2})
  }

  ghost predicate SpawnedOnce(c: Config) {
    && c.spawned <= 1
    && (c.state.Phase() == 0 || (c.state.Connected? && c.status.Running?) ==> c.spawned == 0)
  }

  ghost predicate NeverReportsCancellation(c: Config) {
    && (forall s :: s in c.trace ==> s != Failed(RequestCancelled))
    && (forall s :: s in c.emitted ==> s in c.trace)
  }

  ghost predicate WithinBudget(t: Transport, c: Config) {
    && c.failures <= 5
    && (c.status.Running? ==> c.failures <= 4)
    && (c.failures == 5 ==>
          exists message :: c.state == Failed(ListFailure(t, message)))
  }

  /** A USB machine selects among at least one device and connects to one of those; an NFC
      machine never selects and never asks for presence. */
  ghost predicate Discovers(t: Transport, c: Config) {
    && (forall i :: 0 <= i < |c.trace| && c.trace[i].SelectingDevice? ==>
          t.Usb? && c.trace[i].devices != [])
    && (forall i :: 0 <= i < |c.trace| && c.trace[i].NeedsUserPresence? ==> t.Usb?)
    && (forall i :: 0 < i < |c.trace| && c.trace[i].Connected? && t.Usb? ==>
          && c.trace[i - 1].SelectingDevice?
          && c.trace[i].device in c.trace[i - 1].devices)
  }

  /** A completed ceremony hands out what the authenticator answered, or one of the
      assertions the user was choosing from. */
  ghost predicate Earned(c: Config) {
    c.state.Completed? ==>
      && AnsweredBy(c.received, c.state.response)
      && (AnsweredOutright(c.received, c.state.response) || Chosen(c.trace, c.state.response))
  }

  /** The authenticator left nothing to choose. */
  ghost predicate AnsweredOutright(received: seq<Signal>, r: Response) {
    match r
    case Registration(a) => Finished(Ok(Created(a))) in received
    case Authentication(a) => Finished(Ok(Asserted([a]))) in received
  }

  /** The state entered before the last one let the user choose, and this was among the choices. */
  ghost predicate Chosen(trace: seq<MachineState>, r: Response) {
    && |trace| >= 2 && trace[|trace| - 2].SelectCredential?
    && r.Authentication? && r.assertion in trace[|trace| - 2].assertions
  }

  ghost predicate SelectsFromAnswer(c: Config) {
    c.state.SelectCredential? ==> Finished(Ok(Asserted(c.state.assertions))) in c.received
  }

  /** The channel belongs to something this handler has already presented or could have. */
  predicate Past(c: Config, ch: ChannelId) {
    match ch
    case PinChannel(h, n) => h == c.handler && n < |c.received|
    case CredChannel(h) => h == c.handler && c.state.Phase() >= 3
  }

  /** No two states sent share a reply channel. */
  ghost predicate FreshChannels(c: Config) {
    && (forall i :: 0 <= i < |c.emitted| && c.emitted[i].Channel().Some? ==>
          Past(c, c.emitted[i].Channel().value))
    && (forall i, j :: 0 <= i < j < |c.emitted| && c.emitted[i].Channel().Some? ==>
          c.emitted[i].Channel() != c.emitted[j].Channel())
  }

  ghost predicate Sound(t: Transport, c: Config) {
    && Shaped(c) && Refines(c) && PromptsRelayed(c) && Monotone(c) && SpawnedOnce(c)
    && NeverReportsCancellation(c) && WithinBudget(t, c) && Discovers(t, c)
    && Earned(c) && SelectsFromAnswer(c) && FreshChannels(c)
  }

  // ---------- one step ----------

  lemma VariantsSnoc(states: seq<MachineState>, s: MachineState)
    ensures Variants(states + [s]) == Variants(states) + [VariantOf(s)]
  {
  }

  lemma PromptsSnoc(states: seq<MachineState>, s: MachineState)
    ensures Prompts(states + [s]) == Prompts(states) + if s.Prompt() then [s] else []
  {
    assert (states + [s])[..|states|] == states;
  }

  lemma DedupSnoc(v: seq<Variant>, x: Variant)
    requires v != []
    ensures Dedup(v + [x]) == if x == v[|v| - 1] then Dedup(v) else Dedup(v) + [x]
  {
    assert (v + [x])[..|v|] == v;
  }

  /** What a step learns before it enters `next` (`None` if it stops instead). */
  ghost predicate Learns(t: Transport, c: Config, told: Config, next: Option<MachineState>) {
    && told == c.(failures := told.failures, received := told.received, spawned := told.spawned)
    && (told.received == c.received || Extends(told.received, c.received))
    && c.spawned <= told.spawned <= c.spawned + (if c.state.Connected? then 1 else 0)
    && c.failures <= told.failures <= c.failures + 1
    && (told.failures == 5 && c.failures < 5 ==>
          next.Some? && exists m :: next.value == Failed(ListFailure(t, m)))
    && (next.None? ==> PromptsOwed(c.handler, told.received) == PromptsOwed(c.handler, c.received))
    && (next.Some? ==> Leads(t, c, told.received, next.value))
  }

  ghost predicate Extends(longer: seq<Signal>, shorter: seq<Signal>) {
    |longer| == |shorter| + 1 && shorter == longer[..|shorter|]
  }

  /** How the state entered relates to the one left and to what was received in between. */
  ghost predicate Leads(t: Transport, c: Config, received: seq<Signal>, s: MachineState) {
    && c.state.Phase() <= s.Phase()
    && (c.state.Phase() == s.Phase() ==> s.Phase() in {0, 2})
    && PromptsOwed(c.handler, received) ==
         PromptsOwed(c.handler, c.received) + (if s.Prompt() then [s] else [])
    && (s.Prompt() ==>
          s.pinTx == PinChannel(c.handler, |c.received|) && Extends(received, c.received))
    && s != Failed(RequestCancelled)
    && (s.SelectingDevice? ==> t.Usb? && s.devices != [])
    && (s.NeedsUserPresence? ==> t.Usb?)
    && (s.Connected? && t.Usb? ==> c.state.SelectingDevice? && s.device in c.state.devices)
    && (s.SelectCredential? ==>
          s.credTx == CredChannel(c.handler) && Finished(Ok(Asserted(s.assertions))) in received)
    && (s.Completed? ==>
          || (AnsweredOutright(received, s.response) && AnsweredBy(received, s.response))
          || (c.state.SelectCredential? && s.response.Authentication?
              && s.response.assertion in c.state.assertions))
  }

  ghost predicate AnsweredBy(received: seq<Signal>, r: Response) {
    match r
    case Registration(a) => Finished(Ok(Created(a))) in received
    case Authentication(a) =>
      exists assertions :: Finished(Ok(Asserted(assertions))) in received && a in assertions
  }

  lemma DiscoveryLearns(t: Transport, hash: Hash, c: Config, e: Environment)
    requires Applies(t, c, e) && c.state.Phase() == 0
    ensures var (next, failures) := Advance(t, hash, c.handler, |c.received|, c.state, c.failures, e);
            Learns(t, c, Informed(c, failures, e), Outcome(next))
  {
    if c.state.SelectingDevice? {
      ChosenWasTouched(e.schedule, e.schedule.answers);
    }
  }

  lemma OwedSnoc(handler: nat, received: seq<Signal>, signal: Signal)
    ensures PromptsOwed(handler, received + [signal]) ==
            PromptsOwed(handler, received) + Owed(handler, |received|, signal)
  {
    assert (received + [signal])[..|received|] == received;
  }

  lemma InteractionLearns(t: Transport, hash: Hash, c: Config, e: Environment)
    requires Applies(t, c, e) && c.state.Interacting()
    ensures var (next, failures) := Advance(t, hash, c.handler, |c.received|, c.state, c.failures, e);
            Learns(t, c, Informed(c, failures, e), Outcome(next))
  {
    if e.signal.Some? {
      var received := c.received + [e.signal.value];
      OwedSnoc(c.handler, c.received, e.signal.value);
      assert Extends(received, c.received);
      assert received[|c.received|] == e.signal.value;
      if e.signal.value.Finished? {
        AnswerLearns(t, c, e.signal.value.result, received);
      } else {
        PromptLearns(t, c, e.signal.value, received);
      }
    }
  }

  lemma PromptLearns(t: Transport, c: Config, signal: Signal, received: seq<Signal>)
    requires c.state.Interacting() && !signal.Finished? && Extends(received, c.received)
    requires t.Nfc? ==> !signal.PresenceRequired?
    requires PromptsOwed(c.handler, received) ==
             PromptsOwed(c.handler, c.received) + Owed(c.handler, |c.received|, signal)
    ensures var next := Outcome(UserInteraction(t, c.handler, |c.received|, Some(signal)));
            next.Some? && Leads(t, c, received, next.value)
  {
  }

  lemma AnswerLearns(
    t: Transport, c: Config, result: Result<Answer, ServiceError>, received: seq<Signal>)
    requires c.state.Interacting() && Finished(result) in received
    requires PromptsOwed(c.handler, received) == PromptsOwed(c.handler, c.received)
    ensures var next := Outcome(UserInteraction(t, c.handler, |c.received|, Some(Finished(result))));
            next.Some? ==> Leads(t, c, received, next.value)
  {
    if result.Ok? && result.value.Asserted? && |result.value.assertions| == 1 {
      assert result.value.assertions == [result.value.assertions[0]];
    }
  }

  lemma ChoiceLearns(t: Transport, hash: Hash, c: Config, e: Environment)
    requires Applies(t, c, e) && c.state.SelectCredential?
    ensures var (next, failures) := Advance(t, hash, c.handler, |c.received|, c.state, c.failures, e);
            Learns(t, c, Informed(c, failures, e), Outcome(next))
  {
    if e.choice.Some? {
      CredentialSelection.FindsEarliest(c.state.assertions, hash, e.choice.value);
    }
  }

  lemma StopKeepsSound(t: Transport, c: Config, told: Config)
    requires Sound(t, c) && c.status.Running? && Learns(t, c, told, None)
    ensures Sound(t, told.(status := Stopped))
  {
    StopKeepsTrace(t, c, told);
    StopKeepsChannels(t, c, told);
  }

  lemma StopKeepsTrace(t: Transport, c: Config, told: Config)
    requires Shaped(c) && Refines(c) && PromptsRelayed(c) && Monotone(c) && SpawnedOnce(c)
    requires NeverReportsCancellation(c) && WithinBudget(t, c) && Discovers(t, c)
    requires c.status.Running? && Learns(t, c, told, None)
    ensures var c' := told.(status := Stopped);
            && Shaped(c') && Refines(c') && PromptsRelayed(c') && Monotone(c') && SpawnedOnce(c')
            && NeverReportsCancellation(c') && WithinBudget(t, c') && Discovers(t, c')
  {
    assert Told(told.(status := Stopped)) == Told(c);
  }

  lemma StopKeepsChannels(t: Transport, c: Config, told: Config)
    requires Earned(c) && SelectsFromAnswer(c) && FreshChannels(c) && Shaped(c)
    requires c.status.Running? && Learns(t, c, told, None)
    ensures var c' := told.(status := Stopped);
            Earned(c') && SelectsFromAnswer(c') && FreshChannels(c')
  {
  }

  /** Sending a repeated variant or not makes no difference once repeats are dropped. */
  lemma DedupTogether(entered: seq<Variant>, sent: seq<Variant>, x: Variant)
    requires entered != [] && sent != [] && Dedup(sent) == Dedup(entered)
    ensures Dedup(sent + [x]) == Dedup(entered + [x])
    ensures x == entered[|entered| - 1] ==> Dedup(sent) == Dedup(entered + [x])
  {
    DedupSnoc(entered, x);
    DedupSnoc(sent, x);
  }

  lemma EnterVariants(c: Config, s: MachineState, open: bool)
    requires Shaped(c) && c.status.Running?
    ensures var c' := Enter(c, s, open);
            if c'.status.ReceiverGone? then Told(c') == c.trace && c'.emitted == c.emitted
            else
              && Told(c') == c'.trace
              && Variants(c'.trace) == Variants(c.trace) + [VariantOf(s)]
              && (if Changed(s, c.state)
                  then [VIdle] + Variants(c'.emitted) == [VIdle] + Variants(c.emitted) + [VariantOf(s)]
                  else c'.emitted == c.emitted
                       && VariantOf(s) == Variants(c.trace)[|c.trace| - 1])
  {
    VariantsSnoc(c.trace, s);
    VariantsSnoc(c.emitted, s);
  }

  lemma EnterRefines(c: Config, s: MachineState, open: bool)
    requires Shaped(c) && Refines(c) && c.status.Running?
    ensures Refines(Enter(c, s, open))
  {
    EnterVariants(c, s, open);
    DedupTogether(Variants(c.trace), [VIdle] + Variants(c.emitted), VariantOf(s));
  }

  lemma EnterRelays(c: Config, s: MachineState, open: bool)
    requires Shaped(c) && c.status.Running?
    requires Prompts(c.emitted) == Prompts(c.trace)
    requires PromptsOwed(c.handler, c.received) == Prompts(c.trace) + (if s.Prompt() then [s] else [])
    ensures PromptsRelayed(Enter(c, s, open))
  {
    PromptsSnoc(c.trace, s);
    PromptsSnoc(c.emitted, s);
    EnterTold(c, s, open);
  }

  lemma EnterTold(c: Config, s: MachineState, open: bool)
    requires Shaped(c) && c.status.Running?
    ensures Told(Enter(c, s, open)) == c.trace + if Changed(s, c.state) && !open then [] else [s]
    ensures !Changed(s, c.state) ==> !s.Prompt()
  {
  }

  lemma EnterKeepsOrder(t: Transport, c: Config, told: Config, s: MachineState, open: bool)
    requires Shaped(c) && Monotone(c) && SpawnedOnce(c) && c.status.Running?
    requires Learns(t, c, told, Some(s))
    ensures Monotone(Enter(told, s, open)) && SpawnedOnce(Enter(told, s, open))
  {
    var c' := Enter(told, s, open);
    var n := |c.trace|;
    forall i | 0 <= i < n
      ensures c.trace[i].Phase() <= s.Phase()
      ensures c.trace[i].Phase() == s.Phase() ==> s.Phase() in {0, 2}
    {
      if i < n - 1 {
        assert c.trace[i].Phase() <= c.trace[n - 1].Phase();
      }
    }
  }

  lemma EnterKeepsChannels(t: Transport, c: Config, told: Config, s: MachineState, open: bool)
    requires Shaped(c) && FreshChannels(c) && c.status.Running?
    requires Learns(t, c, told, Some(s))
    ensures FreshChannels(Enter(told, s, open))
    ensures forall ch :: Past(c, ch) ==> Past(Enter(told, s, open), ch)
    ensures s.Channel().Some? && Changed(s, c.state) ==>
              !Past(c, s.Channel().value) && Past(Enter(told, s, open), s.Channel().value)
  {
  }

  lemma EnterKeepsBudget(t: Transport, c: Config, told: Config, s: MachineState, open: bool)
    requires Shaped(c) && NeverReportsCancellation(c) && WithinBudget(t, c) && c.status.Running?
    requires Learns(t, c, told, Some(s))
    ensures var c' := Enter(told, s, open);
            Shaped(c') && NeverReportsCancellation(c') && WithinBudget(t, c')
  {
  }

  lemma EnterKeepsDiscovery(t: Transport, c: Config, told: Config, s: MachineState, open: bool)
    requires Shaped(c) && Discovers(t, c) && Learns(t, c, told, Some(s))
    ensures Discovers(t, Enter(told, s, open))
  {
    var trace := Enter(told, s, open).trace;
    forall i | 0 <= i < |trace|
      ensures trace[i].SelectingDevice? ==> t.Usb? && trace[i].devices != []
      ensures trace[i].NeedsUserPresence? ==> t.Usb?
      ensures 0 < i && trace[i].Connected? && t.Usb? ==>
                trace[i - 1].SelectingDevice? && trace[i].device in trace[i - 1].devices
    {
      assert i < |c.trace| ==> trace[i] == c.trace[i];
      assert i == |c.trace| ==> trace[i] == s;
    }
  }

  lemma EnterKeepsEarned(t: Transport, c: Config, told: Config, s: MachineState, open: bool)
    requires Shaped(c) && SelectsFromAnswer(c) && Learns(t, c, told, Some(s))
    ensures Earned(Enter(told, s, open)) && SelectsFromAnswer(Enter(told, s, open))
  {
    if c.state.SelectCredential? {
      assert told.received != c.received ==> c.received == told.received[..|c.received|];
      assert Finished(Ok(Asserted(c.state.assertions))) in told.received;
    }
  }

  lemma EnterKeepsSound(t: Transport, c: Config, told: Config, s: MachineState, open: bool)
    requires Sound(t, c) && c.status.Running? && Learns(t, c, told, Some(s))
    ensures Sound(t, Enter(told, s, open))
  {
    EnterRefines(told, s, open);
    EnterRelays(told, s, open);
    EnterKeepsOrder(t, c, told, s, open);
    EnterKeepsChannels(t, c, told, s, open);
    EnterKeepsBudget(t, c, told, s, open);
    EnterKeepsDiscovery(t, c, told, s, open);
    EnterKeepsEarned(t, c, told, s, open);
  }

  lemma StepKeepsSound(t: Transport, hash: Hash, c: Config, e: Environment)
    requires Sound(t, c)
    ensures Sound(t, Step(t, hash, c, e))
  {
    if Applies(t, c, e) {
      var told, next := StepCases(t, hash, c, e);
      match next
      case None => StopKeepsSound(t, c, told);
      case Some(s) => EnterKeepsSound(t, c, told, s, e.receiverOpen);
    }
  }

  /** A step either stops or enters a state, after learning what that takes. */
  lemma StepCases(t: Transport, hash: Hash, c: Config, e: Environment)
    returns (told: Config, next: Option<MachineState>)
    requires Applies(t, c, e) && !c.state.Terminal()
    ensures Learns(t, c, told, next)
    ensures Step(t, hash, c, e) ==
            match next
            case None => told.(status := Stopped)
            case Some(s) => Enter(told, s, e.receiverOpen)
  {
    if e.cancelled {
      told := c.(spawned := c.spawned + Spawns(c.state, e));
      next := None;
    } else {
      var (result, failures) := Advance(t, hash, c.handler, |c.received|, c.state, c.failures, e);
      StepLearns(t, hash, c, e);
      told, next := Informed(c, failures, e), Outcome(result);
    }
  }

  lemma StepLearns(t: Transport, hash: Hash, c: Config, e: Environment)
    requires Applies(t, c, e) && !c.state.Terminal()
    ensures var (next, failures) := Advance(t, hash, c.handler, |c.received|, c.state, c.failures, e);
            Learns(t, c, Informed(c, failures, e), Outcome(next))
  {
    if c.state.Phase() == 0 {
      DiscoveryLearns(t, hash, c, e);
    } else if c.state.SelectCredential? {
      ChoiceLearns(t, hash, c, e);
    } else {
      InteractionLearns(t, hash, c, e);
    }
  }

  /** One step sends nothing or the state it enters; what it sends is never a cancellation, and
      any reply channel it hands out is new. */
  lemma StepEmission(t: Transport, hash: Hash, c: Config, e: Environment)
    requires Sound(t, c)
    ensures var c' := Step(t, hash, c, e);
            && c'.handler == c.handler
            && (c'.emitted == c.emitted || c'.emitted == c.emitted + [c'.state])
            && (c'.emitted != c.emitted ==>
                  && c'.state != Failed(RequestCancelled)
                  && (c'.state.Channel().Some? ==>
                        !Past(c, c'.state.Channel().value) && Past(c', c'.state.Channel().value)))
            && forall ch :: Past(c, ch) ==> Past(c', ch)
  {
    if Applies(t, c, e) {
      var told, next := StepCases(t, hash, c, e);
      if next.Some? {
        EnterKeepsChannels(t, c, told, next.value, e.receiverOpen);
      }
    }
  }

  // ---------- every run ----------

  lemma StartIsSound(t: Transport, handler: nat)
    ensures Sound(t, Start(handler))
  {
    assert [VIdle] + Variants([]) == Variants([Idle]);
  }

  lemma {:induction false} EveryRunIsSound(
    t: Transport, hash: Hash, handler: nat, envs: seq<Environment>)
    ensures Sound(t, Run(t, hash, Start(handler), envs))
  {
    if envs == [] {
      StartIsSound(t, handler);
    } else {
      var n := |envs| - 1;
      EveryRunIsSound(t, hash, handler, envs[..n]);
      StepKeepsSound(t, hash, Run(t, hash, Start(handler), envs[..n]), envs[n]);
    }
  }

  lemma StepCountsListFailure(t: Transport, hash: Hash, c: Config, e: Environment)
    ensures Step(t, hash, c, e).failures ==
            c.failures + if MeetsListFailure(t, c, e) then 1 else 0
  {
  }

  /** Choosing any credential that was shown completes the ceremony with an assertion shown
      under that very string, and sends it if somebody listens. */
  lemma ShownCredentialCompletes(t: Transport, hash: Hash, c: Config, e: Environment)
    requires Applies(t, c, e) && c.state.SelectCredential? && !e.cancelled
    requires CredentialSelection.Presentable(c.state.assertions)
    requires e.choice.Some? && e.choice.value in CredentialSelection.Present(c.state.assertions, hash)
    ensures var s := Step(t, hash, c, e).state;
            && s.Completed? && s.response.Authentication?
            && s.response.assertion in c.state.assertions
            && CredentialSelection.Matches(s.response.assertion, hash, e.choice.value)
            && (e.receiverOpen ==> Step(t, hash, c, e).emitted == c.emitted + [s])
  {
    CredentialSelection.SelectionInvertsPresentation(c.state.assertions, hash, e.choice.value);
  }

  lemma {:induction false} FailuresCountListFailures(
    t: Transport, hash: Hash, c: Config, envs: seq<Environment>)
    ensures Run(t, hash, c, envs).failures == c.failures + ListFailures(t, hash, c, envs)
  {
    if envs != [] {
      var init, last := envs[..|envs| - 1], envs[|envs| - 1];
      FailuresCountListFailures(t, hash, c, init);
      StepCountsListFailure(t, hash, Run(t, hash, c, init), last);
    }
  }

  /** The counter never resets: a run meets at most five failed listings, a running machine at
      most four, and the fifth ends the run with an internal error. */
  lemma DiscoveryFailureBudget(t: Transport, hash: Hash, handler: nat, envs: seq<Environment>)
    ensures var c := Run(t, hash, Start(handler), envs);
            var met := ListFailures(t, hash, Start(handler), envs);
            && met <= 5
            && (c.status.Running? ==> met <= 4)
            && (met == 5 ==> exists m :: c.state == Failed(ListFailure(t, m)))
  {
    FailuresCountListFailures(t, hash, Start(handler), envs);
    var c := Run(t, hash, Start(handler), envs);
    assert WithinBudget(t, c) by { EveryRunIsSound(t, hash, handler, envs); }
  }

  /** What is sent refines what happens. All states entered count, except for the last one of a
      run that ended because nobody was there to be told about it. */
  lemma EmissionRefinesTrace(t: Transport, hash: Hash, handler: nat, envs: seq<Environment>)
    ensures var c := Run(t, hash, Start(handler), envs);
            && Dedup([VIdle] + Variants(c.emitted)) == Dedup(Variants(Told(c)))
            && Prompts(c.emitted) == Prompts(Told(c))
            && Prompts(c.trace) == PromptsOwed(handler, c.received)
            && (!c.status.ReceiverGone? ==> Told(c) == c.trace)
            && (c.status.ReceiverGone? ==> Told(c) + [c.state] == c.trace)
  {
    EveryRunIsSound(t, hash, handler, envs);
    HandlerKept(t, hash, Start(handler), envs);
    SoundMeansRefined(t, Run(t, hash, Start(handler), envs));
  }

  /** A machine that still runs has sent nothing terminal. */
  lemma RunningHasNotFinished(c: Config)
    requires Shaped(c) && Monotone(c) && NeverReportsCancellation(c) && c.status.Running?
    ensures forall s :: s in c.emitted ==> !s.Terminal()
  {
    forall s | s in c.emitted ensures !s.Terminal() {
      var n :| 0 <= n < |c.trace| && c.trace[n] == s;
      assert n < |c.trace| - 1 ==> c.trace[n].Phase() <= c.trace[|c.trace| - 1].Phase();
    }
  }

  lemma {:induction false} OwedOnPinChannels(handler: nat, received: seq<Signal>)
    ensures forall s :: s in PromptsOwed(handler, received) ==> s.Prompt() && s.pinTx.PinChannel?
  {
    if received != [] {
      OwedOnPinChannels(handler, received[..|received| - 1]);
    }
  }

  lemma {:induction false} PromptsAreKept(states: seq<MachineState>, n: nat)
    requires n < |states| && states[n].Prompt()
    ensures states[n] in Prompts(states)
  {
    if n < |states| - 1 {
      PromptsAreKept(states[..|states| - 1], n);
    }
  }

  /** PINs are only ever asked for on PIN channels. */
  lemma PromptsUsePinChannels(c: Config, n: nat)
    requires Refines(c) && PromptsRelayed(c) && n < |c.emitted| && c.emitted[n].Prompt()
    ensures c.emitted[n].pinTx.PinChannel?
  {
    PromptsAreKept(c.emitted, n);
    BeginningsRefine(c, |c.emitted|);
    assert c.emitted[..|c.emitted|] == c.emitted;
    OwedOnPinChannels(c.handler, c.received);
  }

  /** A completion that was sent is the state the machine is in, and was answered. */
  lemma SentCompletionsAreAnswered(t: Transport, c: Config, response: Response)
    requires Sound(t, c) && Completed(response) in c.emitted
    ensures c.state == Completed(response) && AnsweredBy(c.received, response)
  {
    assert Completed(response) in c.trace;
    var n :| 0 <= n < |c.trace| && c.trace[n] == Completed(response);
    var last := |c.trace| - 1;
    if n < last {
      assert false;
    }
  }

  /** Whatever has been sent so far is a beginning of what the machine entered and was asked for. */
  lemma BeginningsRefine(c: Config, m: nat)
    requires Refines(c) && PromptsRelayed(c) && m <= |c.emitted|
    ensures Dedup([VIdle] + Variants(c.emitted[..m])) <= Dedup(Variants(Told(c)))
    ensures Prompts(c.emitted[..m]) <= PromptsOwed(c.handler, c.received)
  {
    var sent, told := [VIdle] + Variants(c.emitted), Told(c);
    assert [VIdle] + Variants(c.emitted[..m]) == sent[..m + 1];
    DedupPrefix(sent, m + 1);
    assert told == c.trace[..|told|];
    PromptsPrefix(c.emitted, m);
    PromptsPrefix(c.trace, |told|);
  }

  lemma SoundMeansRefined(t: Transport, c: Config)
    requires Sound(t, c)
    ensures Dedup([VIdle] + Variants(c.emitted)) == Dedup(Variants(Told(c)))
    ensures Prompts(c.emitted) == Prompts(Told(c))
    ensures Prompts(c.trace) == PromptsOwed(c.handler, c.received)
    ensures !c.status.ReceiverGone? ==> Told(c) == c.trace
    ensures c.status.ReceiverGone? ==> Told(c) + [c.state] == c.trace
  {
  }

  lemma {:induction false} HandlerKept(t: Transport, hash: Hash, c: Config, envs: seq<Environment>)
    ensures Run(t, hash, c, envs).handler == c.handler
  {
    if envs != [] {
      HandlerKept(t, hash, c, envs[..|envs| - 1]);
    }
  }

  /** A run passes through its phases in order and connects at most once, so it starts at most
      one authenticator operation; nothing follows a terminal state, and no state entered or
      sent reports a cancellation. */
  lemma RunMovesForward(t: Transport, hash: Hash, handler: nat, envs: seq<Environment>)
    ensures var c := Run(t, hash, Start(handler), envs);
            && (forall i, j :: 0 <= i < j < |c.trace| ==>
                  && c.trace[i].Phase() <= c.trace[j].Phase()
                  && !(c.trace[i].Connected? && c.trace[j].Connected?)
                  && !c.trace[i].Terminal())
            && c.spawned <= 1
            && (c.status.Running? ==> !c.state.Terminal())
            && Failed(RequestCancelled) !in c.trace && Failed(RequestCancelled) !in c.emitted
  {
    var c := Run(t, hash, Start(handler), envs);
    assert Shaped(c) && Monotone(c) && SpawnedOnce(c) && NeverReportsCancellation(c) by {
      EveryRunIsSound(t, hash, handler, envs);
    }
    forall i, j | 0 <= i < j < |c.trace|
      ensures !(c.trace[i].Connected? && c.trace[j].Connected?) && !c.trace[i].Terminal()
    {
      assert c.trace[i].Phase() == c.trace[j].Phase() ==> c.trace[i].Phase() in {0, 2};
    }
  }

  /** An assertion completes a run only if it was the only one the authenticator answered, or if
      the user was asked and it was among the choices. */
  lemma NoChoiceIsMadeForTheUser(t: Transport, hash: Hash, handler: nat, envs: seq<Environment>)
    ensures var c := Run(t, hash, Start(handler), envs);
            c.state.Completed? && c.state.response.Authentication? ==>
              var a := c.state.response.assertion;
              || Finished(Ok(Asserted([a]))) in c.received
              || (&& |c.trace| >= 2 && c.trace[|c.trace| - 2].SelectCredential?
                  && a in c.trace[|c.trace| - 2].assertions)
  {
    EveryRunIsSound(t, hash, handler, envs);
  }

  /** Device selection always has a device to wait for, a connection is to one of the devices
      that were listed, and a completion is earned. */
  lemma RunDiscoversAndEarns(t: Transport, hash: Hash, handler: nat, envs: seq<Environment>)
    ensures var c := Run(t, hash, Start(handler), envs);
            Discovers(t, c) && Earned(c) && FreshChannels(c)
  {
    EveryRunIsSound(t, hash, handler, envs);
  }
}
