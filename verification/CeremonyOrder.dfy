/** The order of updates in whole ceremonies: of every stream the UI is shown the events its handler
    sent, in order and without gaps. */
module CeremonyOrder {
  import opened Basics
  import opened Authenticator
  import opened Service
  import M = AuthenticatorMachine
  import P = MachineProperties
  import Hybrid
  import opened Ceremony

  /** The events of one stream that reached the UI. */
  function EventsOf(log: seq<Update>, i: nat): seq<Event> {
    if log == [] then []
    else
      var last := log[|log| - 1];
      EventsOf(log[..|log| - 1], i) + if last.stream == i then [last.event] else []
  }

  /** What was shown of stream `i` is how its handler began, and everything taken from the stream
      was shown as long as its request is the current one. */
  ghost predicate InOrder(g: System, i: nat)
    requires i < |g.streams|
  {
    var st, shown := g.streams[i], EventsOf(g.log, i);
    && |shown| <= st.taken <= |Events(st.handler)|
    && shown == Events(st.handler)[..|shown|]
    && (g.service.slot == Some(st.request) ==> |shown| == st.taken)
  }

  ghost predicate Ordered(g: System) {
    forall i :: 0 <= i < |g.streams| ==> InOrder(g, i)
  }

  // ---------- one step ----------

  lemma {:induction false} NothingShownYet(log: seq<Update>, i: nat)
    requires forall p :: 0 <= p < |log| ==> log[p].stream != i
    ensures EventsOf(log, i) == []
  {
    if log != [] {
      NothingShownYet(log[..|log| - 1], i);
    }
  }

  lemma StartKeepsOrder(hash: Hash, g: System, h: Handler)
    requires Sound(hash, g) && Ordered(g)
    ensures Ordered(StartStream(g, h))
  {
    var g', n := StartStream(g, h), |g.streams|;
    forall p | 0 <= p < |g.log| ensures g.log[p].stream != n {
      assert Logged(g, g.log[p]);
    }
    NothingShownYet(g.log, n);
    forall i | 0 <= i < |g'.streams| ensures InOrder(g', i) {
      if i < n {
        StreamUnchanged(g, g', i);
      }
    }
  }

  lemma StreamUnchanged(g: System, g': System, i: nat)
    requires i < |g.streams| && i < |g'.streams| && InOrder(g, i)
    requires g'.streams[i] == g.streams[i] && g'.log == g.log
    requires g'.service.slot == Some(g.streams[i].request) ==> g.service.slot == g'.service.slot
    ensures InOrder(g', i)
  {
  }

  lemma RunKeepsOrder(hash: Hash, g: System, i: nat, a: Action)
    requires Sound(hash, g) && Ordered(g) && i < |g.streams|
    ensures Ordered(RunHandler(hash, g, i, a))
  {
    AdvanceKeepsHandler(hash, g.streams[i].handler, i, a);
    var g' := RunHandler(hash, g, i, a);
    forall j | 0 <= j < |g'.streams| ensures InOrder(g', j) {
      assert InOrder(g, j);
    }
  }

  lemma PollKeepsOrder(hash: Hash, g: System, i: nat)
    requires Sound(hash, g) && Ordered(g) && i < |g.streams|
    ensures Ordered(PollStream(g, i))
  {
    forall j | 0 <= j < |g.streams| ensures InOrder(PollStream(g, i), j) {
      PollKeepsInOrder(g, i, j);
    }
  }

  lemma PollKeepsInOrder(g: System, i: nat, j: nat)
    requires Wired(g) && Agreement(g.service) && i < |g.streams| && j < |g.streams|
    requires InOrder(g, i) && InOrder(g, j)
    ensures InOrder(PollStream(g, i), j)
  {
    var st, g' := g.streams[i], PollStream(g, i);
    if st.taken < |Events(st.handler)| {
      var event := Events(st.handler)[st.taken];
      PollAnswersItsOwnRequest(g.service, st.request, event);
      if g.service.slot == Some(st.request) {
        ShownSnoc(g.log, Update(st.request, i, st.taken, event), j);
      }
    }
  }

  lemma ShownSnoc(log: seq<Update>, u: Update, j: nat)
    ensures EventsOf(log + [u], j) == EventsOf(log, j) + if u.stream == j then [u.event] else []
  {
    assert (log + [u])[..|log|] == log;
  }

  lemma StepKeepsOrder(hash: Hash, g: System, a: Action)
    requires Sound(hash, g) && Ordered(g)
    ensures Ordered(Step(hash, g, a))
  {
    match a
    case Poll(i) => if i < |g.streams| { PollKeepsOrder(hash, g, i); }
    case RunDevice(i, _) => if i < |g.streams| { RunKeepsOrder(hash, g, i, a); }
    case RunPhone(i, _) => if i < |g.streams| { RunKeepsOrder(hash, g, i, a); }
    case StartDevice(t) => StartKeepsOrder(hash, g, DeviceHandler(t, M.Start(|g.streams|)));
    case StartPhone => StartKeepsOrder(hash, g, PhoneHandler(Hybrid.START));
    case _ => SlotKeepsOrder(hash, g, a);
  }

  lemma SlotKeepsOrder(hash: Hash, g: System, a: Action)
    requires Sound(hash, g) && Ordered(g) && (a.InitRequest? || a.CancelRequest?)
    ensures Ordered(Step(hash, g, a))
  {
    var g' := Step(hash, g, a);
    forall i | 0 <= i < |g'.streams| ensures InOrder(g', i) {
      StreamUnchanged(g, g', i);
    }
  }

  // ---------- every run ----------

  lemma {:induction false} EveryRunIsOrdered(hash: Hash, actions: seq<Action>)
    ensures Ordered(Run(hash, actions))
  {
    if actions != [] {
      var init := actions[..|actions| - 1];
      EveryRunIsOrdered(hash, init);
      EveryRunIsSound(hash, init);
      StepKeepsOrder(hash, Run(hash, init), actions[|actions| - 1]);
    }
  }

  // ---------- what the UI sees of a machine ----------

  /** The device states among some events. */
  function DeviceStates(events: seq<Event>): (states: seq<M.MachineState>)
    requires forall i :: 0 <= i < |events| ==> events[i].DeviceEvent?
    ensures |states| == |events|
  {
    seq(|events|, i requires 0 <= i < |events| => events[i].device)
  }

  /** In any run of the daemon, what the UI has been shown of a USB or NFC machine is the beginning
      of what its machine entered, repeats dropped, and of the prompts its authenticator asked
      for; all of it once everything the machine sent has been shown. */
  lemma ShownStatesRefineTrace(hash: Hash, actions: seq<Action>, i: nat)
    requires i < |Run(hash, actions).streams| && Run(hash, actions).streams[i].handler.DeviceHandler?
    ensures var g := Run(hash, actions);
            var c, shown := g.streams[i].handler.machine, EventsOf(g.log, i);
            && (forall j :: 0 <= j < |shown| ==> shown[j].DeviceEvent?)
            && P.Dedup([M.VIdle] + P.Variants(DeviceStates(shown))) <= P.Dedup(P.Variants(P.Told(c)))
            && P.Prompts(DeviceStates(shown)) <= P.PromptsOwed(i, c.received)
            && (|shown| == |c.emitted| ==>
                  P.Dedup([M.VIdle] + P.Variants(DeviceStates(shown))) == P.Dedup(P.Variants(P.Told(c))))
  {
    var g := Run(hash, actions);
    EveryRunIsSound(hash, actions);
    EveryRunIsOrdered(hash, actions);
    assert InOrder(g, i);
    var t, c := g.streams[i].handler.transport, g.streams[i].handler.machine;
    assert Reached(hash, DeviceHandler(t, c), i);
    MachineIsSound(hash, t, c, i);
    StatesOfBeginning(t, c, EventsOf(g.log, i));
    P.BeginningsRefine(c, |EventsOf(g.log, i)|);
  }

  lemma MachineIsSound(hash: Hash, t: M.Transport, c: M.Config, i: nat)
    requires Reached(hash, DeviceHandler(t, c), i)
    ensures P.Refines(c) && P.PromptsRelayed(c) && c.handler == i
  {
    var envs :| c == M.Run(t, hash, M.Start(i), envs);
    P.EveryRunIsSound(t, hash, i, envs);
    P.HandlerKept(t, hash, M.Start(i), envs);
  }

  lemma StatesOfBeginning(t: M.Transport, c: M.Config, shown: seq<Event>)
    requires |shown| <= |c.emitted| && shown == Events(DeviceHandler(t, c))[..|shown|]
    ensures forall j :: 0 <= j < |shown| ==> shown[j].DeviceEvent?
    ensures DeviceStates(shown) == c.emitted[..|shown|]
    ensures |shown| == |c.emitted| ==> DeviceStates(shown) == c.emitted
  {
  }
}
