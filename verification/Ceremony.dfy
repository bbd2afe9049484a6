/** Whole ceremonies: the service, any number of streams with the handlers behind them, and the
    merged sequence of updates each request produces. A poll is one step; everything else may
    happen between any two steps. */
module Ceremony {
  import opened Basics
  import opened Authenticator
  import opened Service
  import M = AuthenticatorMachine
  import MachineProperties
  import Hybrid
  import Decimal

  datatype Handler =
    | DeviceHandler(transport: M.Transport, machine: M.Config)
    | PhoneHandler(phone: Hybrid.Config)

  /** A stream serves the request it was started for; `taken` counts the events of its handler
      that have been polled. */
  datatype Stream = Stream(request: nat, handler: Handler, taken: nat)

  /** An update that reached the UI: where it came from and what it was. */
  datatype Update = Update(request: nat, stream: nat, index: nat, event: Event)

  datatype System = System(service: State, streams: seq<Stream>, log: seq<Update>)

  datatype Action =
    | InitRequest(id: RequestId)
    | CancelRequest(id: RequestId)
    | StartDevice(transport: M.Transport)
    | StartPhone
    | RunDevice(stream: nat, environment: M.Environment)
    | RunPhone(stream: nat, input: Hybrid.Input)
    | Poll(stream: nat)

  /** The events a handler has sent so far. */
  function Events(h: Handler): seq<Event> {
    match h
    case DeviceHandler(t, c) =>
      seq(|c.emitted|, i requires 0 <= i < |c.emitted| => DeviceEvent(t, c.emitted[i]))
    case PhoneHandler(c) =>
      seq(|c.emitted|, i requires 0 <= i < |c.emitted| => PhoneEvent(c.emitted[i]))
  }

  ghost function AdvanceHandler(hash: Hash, h: Handler, a: Action): Handler {
    match (h, a)
    case (DeviceHandler(t, c), RunDevice(_, e)) => DeviceHandler(t, M.Step(t, hash, c, e))
    case (PhoneHandler(c), RunPhone(_, i)) => PhoneHandler(Hybrid.Step(c, i))
    case _ => h
  }

  /** A new stream belongs to the request in the slot. */
  function StartStream(g: System, h: Handler): System {
    if g.service.slot.None? then g
    else g.(streams := g.streams + [Stream(g.service.slot.value, h, 0)])
  }

  /** The slot and the streams name requests that exist. */
  ghost predicate Wired(g: System) {
    && Slotted(g.service)
    && forall i :: 0 <= i < |g.streams| ==> g.streams[i].request < |g.service.requests|
  }

  ghost function Step(hash: Hash, g: System, a: Action): (g': System)
    requires Wired(g)
    ensures Wired(g')
  {
    match a
    case InitRequest(id) => g.(service := Service.InitRequest(g.service, id).0)
    case CancelRequest(id) => g.(service := Service.CancelRequest(g.service, id))
    case StartDevice(t) => StartStream(g, DeviceHandler(t, M.Start(|g.streams|)))
    case StartPhone => StartStream(g, PhoneHandler(Hybrid.START))
    case Poll(i) => if i < |g.streams| then PollStream(g, i) else g
    case RunDevice(i, _) => if i < |g.streams| then RunHandler(hash, g, i, a) else g
    case RunPhone(i, _) => if i < |g.streams| then RunHandler(hash, g, i, a) else g
  }

  ghost function RunHandler(hash: Hash, g: System, i: nat, a: Action): System
    requires i < |g.streams|
  {
    var st := g.streams[i];
    g.(streams := g.streams[i := st.(handler := AdvanceHandler(hash, st.handler, a))])
  }

  function PollStream(g: System, i: nat): System
    requires Wired(g) && i < |g.streams|
  {
    var st := g.streams[i];
    if st.taken >= |Events(st.handler)| then g
    else
      var event := Events(st.handler)[st.taken];
      var (service, item) := PollReady(g.service, st.request, event);
      System(service, g.streams[i := st.(taken := st.taken + 1)],
             if item.Some? then g.log + [Update(st.request, i, st.taken, event)] else g.log)
  }

  /** The updates of one request, in the order the UI was sent them. */
  function UpdatesOf(log: seq<Update>, k: nat): seq<Event> {
    if log == [] then []
    else
      var last := log[|log| - 1];
      UpdatesOf(log[..|log| - 1], k) + if last.request == k then [last.event] else []
  }

  // ---------- the invariant ----------

  /** The handler of stream `i` is somewhere along one of its own runs. */
  ghost predicate Reached(hash: Hash, h: Handler, i: nat) {
    match h
    case DeviceHandler(t, c) => exists envs :: c == M.Run(t, hash, M.Start(i), envs)
    case PhoneHandler(c) => exists inputs :: c == Hybrid.Run(Hybrid.START, inputs)
  }

  ghost predicate StreamsSound(hash: Hash, g: System) {
    forall i :: 0 <= i < |g.streams| ==>
      && g.streams[i].request < |g.service.requests|
      && Reached(hash, g.streams[i].handler, i)
      && g.streams[i].taken <= |Events(g.streams[i].handler)|
  }

  /** Every update logged is one its stream's handler sent and the poll took. */
  ghost predicate Logged(g: System, u: Update) {
    && u.stream < |g.streams|
    && u.request == g.streams[u.stream].request
    && u.index < g.streams[u.stream].taken <= |Events(g.streams[u.stream].handler)|
    && u.event == Events(g.streams[u.stream].handler)[u.index]
  }

  ghost predicate LogSound(g: System) {
    && (forall p :: 0 <= p < |g.log| ==> Logged(g, g.log[p]))
    && (forall p, q :: 0 <= p < q < |g.log| && g.log[p].stream == g.log[q].stream ==>
          g.log[p].index != g.log[q].index)
  }

  ghost predicate Ongoing(updates: seq<Event>) {
    forall e :: e in updates ==> !Terminal(e)
  }

  /** What the updates of a request say about it: ongoing while it holds the slot; otherwise
      closed by the terminal event whose payload is its reply, or cancelled without one. */
  ghost predicate Verdict(s: State, updates: seq<Event>, k: nat)
    requires k < |s.requests|
  {
    if s.slot == Some(k) then Ongoing(updates)
    else
      || (Ongoing(updates) && s.requests[k].replies == [CancelReply(s.requests[k].id)])
      || ClosedBy(updates, s.requests[k].replies)
  }

  ghost predicate ClosedBy(updates: seq<Event>, replies: seq<Reply>) {
    && updates != [] && Ongoing(updates[..|updates| - 1])
    && Terminal(updates[|updates| - 1])
    && ReplyOf(updates[|updates| - 1]).Some?
    && replies == [ReplyOf(updates[|updates| - 1]).value]
  }

  ghost predicate Verdicts(g: System) {
    forall k :: 0 <= k < |g.service.requests| ==> Verdict(g.service, UpdatesOf(g.log, k), k)
  }

  ghost predicate Sound(hash: Hash, g: System) {
    Agreement(g.service) && StreamsSound(hash, g) && LogSound(g) && Verdicts(g)
  }

  // ---------- one step ----------

  lemma EventsAreNeverCancellations(hash: Hash, h: Handler, i: nat, n: nat)
    requires Reached(hash, h, i) && n < |Events(h)|
    ensures Terminal(Events(h)[n]) ==> ReplyOf(Events(h)[n]).Some?
  {
    match h
    case DeviceHandler(t, c) =>
      var envs :| c == M.Run(t, hash, M.Start(i), envs);
      MachineProperties.RunMovesForward(t, hash, i, envs);
      assert c.emitted[n] in c.emitted;
    case PhoneHandler(c) =>
      var inputs :| c == Hybrid.Run(Hybrid.START, inputs);
      Hybrid.EveryRunIsSound(inputs);
      assert c.emitted[n] != Hybrid.Broken(RequestCancelled);
  }

  lemma AdvanceKeepsHandler(hash: Hash, h: Handler, i: nat, a: Action)
    requires Reached(hash, h, i)
    ensures var h' := AdvanceHandler(hash, h, a);
            && Reached(hash, h', i)
            && |Events(h)| <= |Events(h')|
            && forall n :: 0 <= n < |Events(h)| ==> Events(h')[n] == Events(h)[n]
  {
    match (h, a)
    case (DeviceHandler(t, c), RunDevice(_, e)) => DeviceKeepsReached(t, hash, c, i, e);
    case (PhoneHandler(c), RunPhone(_, input)) =>
      var inputs :| c == Hybrid.Run(Hybrid.START, inputs);
      assert (inputs + [input])[..|inputs|] == inputs;
      assert Hybrid.Step(c, input) == Hybrid.Run(Hybrid.START, inputs + [input]);
    case _ =>
  }

  lemma DeviceKeepsReached(
    t: M.Transport, hash: Hash, c: M.Config, i: nat, e: M.Environment)
    requires Reached(hash, DeviceHandler(t, c), i)
    ensures Reached(hash, DeviceHandler(t, M.Step(t, hash, c, e)), i)
  {
    var envs :| c == M.Run(t, hash, M.Start(i), envs);
    assert (envs + [e])[..|envs|] == envs;
    assert M.Step(t, hash, c, e) == M.Run(t, hash, M.Start(i), envs + [e]);
  }

  lemma RunHandlerKeepsSound(hash: Hash, g: System, i: nat, a: Action)
    requires Sound(hash, g) && i < |g.streams|
    ensures Sound(hash, RunHandler(hash, g, i, a))
  {
    AdvanceKeepsHandler(hash, g.streams[i].handler, i, a);
    var g' := RunHandler(hash, g, i, a);
    forall p | 0 <= p < |g.log| ensures Logged(g', g.log[p]) {
      assert Logged(g, g.log[p]);
    }
  }

  lemma StartKeepsSound(hash: Hash, g: System, h: Handler)
    requires Sound(hash, g) && Reached(hash, h, |g.streams|)
    ensures Sound(hash, StartStream(g, h))
  {
    var g' := StartStream(g, h);
    forall p | 0 <= p < |g.log| ensures Logged(g', g.log[p]) {
      assert Logged(g, g.log[p]);
    }
  }

  /** Updates of requests that do not exist yet cannot have been logged. */
  lemma {:induction false} NoUpdatesYet(log: seq<Update>, k: nat)
    requires forall p :: 0 <= p < |log| ==> log[p].request != k
    ensures UpdatesOf(log, k) == []
  {
    if log != [] {
      NoUpdatesYet(log[..|log| - 1], k);
    }
  }

  lemma {:induction false} RequestUpdatesAreLogged(log: seq<Update>, k: nat, e: Event)
    requires e in UpdatesOf(log, k)
    ensures exists p :: 0 <= p < |log| && log[p].request == k && log[p].event == e
  {
    var init, last := log[..|log| - 1], log[|log| - 1];
    if last.request != k || last.event != e {
      RequestUpdatesAreLogged(init, k, e);
      var p :| 0 <= p < |init| && init[p].request == k && init[p].event == e;
      assert log[p] == init[p];
    }
  }

  lemma {:induction false} LoggedUpdatesAreTheRequests(log: seq<Update>, k: nat, p: nat)
    requires p < |log| && log[p].request == k
    ensures log[p].event in UpdatesOf(log, k)
  {
    if p < |log| - 1 {
      LoggedUpdatesAreTheRequests(log[..|log| - 1], k, p);
    }
  }

  lemma InitKeepsVerdicts(g: System, id: RequestId)
    requires Agreement(g.service) && Verdicts(g)
    requires forall p :: 0 <= p < |g.log| ==> g.log[p].request < |g.service.requests|
    ensures Verdicts(g.(service := Service.InitRequest(g.service, id).0))
  {
    var s := Service.InitRequest(g.service, id).0;
    NoUpdatesYet(g.log, |g.service.requests|);
    forall k | 0 <= k < |g.service.requests| ensures Verdict(s, UpdatesOf(g.log, k), k) {
      assert Verdict(g.service, UpdatesOf(g.log, k), k);
    }
  }

  lemma InitKeepsSound(hash: Hash, g: System, id: RequestId)
    requires Sound(hash, g)
    ensures Sound(hash, g.(service := Service.InitRequest(g.service, id).0))
  {
    InitKeepsAgreement(g.service, id);
    var g' := g.(service := Service.InitRequest(g.service, id).0);
    forall p | 0 <= p < |g.log|
      ensures Logged(g', g.log[p]) && g.log[p].request < |g.service.requests|
    {
      assert Logged(g, g.log[p]);
    }
    InitKeepsVerdicts(g, id);
  }

  lemma CancelKeepsSound(hash: Hash, g: System, id: RequestId)
    requires Sound(hash, g)
    ensures Sound(hash, g.(service := Service.CancelRequest(g.service, id)))
  {
    CancelAnswersOnlyItsRequest(g.service, id);
    var g' := g.(service := Service.CancelRequest(g.service, id));
    forall p | 0 <= p < |g.log| ensures Logged(g', g.log[p]) {
      assert Logged(g, g.log[p]);
    }
  }

  lemma PollKeepsStreams(hash: Hash, g: System, i: nat)
    requires Sound(hash, g) && i < |g.streams|
    ensures StreamsSound(hash, PollStream(g, i))
  {
    var st, g' := g.streams[i], PollStream(g, i);
    if st.taken < |Events(st.handler)| {
      PollAnswersItsOwnRequest(g.service, st.request, Events(st.handler)[st.taken]);
      assert forall j :: 0 <= j < |g.streams| ==>
        g'.streams[j].handler == g.streams[j].handler && g'.streams[j].request == g.streams[j].request;
    }
  }

  /** Logging the next event of a stream as it is taken. */
  lemma TakingKeepsLog(g: System, g': System, i: nat, logged: bool)
    requires LogSound(g) && i < |g.streams|
    requires g.streams[i].taken < |Events(g.streams[i].handler)|
    requires g'.streams == g.streams[i := g.streams[i].(taken := g.streams[i].taken + 1)]
    requires var st := g.streams[i];
             g'.log == if logged then g.log + [Update(st.request, i, st.taken, Events(st.handler)[st.taken])]
                       else g.log
    ensures LogSound(g')
  {
    forall p | 0 <= p < |g.log|
      ensures Logged(g', g.log[p]) && (g.log[p].stream == i ==> g.log[p].index < g.streams[i].taken)
    {
      assert Logged(g, g.log[p]);
    }
  }

  lemma PollKeepsLog(hash: Hash, g: System, i: nat)
    requires Sound(hash, g) && i < |g.streams|
    ensures LogSound(PollStream(g, i))
  {
    var st := g.streams[i];
    if st.taken < |Events(st.handler)| {
      var (_, item) := PollReady(g.service, st.request, Events(st.handler)[st.taken]);
      TakingKeepsLog(g, PollStream(g, i), i, item.Some?);
    }
  }

  /** Logging an update of the request in the slot, and answering it if the update is terminal,
      leaves every request with a verdict. */
  lemma LoggingKeepsVerdicts(s: State, log: seq<Update>, u: Update)
    requires Agreement(s) && s.slot == Some(u.request)
    requires Terminal(u.event) ==> ReplyOf(u.event).Some?
    requires forall k :: 0 <= k < |s.requests| ==> Verdict(s, UpdatesOf(log, k), k)
    ensures var s' := PollReady(s, u.request, u.event).0;
            && Agreement(s')
            && forall k :: 0 <= k < |s'.requests| ==> Verdict(s', UpdatesOf(log + [u], k), k)
  {
    var s' := PollReady(s, u.request, u.event).0;
    PollAnswersItsOwnRequest(s, u.request, u.event);
    assert (log + [u])[..|log|] == log;
    forall k | 0 <= k < |s'.requests| ensures Verdict(s', UpdatesOf(log + [u], k), k) {
      var before, after := UpdatesOf(log, k), UpdatesOf(log + [u], k);
      assert Verdict(s, before, k);
      if k == u.request {
        assert after == before + [u.event];
        assert after[..|after| - 1] == before;
      }
    }
  }

  lemma PollKeepsVerdicts(hash: Hash, g: System, i: nat)
    requires Sound(hash, g) && i < |g.streams|
    ensures Agreement(PollStream(g, i).service) && Verdicts(PollStream(g, i))
  {
    var st := g.streams[i];
    if st.taken < |Events(st.handler)| {
      var event := Events(st.handler)[st.taken];
      PollAnswersItsOwnRequest(g.service, st.request, event);
      if g.service.slot == Some(st.request) {
        EventsAreNeverCancellations(hash, st.handler, i, st.taken);
        LoggingKeepsVerdicts(g.service, g.log, Update(st.request, i, st.taken, event));
      }
    }
  }

  lemma StepKeepsSound(hash: Hash, g: System, a: Action)
    requires Sound(hash, g)
    ensures Sound(hash, Step(hash, g, a))
  {
    match a
    case InitRequest(id) => InitKeepsSound(hash, g, id);
    case CancelRequest(id) => CancelKeepsSound(hash, g, id);
    case StartDevice(t) =>
      assert M.Start(|g.streams|) == M.Run(t, hash, M.Start(|g.streams|), []);
      StartKeepsSound(hash, g, DeviceHandler(t, M.Start(|g.streams|)));
    case StartPhone =>
      assert Hybrid.START == Hybrid.Run(Hybrid.START, []);
      StartKeepsSound(hash, g, PhoneHandler(Hybrid.START));
    case Poll(i) =>
      if i < |g.streams| {
        PollKeepsStreams(hash, g, i);
        PollKeepsLog(hash, g, i);
        PollKeepsVerdicts(hash, g, i);
      }
    case RunDevice(i, _) => if i < |g.streams| { RunHandlerKeepsSound(hash, g, i, a); }
    case RunPhone(i, _) => if i < |g.streams| { RunHandlerKeepsSound(hash, g, i, a); }
  }

  /** A request that has left the slot gets no further update and no further reply. */
  lemma StepFreezes(hash: Hash, g: System, a: Action, k: nat)
    requires Sound(hash, g) && k < |g.service.requests| && g.service.slot != Some(k)
    ensures var g' := Step(hash, g, a);
            && k < |g'.service.requests| && g'.service.slot != Some(k)
            && g'.service.requests[k] == g.service.requests[k]
            && UpdatesOf(g'.log, k) == UpdatesOf(g.log, k)
  {
    match a
    case Poll(i) => if i < |g.streams| { PollFreezes(hash, g, i, k); }
    case InitRequest(id) => InitKeepsAgreement(g.service, id);
    case CancelRequest(id) => CancelAnswersOnlyItsRequest(g.service, id);
    case _ =>
  }

  lemma PollFreezes(hash: Hash, g: System, i: nat, k: nat)
    requires Sound(hash, g)
    requires k < |g.service.requests| && g.service.slot != Some(k) && i < |g.streams|
    ensures var g' := PollStream(g, i);
            && k < |g'.service.requests| && g'.service.slot != Some(k)
            && g'.service.requests[k] == g.service.requests[k]
            && UpdatesOf(g'.log, k) == UpdatesOf(g.log, k)
  {
    if g.streams[i].taken < |Events(g.streams[i].handler)| {
      var st := g.streams[i];
      PollAnswersItsOwnRequest(g.service, st.request, Events(st.handler)[st.taken]);
      assert PollStream(g, i).log[..|g.log|] == g.log;
    }
  }

  /** What the actions do: a stream is started for the current request, its handler runs by itself,
      and polling it forwards its next event as it is. */
  lemma ActionRules(hash: Hash, g: System, i: nat, t: M.Transport, e: M.Environment, input: Hybrid.Input)
    requires Wired(g) && Agreement(g.service)
    ensures g.service.slot.Some? ==>
              var k, n := g.service.slot.value, |g.streams|;
              && Step(hash, g, StartDevice(t)) ==
                 g.(streams := g.streams + [Stream(k, DeviceHandler(t, M.Start(n)), 0)])
              && Step(hash, g, StartPhone) ==
                 g.(streams := g.streams + [Stream(k, PhoneHandler(Hybrid.START), 0)])
    ensures i < |g.streams| ==>
              var st := g.streams[i];
              match st.handler
              case DeviceHandler(t', c) =>
                Step(hash, g, RunDevice(i, e)) ==
                g.(streams := g.streams[i := st.(handler := DeviceHandler(t', M.Step(t', hash, c, e)))])
              case PhoneHandler(c) =>
                Step(hash, g, RunPhone(i, input)) ==
                g.(streams := g.streams[i := st.(handler := PhoneHandler(Hybrid.Step(c, input)))])
    ensures i < |g.streams| && g.streams[i].taken < |Events(g.streams[i].handler)| ==>
              var st, g' := g.streams[i], Step(hash, g, Poll(i));
              && g'.streams == g.streams[i := st.(taken := st.taken + 1)]
              && g'.log == g.log + if g.service.slot != Some(st.request) then []
                                   else [Update(st.request, i, st.taken, Events(st.handler)[st.taken])]
  {
    if i < |g.streams| && g.streams[i].taken < |Events(g.streams[i].handler)| {
      var st := g.streams[i];
      PollAnswersItsOwnRequest(g.service, st.request, Events(st.handler)[st.taken]);
      PollForwards(g.service, st.request, Events(st.handler)[st.taken]);
    }
  }

  lemma PollForwards(s: State, k: nat, e: Event)
    requires Agreement(s) && k < |s.requests|
    ensures PollReady(s, k, e).1 == if s.slot == Some(k) then Some(e) else None
  {
    if s.slot == Some(k) {
      PollDeliversPayload(s, k, e);
    }
  }

  // ---------- every run ----------

  /** Where a system gets to by a sequence of actions. */
  ghost function Continue(hash: Hash, g: System, actions: seq<Action>): (g': System)
    requires Wired(g)
    ensures Wired(g')
  {
    if actions == [] then g
    else
      Step(hash, Continue(hash, g, actions[..|actions| - 1]), actions[|actions| - 1])
  }

  const INITIAL := System(EMPTY, [], [])

  ghost function Run(hash: Hash, actions: seq<Action>): (g: System)
    ensures Wired(g)
  {
    Continue(hash, INITIAL, actions)
  }

  lemma {:induction false} ContinuingKeepsSound(hash: Hash, g: System, actions: seq<Action>)
    requires Sound(hash, g)
    ensures Sound(hash, Continue(hash, g, actions))
  {
    if actions != [] {
      ContinuingKeepsSound(hash, g, actions[..|actions| - 1]);
      StepKeepsSound(hash, Continue(hash, g, actions[..|actions| - 1]), actions[|actions| - 1]);
    }
  }

  lemma EveryRunIsSound(hash: Hash, actions: seq<Action>)
    ensures Sound(hash, Run(hash, actions))
  {
    ContinuingKeepsSound(hash, INITIAL, actions);
  }

  /** At most one request is live, and being live, holding the slot and being unanswered are the
      same thing for every request ever made. */
  lemma SlotTokenAndReplyAgree(hash: Hash, actions: seq<Action>, k: nat)
    requires k < |Run(hash, actions).service.requests|
    ensures var s := Run(hash, actions).service;
            && (s.slot == Some(k) <==> !s.requests[k].cancelled)
            && (s.slot == Some(k) <==> s.requests[k].replies == [])
            && |s.requests[k].replies| <= 1
  {
    EveryRunIsSound(hash, actions);
  }

  /** What the caller waiting for request `k` has received. */
  function Received(s: State, k: nat): Option<Reply>
    requires k < |s.requests|
  {
    if s.requests[k].replies == [] then None else Some(s.requests[k].replies[0])
  }

  /** The operation behind the event's stream has ended. */
  predicate Final(e: Event) {
    match e
    case DeviceEvent(_, s) => s.Completed? || s.Failed?
    case PhoneEvent(s) => s.Done? || s.Broken?
  }

  /** The event ends its operation with this response or this error, which is no cancellation. */
  ghost predicate Carries(e: Event, reply: Reply) {
    match reply
    case Ok(r) =>
      || e == PhoneEvent(Hybrid.Done(r))
      || (e.DeviceEvent? && e.device == M.Completed(r))
    case Err(x) =>
      && x != RequestCancelled
      && (e == PhoneEvent(Hybrid.Broken(x)) || (e.DeviceEvent? && e.device == M.Failed(x)))
  }

  /** The updates of a request are ongoing ones followed by at most one final event. The caller has
      a reply exactly when the request is over, and it is the response or the error of that event,
      or the cancellation error if there was none. */
  ghost predicate Conclusive(s: State, updates: seq<Event>, k: nat)
    requires k < |s.requests|
  {
    && (forall i :: 0 <= i < |updates| && Final(updates[i]) ==> i == |updates| - 1)
    && (Received(s, k).None? <==> s.slot == Some(k))
    && (s.slot == Some(k) ==> forall e :: e in updates ==> !Final(e))
    && (s.slot != Some(k) ==>
          if updates != [] && Final(updates[|updates| - 1])
          then Carries(updates[|updates| - 1], Received(s, k).value)
          else Received(s, k) ==
               Some(Err(Internal("Cancelled request " + Decimal.Print(s.requests[k].id) + "."))))
  }

  lemma VerdictsAreConclusive(s: State, updates: seq<Event>, k: nat)
    requires Agreement(s) && k < |s.requests| && Verdict(s, updates, k)
    ensures Conclusive(s, updates, k)
  {
    forall i | 0 <= i < |updates| && Final(updates[i]) ensures i == |updates| - 1 {
      FinalEventsCarry(updates[i]);
      assert updates[i] in updates;
    }
    if updates != [] {
      FinalEventsCarry(updates[|updates| - 1]);
      assert updates[|updates| - 1] in updates;
    }
  }

  lemma FinalEventsCarry(e: Event)
    ensures Final(e) <==> Terminal(e)
    ensures ReplyOf(e).Some? ==> Carries(e, ReplyOf(e).value)
  {
  }

  lemma CallerGetsTheTerminalEvent(hash: Hash, actions: seq<Action>, k: nat)
    requires k < |Run(hash, actions).service.requests|
    ensures var g := Run(hash, actions); Conclusive(g.service, UpdatesOf(g.log, k), k)
  {
    var g := Run(hash, actions);
    EveryRunIsSound(hash, actions);
    VerdictsAreConclusive(g.service, UpdatesOf(g.log, k), k);
  }

  /** Request `k` is over, and stays as it was. */
  ghost predicate Frozen(g: System, g': System, k: nat) {
    && k < |g.service.requests| && k < |g'.service.requests|
    && g.service.slot != Some(k) && g'.service.slot != Some(k)
    && g'.service.requests[k] == g.service.requests[k]
    && UpdatesOf(g'.log, k) == UpdatesOf(g.log, k)
  }

  lemma FreezesOn(hash: Hash, g: System, mid: System, a: Action, k: nat)
    requires Sound(hash, mid) && Frozen(g, mid, k)
    ensures Frozen(g, Step(hash, mid, a), k)
  {
    StepFreezes(hash, mid, a, k);
  }

  /** Whatever happens later, a request that is over keeps its updates and its reply. */
  lemma {:induction false} FinishedRequestsAreFrozen(
    hash: Hash, g: System, later: seq<Action>, k: nat)
    requires Sound(hash, g) && k < |g.service.requests| && g.service.slot != Some(k)
    ensures Frozen(g, Continue(hash, g, later), k)
  {
    if later != [] {
      var mid := Continue(hash, g, later[..|later| - 1]);
      FinishedRequestsAreFrozen(hash, g, later[..|later| - 1], k);
      ContinuingKeepsSound(hash, g, later[..|later| - 1]);
      FreezesOn(hash, g, mid, later[|later| - 1], k);
    }
  }

  /** A run can be continued from where a shorter one got to. */
  lemma {:induction false} RunsContinue(
    hash: Hash, g: System, actions: seq<Action>, later: seq<Action>)
    requires Wired(g)
    ensures Continue(hash, g, actions + later) ==
            Continue(hash, Continue(hash, g, actions), later)
  {
    if later == [] {
      assert actions + later == actions;
    } else {
      RunsContinue(hash, g, actions, later[..|later| - 1]);
      AllButLast(actions, later);
    }
  }

  lemma AllButLast<T>(a: seq<T>, b: seq<T>)
    requires b != []
    ensures (a + b)[..|a + b| - 1] == a + b[..|b| - 1] && (a + b)[|a + b| - 1] == b[|b| - 1]
  {
  }
}
