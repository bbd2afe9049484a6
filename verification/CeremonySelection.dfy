/** A credential selection inside a whole ceremony, from the UI event to the reply. */
module CeremonySelection {
  import opened Basics
  import opened Authenticator
  import opened Service
  import CredentialSelection
  import M = AuthenticatorMachine
  import MachineProperties
  import opened Ceremony
  import CeremonyOrder
  import opened PinRouting
  import opened CeremonyRouting

  // ---------- from the UI to the machine ----------

  lemma {:induction false} DeliveredWasEntered(history: seq<Occurrence>, s: Sent)
    requires s in Deliveries(history)
    ensures Entered(s.kind, s.value) in history
  {
    var init, last := history[..|history| - 1], history[|history| - 1];
    if s in Deliveries(init) {
      DeliveredWasEntered(init, s);
    } else {
      assert last == Entered(s.kind, s.value);
    }
  }

  lemma {:induction false} SentOnWasSent(sent: seq<Sent>, ch: M.ChannelId)
    requires SentOn(sent, ch) != []
    ensures exists s :: s in sent && s.channel == ch && s.value == SentOn(sent, ch)[0]
  {
    var init, last := sent[..|sent| - 1], sent[|sent| - 1];
    if SentOn(init, ch) != [] {
      SentOnWasSent(init, ch);
      var s :| s in init && s.channel == ch && s.value == SentOn(init, ch)[0];
      assert s in sent;
    } else {
      assert last in sent && last.channel == ch;
    }
  }

  /** Events offer a machine's selection channel for selections only. */
  lemma SelectionsUseTheirChannel(hash: Hash, h: Handler, i: nat, n: nat, kind: Kind)
    requires Reached(hash, h, i) && n < |Events(h)|
    requires PromptOf(Shown(Events(h)[n])) == Some(Prompt(kind, M.CredChannel(i)))
    ensures kind.Selection?
  {
    if h.DeviceHandler? {
      var t, c := h.transport, h.machine;
      CeremonyOrder.MachineIsSound(hash, t, c, i);
      if c.emitted[n].Prompt() {
        MachineProperties.PromptsUsePinChannels(c, n);
      }
    }
  }

  /** A prompt shown on a machine's selection channel asks for a selection. */
  lemma ShownOnCredChannel(
    hash: Hash, actions: seq<Action>, k: nat, i: nat, history: seq<Occurrence>, n: nat, kind: Kind)
    requires Updates(history) == UpdatesOf(Run(hash, actions).log, k)
    requires n < |history| && PromptOf(history[n]) == Some(Prompt(kind, M.CredChannel(i)))
    ensures kind.Selection?
  {
    var g := Run(hash, actions);
    ShownIsAnUpdate(history, n);
    RequestUpdatesAreLogged(g.log, k, history[n].update);
    var p :| 0 <= p < |g.log| && g.log[p].request == k && g.log[p].event == history[n].update;
    EveryRunIsSound(hash, actions);
    var u := g.log[p];
    assert Logged(g, u);
    HandlersOfferTheirOwnChannels(hash, g.streams[u.stream].handler, u.stream, u.index);
    SelectionsUseTheirChannel(hash, g.streams[u.stream].handler, i, u.index, kind);
  }

  /** What arrives on a machine's selection channel is what the user entered as a selection. */
  lemma ArrivedWasSelected(
    hash: Hash, actions: seq<Action>, k: nat, i: nat, history: seq<Occurrence>)
    requires Updates(history) == UpdatesOf(Run(hash, actions).log, k)
    requires SentOn(Route(history).sent, M.CredChannel(i)) != []
    ensures var arrived := SentOn(Route(history).sent, M.CredChannel(i));
            |arrived| == 1 && Entered(Selection, arrived[0]) in history
  {
    var sent := Route(history).sent;
    CeremonyPromptsAnsweredOnce(hash, actions, k, history);
    SentOnWasSent(sent, M.CredChannel(i));
    var s :| s in sent && s.channel == M.CredChannel(i) && s.value == SentOn(sent, M.CredChannel(i))[0];
    DeliveredWasEntered(history, s);
    UpdatesGiveSeparatePrompts(hash, actions, k, history);
    SentAnswersPrompt(history, s);
    var n :| 0 <= n < |history| && PromptOf(history[n]) == Some(Prompt(s.kind, s.channel));
    ShownOnCredChannel(hash, actions, k, i, history, n, s.kind);
  }

  lemma SentAnswersPrompt(history: seq<Occurrence>, s: Sent)
    requires SeparatePrompts(history) && s in Route(history).sent
    ensures Prompted(history, Prompt(s.kind, s.channel))
  {
    RoutingIsOrderly(history);
  }

  // ---------- from the machine to the caller ----------

  function Polls(i: nat, m: nat): (polls: seq<Action>)
    ensures |polls| == m
  {
    seq(m, _ => Poll(i))
  }

  /** Polling a live stream over events that are not terminal only takes them. */
  lemma {:induction false} PollsPassOn(hash: Hash, g: System, i: nat, m: nat)
    requires Wired(g) && Agreement(g.service)
    requires i < |g.streams| && g.service.slot == Some(g.streams[i].request)
    requires g.streams[i].taken + m <= |Events(g.streams[i].handler)|
    requires forall n :: g.streams[i].taken <= n < g.streams[i].taken + m ==>
               !Terminal(Events(g.streams[i].handler)[n])
    ensures var g', st := Continue(hash, g, Polls(i, m)), g.streams[i];
            && g'.service == g.service && i < |g'.streams|
            && g'.streams[i] == st.(taken := st.taken + m)
  {
    if m > 0 {
      PollsPassOn(hash, g, i, m - 1);
      PollsSnoc(hash, g, i, m);
      OnePollPassesOn(hash, Continue(hash, g, Polls(i, m - 1)), i);
    }
  }

  lemma OnePollPassesOn(hash: Hash, g: System, i: nat)
    requires Wired(g) && Agreement(g.service)
    requires i < |g.streams| && g.service.slot == Some(g.streams[i].request)
    requires g.streams[i].taken < |Events(g.streams[i].handler)|
    requires !Terminal(Events(g.streams[i].handler)[g.streams[i].taken])
    ensures var g', st := Step(hash, g, Poll(i)), g.streams[i];
            && g'.service == g.service && i < |g'.streams|
            && g'.streams[i] == st.(taken := st.taken + 1)
  {
    var st := g.streams[i];
    PollAnswersItsOwnRequest(g.service, st.request, Events(st.handler)[st.taken]);
  }

  lemma PollsSnoc(hash: Hash, g: System, i: nat, m: nat)
    requires Wired(g) && m > 0
    ensures Continue(hash, g, Polls(i, m)) ==
            Step(hash, Continue(hash, g, Polls(i, m - 1)), Poll(i))
  {
    assert Polls(i, m)[..m - 1] == Polls(i, m - 1);
  }

  /** Polling a stream until nothing is left. */
  function PollsLeft(g: System, i: nat): seq<Action>
    requires i < |g.streams|
  {
    var st := g.streams[i];
    Polls(i, if st.taken <= |Events(st.handler)| then |Events(st.handler)| - st.taken else 0)
  }

  /** Polling a live stream up to a last event that carries a reply delivers that reply. */
  lemma PollsDeliver(hash: Hash, g: System, i: nat, reply: Reply)
    requires Wired(g) && Agreement(g.service)
    requires i < |g.streams| && g.service.slot == Some(g.streams[i].request)
    requires LastCarries(Events(g.streams[i].handler), reply)
    requires g.streams[i].taken < |Events(g.streams[i].handler)|
    ensures var k, g' := g.streams[i].request, Continue(hash, g, PollsLeft(g, i));
            k < |g'.service.requests| && Received(g'.service, k) == Some(reply)
  {
    var st := g.streams[i];
    var m := |Events(st.handler)| - st.taken;
    PollsPassOn(hash, g, i, m - 1);
    PollsSnoc(hash, g, i, m);
    LastPollDelivers(hash, Continue(hash, g, Polls(i, m - 1)), i, reply);
  }

  lemma LastPollDelivers(hash: Hash, g: System, i: nat, reply: Reply)
    requires Wired(g) && Agreement(g.service)
    requires i < |g.streams| && g.service.slot == Some(g.streams[i].request)
    requires LastCarries(Events(g.streams[i].handler), reply)
    requires g.streams[i].taken == |Events(g.streams[i].handler)| - 1
    ensures var k, g' := g.streams[i].request, Step(hash, g, Poll(i));
            k < |g'.service.requests| && Received(g'.service, k) == Some(reply)
  {
    var st := g.streams[i];
    PollAnswersItsOwnRequest(g.service, st.request, Events(st.handler)[st.taken]);
  }

  /** The last of these events, and no other, is terminal, and this is its reply. */
  ghost predicate LastCarries(events: seq<Event>, reply: Reply) {
    && events != [] && ReplyOf(events[|events| - 1]) == Some(reply)
    && forall n :: 0 <= n < |events| - 1 ==> !Terminal(events[n])
  }

  // ---------- together ----------

  /** The machine behind stream `i` waits for the user to choose, and its request is current. */
  ghost predicate Choosing(g: System, i: nat) {
    && i < |g.streams| && g.streams[i].handler.DeviceHandler?
    && g.streams[i].handler.machine.status.Running?
    && g.streams[i].handler.machine.state.SelectCredential?
    && g.service.slot == Some(g.streams[i].request)
  }

  /** A running machine takes `choice`, which it had shown, uncancelled and listened to. */
  ghost predicate Takes(t: M.Transport, hash: Hash, c: M.Config, e: M.Environment, choice: string) {
    && M.Applies(t, c, e) && c.state.SelectCredential?
    && !e.cancelled && e.receiverOpen && e.choice == Some(choice)
    && CredentialSelection.Presentable(c.state.assertions)
    && choice in CredentialSelection.Present(c.state.assertions, hash)
  }

  lemma MachineSends(t: M.Transport, hash: Hash, c: M.Config, e: M.Environment, choice: string)
    returns (a: Assertion)
    requires MachineProperties.Sound(t, c) && Takes(t, hash, c, e, choice)
    ensures a in c.state.assertions && CredentialSelection.Matches(a, hash, choice)
    ensures M.Step(t, hash, c, e).emitted == c.emitted + [M.Completed(Authentication(a))]
    ensures forall n :: 0 <= n < |c.emitted| ==> !c.emitted[n].Terminal()
  {
    MachineProperties.RunningHasNotFinished(c);
    MachineProperties.ShownCredentialCompletes(t, hash, c, e);
    a := M.Step(t, hash, c, e).state.response.assertion;
  }

  lemma ReachedIsSound(hash: Hash, t: M.Transport, c: M.Config, i: nat)
    requires Reached(hash, DeviceHandler(t, c), i)
    ensures MachineProperties.Sound(t, c)
  {
    var envs :| c == M.Run(t, hash, M.Start(i), envs);
    MachineProperties.EveryRunIsSound(t, hash, i, envs);
  }

  lemma LastEventCarries(t: M.Transport, c: M.Config, before: seq<M.MachineState>, r: Response)
    requires c.emitted == before + [M.Completed(r)]
    requires forall n :: 0 <= n < |before| ==> !before[n].Terminal()
    ensures LastCarries(Events(DeviceHandler(t, c)), Ok(r))
    ensures |Events(DeviceHandler(t, c))| == |before| + 1
  {
    var events := Events(DeviceHandler(t, c));
    forall n | 0 <= n < |events| - 1 ensures !Terminal(events[n]) {
      assert events[n].device == before[n];
    }
  }

  /** The caller of request `k` has one of the assertions, and it was shown under `choice`. */
  ghost predicate AnsweredAs(
    s: State, hash: Hash, k: nat, assertions: seq<Assertion>, choice: string)
  {
    k < |s.requests| &&
    exists a :: a in assertions && CredentialSelection.Matches(a, hash, choice)
      && Received(s, k) == Some(Ok(Authentication(a)))
  }

  /** The system once the machine has taken its environment and its stream has been polled. */
  ghost function After(hash: Hash, g: System, i: nat, e: M.Environment): System
    requires Wired(g) && i < |g.streams|
  {
    var g' := Step(hash, g, RunDevice(i, e));
    Continue(hash, g', PollsLeft(g', i))
  }

  lemma TakenChoiceIsAnswered(hash: Hash, g: System, i: nat, e: M.Environment, choice: string)
    requires Wired(g) && Agreement(g.service) && Choosing(g, i)
    requires var st := g.streams[i];
             && st.taken <= |st.handler.machine.emitted|
             && MachineProperties.Sound(st.handler.transport, st.handler.machine)
             && Takes(st.handler.transport, hash, st.handler.machine, e, choice)
    ensures AnsweredAs(After(hash, g, i, e).service, hash, g.streams[i].request,
                       g.streams[i].handler.machine.state.assertions, choice)
  {
    var h := g.streams[i].handler;
    var a := MachineSends(h.transport, hash, h.machine, e, choice);
    SentCompletionIsDelivered(hash, g, i, e, Authentication(a));
  }

  lemma SentCompletionIsDelivered(hash: Hash, g: System, i: nat, e: M.Environment, r: Response)
    requires Wired(g) && Agreement(g.service) && Choosing(g, i)
    requires var st := g.streams[i];
             var c := st.handler.machine;
             && st.taken <= |c.emitted|
             && M.Step(st.handler.transport, hash, c, e).emitted == c.emitted + [M.Completed(r)]
             && forall n :: 0 <= n < |c.emitted| ==> !c.emitted[n].Terminal()
    ensures var k, g' := g.streams[i].request, After(hash, g, i, e);
            k < |g'.service.requests| && Received(g'.service, k) == Some(Ok(r))
  {
    var t, c := g.streams[i].handler.transport, g.streams[i].handler.machine;
    LastEventCarries(t, M.Step(t, hash, c, e), c.emitted, r);
    PollsDeliver(hash, Step(hash, g, RunDevice(i, e)), i, Ok(r));
  }

  lemma StreamIsSound(hash: Hash, g: System, i: nat)
    requires Sound(hash, g) && i < |g.streams| && g.streams[i].handler.DeviceHandler?
    ensures var h := g.streams[i].handler;
            MachineProperties.Sound(h.transport, h.machine)
            && g.streams[i].taken <= |h.machine.emitted|
  {
    var t, c := g.streams[i].handler.transport, g.streams[i].handler.machine;
    assert Reached(hash, DeviceHandler(t, c), i);
    ReachedIsSound(hash, t, c, i);
  }

  /** In any run: if what was routed to a choosing machine is one of the strings it showed, the
      user selected that string, and once the machine has taken it and its stream has been polled,
      the caller has an assertion that was shown under it. */
  lemma SelectionIsAnswered(hash: Hash, actions: seq<Action>, i: nat,
                            history: seq<Occurrence>, e: M.Environment)
    requires Choosing(Run(hash, actions), i)
    requires Updates(history) ==
             UpdatesOf(Run(hash, actions).log, Run(hash, actions).streams[i].request)
    requires SentOn(Route(history).sent, M.CredChannel(i)) != []
    requires var h := Run(hash, actions).streams[i].handler;
             Takes(h.transport, hash, h.machine, e, SentOn(Route(history).sent, M.CredChannel(i))[0])
    ensures var g, choice := Run(hash, actions), SentOn(Route(history).sent, M.CredChannel(i))[0];
            && Entered(Selection, choice) in history
            && AnsweredAs(After(hash, g, i, e).service, hash, g.streams[i].request,
                          g.streams[i].handler.machine.state.assertions, choice)
  {
    var g, choice := Run(hash, actions), SentOn(Route(history).sent, M.CredChannel(i))[0];
    ArrivedWasSelected(hash, actions, g.streams[i].request, i, history);
    EveryRunIsSound(hash, actions);
    StreamIsSound(hash, g, i);
    TakenChoiceIsAnswered(hash, g, i, e, choice);
  }
}
