/** Routing inside whole ceremonies: the updates a request produces never offer the same reply
    channel twice, so whatever the user enters in between reaches each prompt at most once. */
module CeremonyRouting {
  import opened Basics
  import opened Authenticator
  import opened Service
  import M = AuthenticatorMachine
  import MachineProperties
  import opened Ceremony
  import opened PinRouting

  function Offered(e: Event): Option<M.ChannelId> {
    match PromptOf(Shown(e))
    case Some(p) => Some(p.channel)
    case None => None
  }

  /** The handler a channel leads back to. */
  function Owner(ch: M.ChannelId): nat {
    match ch
    case PinChannel(handler, _) => handler
    case CredChannel(handler) => handler
  }

  /** The channels a stream's handler offers are its own, and all different. */
  lemma HandlersOfferTheirOwnChannels(hash: Hash, h: Handler, i: nat, n: nat)
    requires Reached(hash, h, i) && n < |Events(h)|
    ensures Offered(Events(h)[n]).Some? ==> Owner(Offered(Events(h)[n]).value) == i
    ensures forall m :: 0 <= m < n && Offered(Events(h)[m]).Some? ==>
              Offered(Events(h)[m]) != Offered(Events(h)[n])
  {
    if h.DeviceHandler? {
      DevicesOfferTheirOwnChannels(hash, h.transport, h.machine, i);
      forall m | 0 <= m <= n && Offered(Events(h)[m]).Some?
        ensures h.machine.emitted[m].Channel() == Offered(Events(h)[m])
      {
      }
    }
  }

  lemma DevicesOfferTheirOwnChannels(hash: Hash, t: M.Transport, c: M.Config, i: nat)
    requires Reached(hash, DeviceHandler(t, c), i)
    ensures MachineProperties.FreshChannels(c) && c.handler == i
  {
    var envs :| c == M.Run(t, hash, M.Start(i), envs);
    MachineProperties.HandlerKept(t, hash, M.Start(i), envs);
    MachineProperties.RunDiscoversAndEarns(t, hash, i, envs);
  }

  /** Over a whole run, no two updates offer the same channel. */
  lemma UpdatesOfferSeparateChannels(hash: Hash, actions: seq<Action>, p: nat, q: nat)
    requires p < q < |Run(hash, actions).log|
    ensures var log := Run(hash, actions).log;
            Offered(log[p].event).Some? ==> Offered(log[p].event) != Offered(log[q].event)
  {
    var g := Run(hash, actions);
    EveryRunIsSound(hash, actions);
    var u, v := g.log[p], g.log[q];
    assert Logged(g, u) && Logged(g, v);
    HandlersOfferTheirOwnChannels(hash, g.streams[u.stream].handler, u.stream, u.index);
    HandlersOfferTheirOwnChannels(hash, g.streams[v.stream].handler, v.stream, v.index);
  }

  ghost predicate SeparateOffers(events: seq<Event>) {
    forall i, j :: 0 <= i < j < |events| && Offered(events[i]).Some? ==>
      Offered(events[i]) != Offered(events[j])
  }

  lemma {:induction false} RequestUpdatesOfferSeparately(log: seq<Update>, k: nat)
    requires forall p, q :: 0 <= p < q < |log| && Offered(log[p].event).Some? ==>
               Offered(log[p].event) != Offered(log[q].event)
    ensures SeparateOffers(UpdatesOf(log, k))
  {
    if log != [] {
      var init, last := log[..|log| - 1], log[|log| - 1];
      RequestUpdatesOfferSeparately(init, k);
      var before := UpdatesOf(init, k);
      forall i | 0 <= i < |before| && Offered(before[i]).Some?
        ensures Offered(before[i]) != Offered(last.event)
      {
        RequestUpdatesAreLogged(init, k, before[i]);
        var p :| 0 <= p < |init| && init[p].event == before[i];
        assert log[p] == init[p];
      }
    }
  }

  /** The updates among what a flow sees. */
  function Updates(history: seq<Occurrence>): seq<Event> {
    if history == [] then []
    else
      var last := history[|history| - 1];
      Updates(history[..|history| - 1]) + if last.Shown? then [last.update] else []
  }

  lemma {:induction false} ShownIsAnUpdate(history: seq<Occurrence>, i: nat)
    requires i < |history| && history[i].Shown?
    ensures history[i].update in Updates(history)
  {
    if i < |history| - 1 {
      ShownIsAnUpdate(history[..|history| - 1], i);
    }
  }

  lemma {:induction false} SeparateOffersGiveSeparatePrompts(history: seq<Occurrence>)
    requires SeparateOffers(Updates(history))
    ensures SeparatePrompts(history)
  {
    if history != [] {
      var init, last := history[..|history| - 1], history[|history| - 1];
      var before, all := Updates(init), Updates(history);
      assert before == all[..|before|];
      SeparateOffersGiveSeparatePrompts(init);
      if last.Shown? {
        assert all[|before|] == last.update;
        forall i | 0 <= i < |init| && PromptOf(init[i]).Some?
          ensures Offered(init[i].update) != Offered(last.update)
        {
          ShownIsAnUpdate(init, i);
          var j :| 0 <= j < |before| && before[j] == init[i].update;
          assert all[j] == before[j];
        }
      }
    }
  }

  /** Take any run of the daemon, any of its requests, and any interleaving of that request's
      updates with UI events: every entry goes to the open prompt of its kind or nowhere, and
      no prompt is answered twice or with an entry of another kind. */
  lemma CeremonyPromptsAnsweredOnce(
    hash: Hash, actions: seq<Action>, k: nat, history: seq<Occurrence>)
    requires Updates(history) == UpdatesOf(Run(hash, actions).log, k)
    ensures Route(history).sent == Deliveries(history)
    ensures forall ch :: |SentOn(Route(history).sent, ch)| <= 1
    ensures AnsweredInKind(history, Route(history).sent)
  {
    UpdatesGiveSeparatePrompts(hash, actions, k, history);
    RoutingDeliversToOpenPrompts(history);
    EachPromptAnsweredOnce(history);
  }

  lemma UpdatesGiveSeparatePrompts(
    hash: Hash, actions: seq<Action>, k: nat, history: seq<Occurrence>)
    requires Updates(history) == UpdatesOf(Run(hash, actions).log, k)
    ensures SeparatePrompts(history)
  {
    var log := Run(hash, actions).log;
    forall p, q | 0 <= p < q < |log| && Offered(log[p].event).Some?
      ensures Offered(log[p].event) != Offered(log[q].event)
    {
      UpdatesOfferSeparateChannels(hash, actions, p, q);
    }
    RequestUpdatesOfferSeparately(log, k);
    SeparateOffersGiveSeparatePrompts(history);
  }
}
