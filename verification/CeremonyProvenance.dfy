/** Where responses come from: a caller only ever receives what an authenticator answered to one of
    the streams started for its own request. */
module CeremonyProvenance {
  import opened Basics
  import opened Authenticator
  import opened Service
  import M = AuthenticatorMachine
  import MachineProperties
  import Hybrid
  import opened Ceremony

  /** The authenticator behind a handler has given this response. */
  ghost predicate Answered(h: Handler, response: Response) {
    match h
    case DeviceHandler(_, c) => MachineProperties.AnsweredBy(c.received, response)
    case PhoneHandler(c) => Hybrid.AnsweredWith(c, response)
  }

  /** A handler that has only been started has been answered with nothing. */
  lemma NothingAnsweredAtFirst(t: M.Transport, i: nat, response: Response)
    ensures !Answered(DeviceHandler(t, M.Start(i)), response)
    ensures !Answered(PhoneHandler(Hybrid.START), response)
  {
  }

  /** An event that carries a response was sent because the authenticator answered it. */
  lemma EventsAreAnswered(hash: Hash, h: Handler, i: nat, n: nat, response: Response)
    requires Reached(hash, h, i) && n < |Events(h)| && ReplyOf(Events(h)[n]) == Some(Ok(response))
    ensures Answered(h, response)
  {
    match h
    case DeviceHandler(t, c) =>
      assert c.emitted[n] == M.Completed(response);
      var envs :| c == M.Run(t, hash, M.Start(i), envs);
      MachineProperties.EveryRunIsSound(t, hash, i, envs);
      MachineProperties.SentCompletionsAreAnswered(t, c, response);
    case PhoneHandler(c) =>
      assert c.emitted[n] == Hybrid.Done(response);
      var inputs :| c == Hybrid.Run(Hybrid.START, inputs);
      Hybrid.ResponsesWereAnswered(inputs, response);
  }

  /** This update carried the response to the request, and the handler that sent it had been
      answered with it. */
  ghost predicate Delivered(g: System, u: Update, k: nat, response: Response) {
    && u.request == k && u.stream < |g.streams| && g.streams[u.stream].request == k
    && ReplyOf(u.event) == Some(Ok(response))
    && Answered(g.streams[u.stream].handler, response)
  }

  /** Over any run: a successful reply to a request came with an update of one of the request's own
      streams, and is what the authenticator behind that very stream answered. */
  lemma RepliesAreAnswered(hash: Hash, actions: seq<Action>, k: nat, response: Response)
    requires k < |Run(hash, actions).service.requests|
    requires Received(Run(hash, actions).service, k) == Some(Ok(response))
    ensures var g := Run(hash, actions);
            exists p :: 0 <= p < |g.log| && Delivered(g, g.log[p], k, response)
  {
    var g := Run(hash, actions);
    EveryRunIsSound(hash, actions);
    var updates := UpdatesOf(g.log, k);
    assert Verdict(g.service, updates, k);
    var last := updates[|updates| - 1];
    assert last in updates && ReplyOf(last) == Some(Ok(response));
    RequestUpdatesAreLogged(g.log, k, last);
    var p :| 0 <= p < |g.log| && g.log[p].request == k && g.log[p].event == last;
    var u := g.log[p];
    assert Logged(g, u);
    EventsAreAnswered(hash, g.streams[u.stream].handler, u.stream, u.index, response);
    assert Delivered(g, g.log[p], k, response);
  }
}
