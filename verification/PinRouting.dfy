/** Routing what the user enters back to the prompt it answers. Updates passing to the UI fill
    three slots with the reply channels of the prompts they carry; UI events empty them. */
module PinRouting {
  import opened Basics
  import opened AuthenticatorMachine
  import opened Service

  datatype Kind = ClientPin | DevicePin | Selection

  /** One thing the flow sees: an update on its way to the UI, or an event from the UI. A secret
      that cannot be read, a cancellation, or the end of the events stops the UI loop. */
  datatype Occurrence =
    | Shown(update: Event)
    | Entered(kind: Kind, value: string)
    | Unreadable
    | CancelRequested
    | EventsClosed
    | DiscoveryRequested

  predicate StopsLoop(o: Occurrence) {
    o.Unreadable? || o.CancelRequested? || o.EventsClosed?
  }

  datatype Prompt = Prompt(kind: Kind, channel: ChannelId)

  /** The prompt an update carries. Selections are only offered for USB devices. */
  function PromptOf(o: Occurrence): Option<Prompt> {
    match o
    case Shown(DeviceEvent(_, NeedsPin(_, ch))) => Some(Prompt(ClientPin, ch))
    case Shown(DeviceEvent(_, PinNotSet(_, ch))) => Some(Prompt(DevicePin, ch))
    case Shown(DeviceEvent(Usb, SelectCredential(_, ch))) => Some(Prompt(Selection, ch))
    case _ => None
  }

  datatype Sent = Sent(channel: ChannelId, kind: Kind, value: string)

  /** The three slots, what has been sent on the channels, and whether the UI loop still runs. */
  datatype Router = Router(
    clientPinTx: Option<ChannelId>,
    setPinTx: Option<ChannelId>,
    credSelectorTx: Option<ChannelId>,
    sent: seq<Sent>,
    running: bool)
  {
    function Slot(k: Kind): Option<ChannelId> {
      match k
      case ClientPin => clientPinTx
      case DevicePin => setPinTx
      case Selection => credSelectorTx
    }

    function WithSlot(k: Kind, ch: Option<ChannelId>): (r: Router)
      ensures r.Slot(k) == ch && r.sent == sent && r.running == running
      ensures forall k' :: k' != k ==> r.Slot(k') == Slot(k')
    {
      match k
      case ClientPin => this.(clientPinTx := ch)
      case DevicePin => this.(setPinTx := ch)
      case Selection => this.(credSelectorTx := ch)
    }
  }

  const FRESH := Router(None, None, None, [], true)

  function Pass(r: Router, o: Occurrence): Router {
    match PromptOf(o)
    case Some(p) => r.WithSlot(p.kind, Some(p.channel))
    case None =>
      if !r.running then r
      else if StopsLoop(o) then r.(running := false)
      else if o.Entered? && r.Slot(o.kind).Some? then
        r.WithSlot(o.kind, None).(sent := r.sent + [Sent(r.Slot(o.kind).value, o.kind, o.value)])
      else r
  }

  function Route(history: seq<Occurrence>): Router {
    if history == [] then FRESH
    else Pass(Route(history[..|history| - 1]), history[|history| - 1])
  }

  // ---------- the flow as the daemon runs it ----------

  class FlowControl {
    var clientPinTx: Option<ChannelId>
    var setPinTx: Option<ChannelId>
    var credSelectorTx: Option<ChannelId>
    var running: bool
    var sent: seq<Sent>

    ghost function Abstract(): Router
      reads this
    {
      Router(clientPinTx, setPinTx, credSelectorTx, sent, running)
    }

    constructor ()
      ensures Abstract() == FRESH
    {
      clientPinTx, setPinTx, credSelectorTx, running, sent := None, None, None, true, [];
    }

    method Show(update: Event)
      modifies this
      ensures Abstract() == Pass(old(Abstract()), Shown(update))
      ensures clientPinTx ==
              if update.DeviceEvent? && update.device.NeedsPin? then Some(update.device.pinTx)
              else old(clientPinTx)
      ensures setPinTx ==
              if update.DeviceEvent? && update.device.PinNotSet? then Some(update.device.pinTx)
              else old(setPinTx)
      ensures credSelectorTx ==
              if update.DeviceEvent? && update.transport.Usb? && update.device.SelectCredential?
              then Some(update.device.credTx) else old(credSelectorTx)
    {
      match update {
        case DeviceEvent(_, NeedsPin(_, pinTx)) =>
          clientPinTx := Some(pinTx);
        case DeviceEvent(_, PinNotSet(_, pinTx)) =>
          setPinTx := Some(pinTx);
        case DeviceEvent(Usb, SelectCredential(_, credTx)) =>
          credSelectorTx := Some(credTx);
        case _ =>
      }
    }

    method Send(channel: ChannelId, kind: Kind, value: string)
      modifies this`sent
      ensures sent == old(sent) + [Sent(channel, kind, value)]
    {
      sent := sent + [Sent(channel, kind, value)];
    }

    /** Takes the slot of the event's kind and sends what was entered, if the slot was filled. */
    method Enter(kind: Kind, value: string)
      requires running
      modifies this
      ensures Abstract() == Pass(old(Abstract()), Entered(kind, value))
    {
      var tx: Option<ChannelId>;
      match kind {
        case ClientPin => tx := clientPinTx; clientPinTx := None;
        case DevicePin => tx := setPinTx; setPinTx := None;
        case Selection => tx := credSelectorTx; credSelectorTx := None;
      }
      if tx.Some? {
        Send(tx.value, kind, value);
      }
    }

    /** The whole flow over any interleaving of updates and UI events. */
    method Serve(history: seq<Occurrence>)
      requires Abstract() == FRESH
      modifies this
      ensures Abstract() == Route(history)
    {
      for i := 0 to |history|
        invariant Abstract() == Route(history[..i])
      {
        assert history[..i + 1][..i] == history[..i];
        match history[i] {
          case Shown(update) =>
            Show(update);
          case Entered(kind, value) =>
            if running {
              Enter(kind, value);
            }
          case DiscoveryRequested =>
          case _ =>
            running := false;
        }
      }
      assert history[..|history|] == history;
    }
  }

  // ---------- what the routing means ----------

  /** Reading a history backwards: the latest prompt of a kind, unless something of that kind
      was entered since. */
  function OpenPrompt(history: seq<Occurrence>, k: Kind): Option<ChannelId> {
    if history == [] then None
    else
      var last := history[|history| - 1];
      if PromptOf(last).Some? && PromptOf(last).value.kind == k then
        Some(PromptOf(last).value.channel)
      else if last.Entered? && last.kind == k then None
      else OpenPrompt(history[..|history| - 1], k)
  }

  predicate Stopped(history: seq<Occurrence>) {
    exists i :: 0 <= i < |history| && StopsLoop(history[i])
  }

  /** What should be sent: every entry made before the loop stops goes to the open prompt of its
      kind, and nowhere if there is none. */
  function Deliveries(history: seq<Occurrence>): seq<Sent> {
    if history == [] then []
    else
      var init, last := history[..|history| - 1], history[|history| - 1];
      Deliveries(init) +
      if last.Entered? && !Stopped(init) && OpenPrompt(init, last.kind).Some?
      then [Sent(OpenPrompt(init, last.kind).value, last.kind, last.value)]
      else []
  }

  lemma StoppedLater(init: seq<Occurrence>, last: Occurrence)
    ensures Stopped(init + [last]) <==> Stopped(init) || StopsLoop(last)
  {
    var history := init + [last];
    assert history[|init|] == last;
    if Stopped(init) {
      var i :| 0 <= i < |init| && StopsLoop(init[i]);
      assert StopsLoop(history[i]);
    }
  }

  /** The slots, filled and emptied going forward, deliver what reading the history backwards
      asks for. */
  lemma {:induction false} RoutingDeliversToOpenPrompts(history: seq<Occurrence>)
    ensures Route(history).sent == Deliveries(history)
    ensures Route(history).running <==> !Stopped(history)
    ensures !Stopped(history) ==> forall k :: Route(history).Slot(k) == OpenPrompt(history, k)
  {
    if history != [] {
      var init, last := history[..|history| - 1], history[|history| - 1];
      RoutingDeliversToOpenPrompts(init);
      StoppedLater(init, last);
      assert history == init + [last];
    }
  }

  /** Every prompt has a channel of its own. */
  ghost predicate SeparatePrompts(history: seq<Occurrence>) {
    forall i, j :: 0 <= i < j < |history| && PromptOf(history[i]).Some? && PromptOf(history[j]).Some? ==>
      PromptOf(history[i]).value.channel != PromptOf(history[j]).value.channel
  }

  ghost predicate Prompted(history: seq<Occurrence>, p: Prompt) {
    exists i :: 0 <= i < |history| && PromptOf(history[i]) == Some(p)
  }

  /** Everything sent answers a prompt of its kind, no channel is sent to twice, and the
      channels in the slots have not been used. */
  ghost predicate Orderly(history: seq<Occurrence>, r: Router) {
    && (forall i :: 0 <= i < |r.sent| ==> Prompted(history, Prompt(r.sent[i].kind, r.sent[i].channel)))
    && (forall i, j :: 0 <= i < j < |r.sent| ==> r.sent[i].channel != r.sent[j].channel)
    && (forall k :: r.Slot(k).Some? ==> Prompted(history, Prompt(k, r.Slot(k).value)))
    && (forall k, i :: r.Slot(k).Some? && 0 <= i < |r.sent| ==> r.sent[i].channel != r.Slot(k).value)
  }

  lemma PromptedLater(init: seq<Occurrence>, last: Occurrence, p: Prompt)
    ensures Prompted(init + [last], p) <==> Prompted(init, p) || PromptOf(last) == Some(p)
  {
    var history := init + [last];
    if Prompted(init, p) {
      var i :| 0 <= i < |init| && PromptOf(init[i]) == Some(p);
      assert PromptOf(history[i]) == Some(p);
    }
    if PromptOf(last) == Some(p) {
      assert PromptOf(history[|init|]) == Some(p);
    }
  }

  lemma SamePromptSameKind(history: seq<Occurrence>, p: Prompt, q: Prompt)
    requires SeparatePrompts(history) && Prompted(history, p) && Prompted(history, q)
    ensures p.channel == q.channel ==> p == q
  {
    var i :| 0 <= i < |history| && PromptOf(history[i]) == Some(p);
    var j :| 0 <= j < |history| && PromptOf(history[j]) == Some(q);
  }

  lemma PromptKeepsOrderly(init: seq<Occurrence>, last: Occurrence, r: Router)
    requires SeparatePrompts(init + [last]) && Orderly(init, r) && PromptOf(last).Some?
    ensures Orderly(init + [last], Pass(r, last))
  {
    var history, p, r' := init + [last], PromptOf(last).value, Pass(r, last);
    forall q: Prompt
      ensures Prompted(init, q) ==> Prompted(history, q) && q.channel != p.channel
      ensures Prompted(history, p)
    {
      PromptedLater(init, last, q);
      PromptedLater(init, last, p);
      if Prompted(init, q) {
        var i :| 0 <= i < |init| && PromptOf(init[i]) == Some(q);
        assert history[i] == init[i] && history[|init|] == last;
      }
    }
    forall k | r'.Slot(k).Some?
      ensures Prompted(history, Prompt(k, r'.Slot(k).value))
      ensures forall i :: 0 <= i < |r'.sent| ==> r'.sent[i].channel != r'.Slot(k).value
    {
      if k != p.kind {
        assert r'.Slot(k) == r.Slot(k);
      }
    }
  }

  lemma EntryKeepsOrderly(init: seq<Occurrence>, last: Occurrence, r: Router)
    requires SeparatePrompts(init + [last]) && Orderly(init, r) && PromptOf(last).None?
    ensures Orderly(init + [last], Pass(r, last))
  {
    var history, r' := init + [last], Pass(r, last);
    forall q: Prompt
      ensures Prompted(init, q) ==> Prompted(history, q)
    {
      PromptedLater(init, last, q);
    }
    if r'.sent != r.sent {
      var used := Prompt(last.kind, r.Slot(last.kind).value);
      forall k | k != last.kind && r.Slot(k).Some? ensures r.Slot(k).value != used.channel {
        SamePromptSameKind(history, used, Prompt(k, r.Slot(k).value));
      }
    }
    forall k | r'.Slot(k).Some?
      ensures Prompted(history, Prompt(k, r'.Slot(k).value))
      ensures forall i :: 0 <= i < |r'.sent| ==> r'.sent[i].channel != r'.Slot(k).value
    {
      assert r'.Slot(k) == r.Slot(k);
    }
  }

  lemma {:induction false} RoutingIsOrderly(history: seq<Occurrence>)
    requires SeparatePrompts(history)
    ensures Orderly(history, Route(history))
  {
    if history != [] {
      var init, last := history[..|history| - 1], history[|history| - 1];
      RoutingIsOrderly(init);
      assert history == init + [last];
      if PromptOf(last).Some? {
        PromptKeepsOrderly(init, last, Route(init));
      } else {
        EntryKeepsOrderly(init, last, Route(init));
      }
    }
  }

  /** A channel holds at most one message even if nothing is ever taken out of it, so a send on
      a channel of capacity one never waits. */
  function SentOn(sent: seq<Sent>, ch: ChannelId): seq<string> {
    if sent == [] then []
    else
      SentOn(sent[..|sent| - 1], ch) +
      if sent[|sent| - 1].channel == ch then [sent[|sent| - 1].value] else []
  }

  lemma {:induction false} ChannelsNeverFull(sent: seq<Sent>, ch: ChannelId)
    requires forall i, j :: 0 <= i < j < |sent| ==> sent[i].channel != sent[j].channel
    ensures |SentOn(sent, ch)| <= 1
    ensures SentOn(sent, ch) != [] ==> exists i :: 0 <= i < |sent| && sent[i].channel == ch
    ensures forall i :: 0 <= i < |sent| && sent[i].channel == ch ==> SentOn(sent, ch) == [sent[i].value]
  {
    if sent != [] {
      ChannelsNeverFull(sent[..|sent| - 1], ch);
    }
  }

  ghost predicate AnsweredInKind(history: seq<Occurrence>, sent: seq<Sent>) {
    forall i, j :: 0 <= i < |history| && 0 <= j < |sent| && PromptOf(history[i]).Some? ==>
      (PromptOf(history[i]).value.channel == sent[j].channel ==>
         PromptOf(history[i]).value.kind == sent[j].kind)
  }

  /** Over any interleaving in which prompts come with channels of their own, each channel gets
      at most one message, of its prompt's own kind. */
  lemma EachPromptAnsweredOnce(history: seq<Occurrence>)
    requires SeparatePrompts(history)
    ensures forall ch :: |SentOn(Route(history).sent, ch)| <= 1
    ensures AnsweredInKind(history, Route(history).sent)
  {
    RoutingIsOrderly(history);
    var sent := Route(history).sent;
    forall ch ensures |SentOn(sent, ch)| <= 1 {
      ChannelsNeverFull(sent, ch);
    }
    forall i, j | 0 <= i < |history| && 0 <= j < |sent| && PromptOf(history[i]).Some?
      ensures PromptOf(history[i]).value.channel == sent[j].channel ==>
                PromptOf(history[i]).value.kind == sent[j].kind
    {
      var p := PromptOf(history[i]).value;
      assert Prompted(history, p);
      SamePromptSameKind(history, p, Prompt(sent[j].kind, sent[j].channel));
    }
  }

  // ---------- entries and the states they answer ----------

  /** The update shows a state that asks for an entry of this kind, on this channel. */
  ghost predicate Offers(o: Occurrence, kind: Kind, ch: ChannelId) {
    && o.Shown? && o.update.DeviceEvent?
    && match kind
       case ClientPin => o.update.device.NeedsPin? && o.update.device.pinTx == ch
       case DevicePin => o.update.device.PinNotSet? && o.update.device.pinTx == ch
       case Selection =>
         o.update.transport.Usb? && o.update.device.SelectCredential? && o.update.device.credTx == ch
  }

  /** Occurrence `i` is the latest to ask for this kind, and nothing of it was entered since. */
  ghost predicate WaitsFor(history: seq<Occurrence>, kind: Kind, i: int, ch: ChannelId) {
    && 0 <= i < |history| && Offers(history[i], kind, ch)
    && forall j :: i < j < |history| ==>
         !(history[j].Entered? && history[j].kind == kind) && forall x :: !Offers(history[j], kind, x)
  }

  ghost predicate Listening(history: seq<Occurrence>) {
    forall j :: 0 <= j < |history| ==>
      !history[j].Unreadable? && !history[j].CancelRequested? && !history[j].EventsClosed?
  }

  lemma OffersArePrompts(o: Occurrence, kind: Kind, ch: ChannelId)
    ensures Offers(o, kind, ch) <==> PromptOf(o) == Some(Prompt(kind, ch))
  {
  }

  lemma {:induction false} OpenPromptIff(history: seq<Occurrence>, kind: Kind, ch: ChannelId)
    ensures OpenPrompt(history, kind) == Some(ch) <==> exists i :: WaitsFor(history, kind, i, ch)
  {
    if history != [] {
      var n := |history| - 1;
      var init, last := history[..n], history[n];
      OpenPromptIff(init, kind, ch);
      forall x ensures Offers(last, kind, x) <==> PromptOf(last) == Some(Prompt(kind, x)) {
        OffersArePrompts(last, kind, x);
      }
      if Offers(last, kind, ch) {
        assert WaitsFor(history, kind, n, ch);
      } else if (last.Entered? && last.kind == kind) || exists x :: Offers(last, kind, x) {
        forall i ensures !WaitsFor(history, kind, i, ch) {
          if WaitsFor(history, kind, i, ch) {
            assert false;
          }
        }
      } else {
        forall i ensures WaitsFor(history, kind, i, ch) <==> WaitsFor(init, kind, i, ch) {
          assert forall j :: 0 <= j < n ==> history[j] == init[j];
        }
      }
    }
  }

  lemma ListeningMeansNotStopped(history: seq<Occurrence>)
    ensures Listening(history) <==> !Stopped(history)
  {
    if Stopped(history) {
      var i :| 0 <= i < |history| && StopsLoop(history[i]);
      assert history[i].Unreadable? || history[i].CancelRequested? || history[i].EventsClosed?;
    }
    if !Listening(history) {
      var j :| 0 <= j < |history| && (history[j].Unreadable? || history[j].CancelRequested?
                                      || history[j].EventsClosed?);
      assert StopsLoop(history[j]);
    }
  }

  /** An entry is sent to the state that waits for it, and to no other; without one, or once the
      loop has stopped, it is dropped. */
  lemma EntryReachesItsState(history: seq<Occurrence>, kind: Kind, value: string)
    ensures var sent, sent' := Route(history).sent, Route(history + [Entered(kind, value)]).sent;
            && (forall i, ch :: Listening(history) && WaitsFor(history, kind, i, ch) ==>
                  sent' == sent + [Sent(ch, kind, value)])
            && (!Listening(history) || (forall i, ch :: !WaitsFor(history, kind, i, ch)) ==>
                  sent' == sent)
  {
    var last := Entered(kind, value);
    var all := history + [last];
    assert all[..|all| - 1] == history && all[|all| - 1] == last;
    RoutingDeliversToOpenPrompts(history);
    RoutingDeliversToOpenPrompts(all);
    ListeningMeansNotStopped(history);
    forall ch ensures OpenPrompt(history, kind) == Some(ch) <==> exists i :: WaitsFor(history, kind, i, ch) {
      OpenPromptIff(history, kind, ch);
    }
    forall i, ch | Listening(history) && WaitsFor(history, kind, i, ch)
      ensures OpenPrompt(history, kind) == Some(ch)
    {
    }
    assert Deliveries(all) == Deliveries(history) +
      if !Stopped(history) && OpenPrompt(history, kind).Some?
      then [Sent(OpenPrompt(history, kind).value, kind, value)] else [];
  }

  /** Nothing but an entry sends anything. */
  lemma OnlyEntriesSend(history: seq<Occurrence>, o: Occurrence)
    requires !o.Entered?
    ensures Route(history + [o]).sent == Route(history).sent
  {
    var all := history + [o];
    assert all[..|all| - 1] == history;
  }

  /** Message `s` is the entry at `j`, made while the state at `i` waited for it. */
  ghost predicate Explains(history: seq<Occurrence>, s: Sent, i: int, j: int) {
    && 0 <= i < j < |history| && history[j] == Entered(s.kind, s.value)
    && Listening(history[..j]) && WaitsFor(history[..j], s.kind, i, s.channel)
  }

  /** Whatever is sent was entered for a state that asked for that kind on that channel. */
  lemma {:induction false} EverySentIsExplained(history: seq<Occurrence>, s: Sent)
    requires s in Route(history).sent
    ensures exists i, j :: Explains(history, s, i, j)
  {
    var n := |history| - 1;
    var init, last := history[..n], history[n];
    assert init + [last] == history;
    if s in Route(init).sent {
      EverySentIsExplained(init, s);
      var i, j :| Explains(init, s, i, j);
      assert history[..j] == init[..j];
      assert Explains(history, s, i, j);
    } else if !last.Entered? {
      OnlyEntriesSend(init, last);
    } else {
      EntryReachesItsState(init, last.kind, last.value);
      var i, ch :| WaitsFor(init, last.kind, i, ch);
      assert Explains(history, s, i, n);
    }
  }
}
