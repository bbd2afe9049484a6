/** The credential service on values: one request slot, and for every request ever initialised
    its cancellation token and its one-shot reply channel. */
module Service {
  import opened Basics
  import opened Authenticator
  import opened AuthenticatorMachine
  import Hybrid
  import Decimal

  /** A 32-bit identifier; the ones handed out are never zero. */
  type RequestId = n: nat | n < 0x1_0000_0000

  /** A request, whether its token is cancelled, and everything sent on its reply channel. */
  datatype Request = Request(id: RequestId, cancelled: bool, replies: seq<Reply>)

  /** The slot names the current request by its position among all requests. */
  datatype State = State(slot: Option<nat>, requests: seq<Request>)

  const EMPTY := State(None, [])

  /** What a transport handler reports to the service. */
  datatype Event =
    | DeviceEvent(transport: Transport, device: MachineState)
    | PhoneEvent(phone: Hybrid.HybridState)

  /** The reply a terminal event carries; a reported cancellation carries none. */
  function ReplyOf(e: Event): Option<Reply> {
    match e
    case DeviceEvent(_, Completed(response)) => Some(Ok(response))
    case DeviceEvent(_, Failed(error)) => if error.RequestCancelled? then None else Some(Err(error))
    case DeviceEvent(_, _) => None
    case PhoneEvent(Done(response)) => Some(Ok(response))
    case PhoneEvent(Broken(error)) => if error.RequestCancelled? then None else Some(Err(error))
    case PhoneEvent(_) => None
  }

  predicate Terminal(e: Event) {
    match e
    case DeviceEvent(_, s) => s.Terminal()
    case PhoneEvent(s) => s.Done? || s.Broken?
  }

  function CancelReply(id: RequestId): Reply {
    Err(Internal("Cancelled request " + Decimal.Print(id) + "."))
  }

  // ---------- the operations ----------

  function InitRequest(s: State, id: RequestId): (State, Result<nat, ServiceError>) {
    if s.slot.Some? then (s, Err(Internal("Already a request in progress.")))
    else
      (State(Some(|s.requests|), s.requests + [Request(id, false, [])]), Ok(|s.requests|))
  }

  ghost predicate Slotted(s: State) {
    s.slot.Some? ==> s.slot.value < |s.requests|
  }

  /** Takes the slot, cancels the request's token and sends the reply. */
  function TakeAndReply(s: State, reply: Reply): State
    requires Slotted(s) && s.slot.Some?
  {
    var k := s.slot.value;
    var r := s.requests[k];
    State(None, s.requests[k := r.(cancelled := true, replies := r.replies + [reply])])
  }

  function CancelRequest(s: State, id: RequestId): State
    requires Slotted(s)
  {
    if s.slot.Some? && s.requests[s.slot.value].id == id then TakeAndReply(s, CancelReply(id))
    else s
  }

  /** Answers whatever request is in the slot. */
  function CompleteRequest(s: State, reply: Reply): State
    requires Slotted(s)
  {
    if s.slot.Some? then TakeAndReply(s, reply) else s
  }

  /** Polling a stream started for request `k` when its handler has an event ready. */
  function PollReady(s: State, k: nat, e: Event): (State, Option<Event>)
    requires Slotted(s) && k < |s.requests|
  {
    if s.requests[k].cancelled then (s, None)
    else
      (match ReplyOf(e) case Some(reply) => CompleteRequest(s, reply) case None => s, Some(e))
  }

  // ---------- the invariant ----------

  /** For every request: it is in the slot, its token is live, and it has not been answered;
      or it is none of these, and it has been answered once. */
  ghost predicate Agreement(s: State) {
    && Slotted(s)
    && forall k :: 0 <= k < |s.requests| ==>
         if s.slot == Some(k) then !s.requests[k].cancelled && s.requests[k].replies == []
         else s.requests[k].cancelled && |s.requests[k].replies| == 1
  }

  /** Nothing known about earlier requests is ever revised. */
  ghost predicate Continues(s: State, s': State) {
    && |s.requests| <= |s'.requests|
    && forall k :: 0 <= k < |s.requests| ==>
         && s'.requests[k].id == s.requests[k].id
         && (s.slot != Some(k) ==> s'.requests[k] == s.requests[k] && s'.slot != Some(k))
  }

  lemma InitKeepsAgreement(s: State, id: RequestId)
    requires Agreement(s)
    ensures var (s', r) := InitRequest(s, id);
            && Agreement(s') && Continues(s, s')
            && (r.Ok? <==> s.slot == None)
            && (r.Ok? ==> r.value == |s.requests| && s'.slot == Some(r.value)
                          && s'.requests[r.value].id == id)
            && (r.Err? ==> s' == s && r.error == Internal("Already a request in progress."))
  {
  }

  lemma ReplyKeepsAgreement(s: State, reply: Reply)
    requires Agreement(s) && s.slot.Some?
    ensures var s' := TakeAndReply(s, reply);
            && Agreement(s') && Continues(s, s') && s'.slot == None
            && s'.requests[s.slot.value].replies == [reply]
  {
  }

  /** Cancelling answers the live request if it has that ID and touches nothing otherwise;
      afterwards no live request has that ID. */
  lemma CancelAnswersOnlyItsRequest(s: State, id: RequestId)
    requires Agreement(s)
    ensures var s' := CancelRequest(s, id);
            && Agreement(s') && Continues(s, s')
            && (s'.slot.Some? ==> s' == s && s.requests[s.slot.value].id != id)
            && (s'.slot != s.slot ==>
                  && s.requests[s.slot.value].id == id
                  && s'.requests[s.slot.value].replies ==
                     [Err(Internal("Cancelled request " + Decimal.Print(id) + "."))])
            && (s.slot.Some? && s.requests[s.slot.value].id == id ==> s'.slot == None)
  {
    if s.slot.Some? {
      ReplyKeepsAgreement(s, CancelReply(id));
    }
  }

  /** The slot is taken without looking at the request, yet the request answered is always the
      one the stream was started for. */
  lemma PollAnswersItsOwnRequest(s: State, k: nat, e: Event)
    requires Agreement(s) && k < |s.requests|
    ensures var (s', item) := PollReady(s, k, e);
            && Agreement(s') && Continues(s, s')
            && (item.Some? <==> s.slot == Some(k))
            && (item.Some? && ReplyOf(e).Some? ==>
                  s' == State(None, s.requests[k := s.requests[k].(
                                      cancelled := true, replies := [ReplyOf(e).value])]))
            && (item.None? || ReplyOf(e).None? ==> s' == s)
  {
    if s.slot == Some(k) && ReplyOf(e).Some? {
      ReplyKeepsAgreement(s, ReplyOf(e).value);
      assert s.requests[k].replies == [];
    }
  }

  /** While its request is current, a stream forwards every event unchanged, and a final one answers
      the request with exactly what it carries. */
  lemma PollDeliversPayload(s: State, k: nat, e: Event)
    requires Agreement(s) && s.slot == Some(k)
    ensures var (s', item) := PollReady(s, k, e);
            && item == Some(e) && |s'.requests| == |s.requests|
            && match e
               case PhoneEvent(Done(r)) => s'.slot == None && s'.requests[k].replies == [Ok(r)]
               case DeviceEvent(_, Completed(r)) => s'.slot == None && s'.requests[k].replies == [Ok(r)]
               case PhoneEvent(Broken(x)) =>
                 if x == RequestCancelled then s' == s
                 else s'.slot == None && s'.requests[k].replies == [Err(x)]
               case DeviceEvent(_, Failed(x)) =>
                 if x == RequestCancelled then s' == s
                 else s'.slot == None && s'.requests[k].replies == [Err(x)]
               case _ => s' == s
  {
    PollAnswersItsOwnRequest(s, k, e);
  }
}
