/** The credential service as the daemon keeps it: a shared slot, tokens and reply channels that
    the slot, the streams and the caller all refer to. Every operation is proved to do what the
    value-level service does. */
module ServiceObjects {
  import opened Basics
  import opened Authenticator
  import S = Service

  class CancellationToken {
    var cancelled: bool

    constructor ()
      ensures !cancelled
    {
      cancelled := false;
    }

    method Cancel()
      modifies this
      ensures cancelled
    {
      cancelled := true;
    }
  }

  class ReplyChannel {
    var replies: seq<Reply>

    constructor ()
      ensures replies == []
    {
      replies := [];
    }

    method Send(reply: Reply)
      modifies this
      ensures replies == old(replies) + [reply]
    {
      replies := replies + [reply];
    }
  }

  datatype RequestContext = RequestContext(
    responseChannel: ReplyChannel,
    requestId: S.RequestId,
    cancellation: CancellationToken)

  class CredentialService {
    var ctx: Option<RequestContext>
    ghost var issued: seq<RequestContext>  // the contexts of all requests ever initialised
    ghost var slot: Option<nat>            // the position of `ctx` among them

    /** Every request has a token and a channel of its own. */
    ghost predicate Valid()
      reads this
    {
      && (forall i, j :: 0 <= i < j < |issued| ==>
            && issued[i].cancellation != issued[j].cancellation
            && issued[i].responseChannel != issued[j].responseChannel)
      && (match slot
          case None => ctx == None
          case Some(k) => k < |issued| && ctx == Some(issued[k]))
    }

    ghost function Footprint(): set<object>
      reads this
    {
      (set c | c in issued :: c.cancellation) + (set c | c in issued :: c.responseChannel)
    }

    ghost function Requests(n: nat): (r: seq<S.Request>)
      requires n <= |issued|
      reads this, Footprint()
      ensures |r| == n
      ensures forall k :: 0 <= k < n ==>
        r[k] == S.Request(issued[k].requestId, issued[k].cancellation.cancelled,
                          issued[k].responseChannel.replies)
    {
      if n == 0 then []
      else
        assert issued[n - 1] in issued;
        Requests(n - 1) + [S.Request(issued[n - 1].requestId, issued[n - 1].cancellation.cancelled,
                                     issued[n - 1].responseChannel.replies)]
    }

    ghost function State(): (s: S.State)
      requires Valid()
      reads this, Footprint()
      ensures S.Slotted(s)
    {
      S.State(slot, Requests(|issued|))
    }

    constructor ()
      ensures Valid() && State() == S.EMPTY
    {
      ctx, issued, slot := None, [], None;
    }

    method InitRequest(id: S.RequestId)
      returns (r: Result<(S.RequestId, CancellationToken, ReplyChannel), ServiceError>)
      requires Valid()
      modifies this
      ensures Valid()
      ensures State() == S.InitRequest(old(State()), id).0
      ensures r.Ok? <==> S.InitRequest(old(State()), id).1.Ok?
      ensures r.Ok? ==>
                && fresh(r.value.1) && fresh(r.value.2) && r.value.0 == id
                && issued == old(issued) + [RequestContext(r.value.2, id, r.value.1)]
      ensures r.Err? ==> r.error == S.InitRequest(old(State()), id).1.error && unchanged(this)
    {
      if ctx.Some? {
        return Err(Internal("Already a request in progress."));
      }
      var cancellation := new CancellationToken();
      var channel := new ReplyChannel();
      var context := RequestContext(channel, id, cancellation);
      ctx := Some(context);
      slot := Some(|issued|);
      issued := issued + [context];
      r := Ok((id, cancellation, channel));
      RequestsGrow(context);
    }

    /** Issuing a context with a new token and channel adds one request and keeps the others. */
    twostate lemma RequestsGrow(new context: RequestContext)
      requires old(Valid()) && Valid() && issued == old(issued) + [context]
      requires fresh(context.cancellation) && fresh(context.responseChannel)
      requires forall c :: c in old(issued) ==>
                 unchanged(c.cancellation) && unchanged(c.responseChannel)
      ensures State().requests ==
              old(State()).requests + [S.Request(context.requestId, context.cancellation.cancelled,
                                                 context.responseChannel.replies)]
    {
      var before := old(issued);
      forall k | 0 <= k < |before| ensures State().requests[k] == old(State()).requests[k] {
        assert before[k] in before;
      }
    }

    /** Takes the context out of the slot, cancels its token and answers on its channel. */
    method TakeAndReply(reply: Reply)
      requires Valid() && ctx.Some?
      modifies this`ctx, this`slot, ctx.value.cancellation, ctx.value.responseChannel
      ensures Valid() && issued == old(issued)
      ensures State() == S.TakeAndReply(old(State()), reply)
    {
      ghost var k := slot.value;
      var context := ctx.value;
      ctx, slot := None, None;
      context.cancellation.Cancel();
      context.responseChannel.Send(reply);
      assert forall i :: 0 <= i < |issued| && i != k ==>
        issued[i].cancellation != context.cancellation
        && issued[i].responseChannel != context.responseChannel;
      assert State().requests == S.TakeAndReply(old(State()), reply).requests;
    }

    method CancelRequest(id: S.RequestId)
      requires Valid()
      modifies this`ctx, this`slot, Footprint()
      ensures Valid() && issued == old(issued)
      ensures State() == S.CancelRequest(old(State()), id)
    {
      if ctx.Some? && ctx.value.requestId == id {
        TakeAndReply(S.CancelReply(id));
      }
    }

    method CompleteRequest(reply: Reply)
      requires Valid()
      modifies this`ctx, this`slot, Footprint()
      ensures Valid() && issued == old(issued)
      ensures State() == S.CompleteRequest(old(State()), reply)
    {
      if ctx.Some? {
        TakeAndReply(reply);
      }
    }
  }

  datatype Poll = Pending | Ready(item: Option<S.Event>)

  /** A stream of updates for one request. It keeps the token of the request it was started
      for and the service's slot, but not the request's identity. */
  class StateStream {
    const service: CredentialService
    const cancellation: CancellationToken
    ghost const request: nat

    ghost predicate Valid()
      reads this, service
    {
      service.Valid() && request < |service.issued|
      && cancellation == service.issued[request].cancellation
    }

    /** Starting a stream without a request in the slot is not handled by the service. */
    constructor (service: CredentialService)
      requires service.Valid() && service.ctx.Some?
      ensures Valid() && this.service == service && service.slot == Some(request)
    {
      this.service := service;
      this.cancellation := service.ctx.value.cancellation;
      this.request := service.slot.value;
    }

    /** `inner` is what polling the handler's stream gives. */
    method PollNext(inner: Poll) returns (poll: Poll)
      requires Valid()
      modifies service`ctx, service`slot, service.Footprint()
      ensures Valid() && service.issued == old(service.issued)
      ensures inner.Ready? && inner.item.Some? ==>
                var (s', item) := S.PollReady(old(service.State()), request, inner.item.value);
                service.State() == s' && poll == Ready(item)
      ensures inner.Ready? && inner.item.Some? ==>
                poll == if old(cancellation.cancelled) then Ready(None) else inner
      ensures inner.Pending? || inner.item.None? ==>
                poll == inner && service.State() == old(service.State())
    {
      match inner {
        case Pending =>
          return Pending;
        case Ready(None) =>
          return Ready(None);
        case Ready(Some(event)) =>
          if cancellation.cancelled {
            return Ready(None);
          }
          var reply := S.ReplyOf(event);
          if reply.Some? {
            service.CompleteRequest(reply.value);
          }
          return Ready(Some(event));
      }
    }
  }
}
