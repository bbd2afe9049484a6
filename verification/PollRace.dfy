/** The service with the two halves of a poll apart: the token is looked at first and the slot
    is taken later, with anything in between. */
module PollRace {
  import opened Basics
  import opened Authenticator
  import opened AuthenticatorMachine
  import opened Service

  /** A poll that found its token live and is about to answer. */
  datatype Pending = Pending(request: nat, reply: Reply)

  datatype Fine = Fine(service: State, pending: seq<Pending>)

  datatype Action =
    | Init(id: RequestId)
    | Cancel(id: RequestId)
    | Check(request: nat, event: Event)
    | Take(index: nat)

  ghost predicate Consistent(f: Fine) {
    && Agreement(f.service)
    && forall i :: 0 <= i < |f.pending| ==> f.pending[i].request < |f.service.requests|
  }

  ghost function Step(f: Fine, a: Action): Fine
    requires Consistent(f)
  {
    match a
    case Init(id) => f.(service := InitRequest(f.service, id).0)
    case Cancel(id) => f.(service := CancelRequest(f.service, id))
    case Check(k, e) =>
      if k < |f.service.requests| && !f.service.requests[k].cancelled && ReplyOf(e).Some?
      then f.(pending := f.pending + [Pending(k, ReplyOf(e).value)]) else f
    case Take(i) =>
      if i < |f.pending|
      then Fine(CompleteRequest(f.service, f.pending[i].reply),
                f.pending[..i] + f.pending[i + 1..])
      else f
  }

  /** Requests stay answered at most once, and only out of the slot, at this granularity too. */
  lemma StepKeepsConsistent(f: Fine, a: Action)
    requires Consistent(f)
    ensures Consistent(Step(f, a)) && Continues(f.service, Step(f, a).service)
  {
    match a {
      case Init(id) => InitKeepsAgreement(f.service, id);
      case Cancel(id) => CancelAnswersOnlyItsRequest(f.service, id);
      case Check(_, _) =>
      case Take(i) =>
        if i < |f.pending| && f.service.slot.Some? {
          ReplyKeepsAgreement(f.service, f.pending[i].reply);
        }
    }
  }

  /** The first half of a poll: a final event of a request whose token is live leaves an answer to be
      given; nothing else changes anything. */
  lemma CheckRules(f: Fine, k: nat, e: Event, reply: Reply)
    requires Consistent(f) && k < |f.service.requests|
    ensures f.service.requests[k].cancelled ==> Step(f, Check(k, e)) == f
    ensures !f.service.requests[k].cancelled && ReplyOf(e) == Some(reply) ==>
              Step(f, Check(k, e)) == f.(pending := f.pending + [Pending(k, reply)])
    ensures ReplyOf(e) == None ==> Step(f, Check(k, e)) == f
  {
  }

  ghost function Run(actions: seq<Action>): (f: Fine)
    ensures Consistent(f)
  {
    if actions == [] then Fine(EMPTY, [])
    else
      var f := Run(actions[..|actions| - 1]);
      StepKeepsConsistent(f, actions[|actions| - 1]);
      Step(f, actions[|actions| - 1])
  }

  /** A pending answer reaches the request it was computed for exactly when that request's token
      is still live at the moment the slot is taken; otherwise it reaches whichever request is
      in the slot by then, or nobody. */
  lemma AnswerReachesItsRequestIff(f: Fine, i: nat)
    requires Consistent(f) && i < |f.pending|
    ensures var p := f.pending[i];
            var after := Step(f, Take(i)).service;
            && (after.requests[p.request].replies == f.service.requests[p.request].replies + [p.reply]
                <==> !f.service.requests[p.request].cancelled)
            && (f.service.requests[p.request].cancelled ==>
                  match f.service.slot
                  case None => after == f.service
                  case Some(j) => j != p.request && after.requests[j].replies == [p.reply])
  {
    if f.service.slot.Some? {
      ReplyKeepsAgreement(f.service, f.pending[i].reply);
    }
  }

  /** The halves of a poll do drift apart: a request cancelled in between leaves its answer to
      the next request. */
  lemma LateAnswerReachesNextRequest(first: RequestId, second: RequestId, response: Response)
    ensures var done := DeviceEvent(Usb, Completed(response));
            var s := Step(Step(Step(Step(Step(Fine(EMPTY, []), Init(first)), Check(0, done)),
                                    Cancel(first)), Init(second)), Take(0)).service;
            s.requests[0].replies == [CancelReply(first)] && s.requests[1].replies == [Ok(response)]
  {
    var done := DeviceEvent(Usb, Completed(response));
    var f1 := Step(Fine(EMPTY, []), Init(first));
    assert f1.service.requests == [Request(first, false, [])];
    var f2 := Step(f1, Check(0, done));
    assert f2.pending == [Pending(0, Ok(response))];
    var f3 := Step(f2, Cancel(first));
    assert f2.service.requests[0].replies + [CancelReply(first)] == [CancelReply(first)];
    assert f3.service.requests[0] == Request(first, true, [CancelReply(first)]);
    var f4 := Step(f3, Init(second));
    assert f4.service.slot == Some(1);
    assert f4.service.requests[1] == Request(second, false, []);
  }
}
