/** Letting several connected devices blink and continuing with the one that is touched. */
module DeviceSelection {
  import opened Basics

  type Device = nat

  /** One schedule of the blink tasks: whether each device could be opened, whether it was
      touched, the order in which the tasks hand over their cancel handles and their answers,
      and whether the request is cancelled once the listed answers have arrived. */
  datatype Schedule = Schedule(
    opens: nat -> bool,
    touched: nat -> bool,
    handles: seq<nat>,
    answers: seq<nat>,
    cancelled: bool)

  /** Each task that opens its device sends one handle, and each task sends at most one answer. */
  ghost predicate Possible(n: nat, s: Schedule) {
    && Distinct(s.handles) && (forall i :: i in s.handles <==> i in Opened(n, s))
    && Distinct(s.answers) && (forall i :: i in s.answers ==> i < n)
  }

  ghost function Opened(n: nat, s: Schedule): set<nat> {
    set i: nat | i < n && s.opens(i)
  }

  datatype Selection = Selected(index: nat) | NoneSelected | SelectionCancelled

  /** A task answers with its index only if its device could be opened and was touched. */
  function Answer(s: Schedule, task: nat): Option<nat> {
    if s.opens(task) && s.touched(task) then Some(task) else None
  }

  /** The first touched device among the answers, or why there is none. */
  function Choose(s: Schedule, answers: seq<nat>): Selection {
    if answers == [] then (if s.cancelled then SelectionCancelled else NoneSelected)
    else match Answer(s, answers[0])
      case Some(idx) => Selected(idx)
      case None => Choose(s, answers[1..])
  }

  /** The devices whose operation must be interrupted when the selection is over. */
  ghost function Interrupted(n: nat, s: Schedule): set<nat> {
    match Choose(s, s.answers)
    case Selected(idx) => Opened(n, s) - {idx}
    case SelectionCancelled => Opened(n, s)
    case NoneSelected => {}
  }

  lemma {:induction false} ChosenWasTouched(s: Schedule, answers: seq<nat>)
    ensures Choose(s, answers).Selected? ==>
              var k := Choose(s, answers).index; k in answers && s.opens(k) && s.touched(k)
    ensures !Choose(s, answers).Selected? <==>
              forall k :: k in answers ==> !(s.opens(k) && s.touched(k))
  {
    if answers != [] {
      ChosenWasTouched(s, answers[1..]);
      assert forall k :: k in answers <==> k == answers[0] || k in answers[1..];
    }
  }

  /** Answer `p` is the earliest that comes from a device that was opened and touched. */
  ghost predicate FirstTouched(s: Schedule, answers: seq<nat>, p: int) {
    0 <= p < |answers| && s.opens(answers[p]) && s.touched(answers[p])
    && forall q :: 0 <= q < p ==> !(s.opens(answers[q]) && s.touched(answers[q]))
  }

  ghost predicate NoneTouched(s: Schedule, answers: seq<nat>) {
    forall q :: 0 <= q < |answers| ==> !(s.opens(answers[q]) && s.touched(answers[q]))
  }

  /** The earliest touched device is selected; without one, a cancelled request ends the selection
      as cancelled and any other as nothing selected. */
  lemma {:induction false} EarliestTouchIsChosen(s: Schedule, answers: seq<nat>)
    ensures forall p :: FirstTouched(s, answers, p) ==> Choose(s, answers) == Selected(answers[p])
    ensures NoneTouched(s, answers) ==>
              Choose(s, answers) == if s.cancelled then SelectionCancelled else NoneSelected
    ensures NoneTouched(s, answers) || exists p :: FirstTouched(s, answers, p)
  {
    if answers != [] && !(s.opens(answers[0]) && s.touched(answers[0])) {
      var rest := answers[1..];
      EarliestTouchIsChosen(s, rest);
      forall p | FirstTouched(s, answers, p) ensures FirstTouched(s, rest, p - 1) {
        assert forall q :: 0 <= q < p - 1 ==> rest[q] == answers[q + 1];
      }
      if NoneTouched(s, rest) {
        assert forall q :: 0 < q < |answers| ==> answers[q] == rest[q - 1];
      } else {
        var p :| FirstTouched(s, rest, p);
        assert forall q :: 0 < q < p + 1 ==> answers[q] == rest[q - 1];
        assert FirstTouched(s, answers, p + 1);
      }
    } else if answers != [] {
      assert FirstTouched(s, answers, 0);
    }
  }

  /** The selection as the daemon runs it. `cancelled` lists the handles on which the ongoing
      operation was cancelled, `handled` counts the answers taken from the channel. */
  method SelectDevice(devices: seq<Device>, s: Schedule)
    returns (selection: Selection, device: Option<Device>, cancelled: seq<nat>, handled: nat)
    requires Possible(|devices|, s)
    ensures selection == Choose(s, s.answers)
    ensures device.Some? <==> selection.Selected?
    ensures selection.Selected? ==>
              && selection.index < |devices| && device == Some(devices[selection.index])
              && selection.index in Opened(|devices|, s) && selection.index !in cancelled
    ensures Distinct(cancelled)
    ensures forall k :: k in cancelled <==> k in Interrupted(|devices|, s)
    ensures handled <= |devices|
    ensures forall p :: FirstTouched(s, s.answers, p) ==>
              && selection == Selected(s.answers[p])
              && forall k: nat :: k in cancelled <==>
                   k < |devices| && s.opens(k) && k != s.answers[p]
    ensures NoneTouched(s, s.answers) && s.cancelled ==>
              && selection == SelectionCancelled
              && forall k: nat :: k in cancelled <==> k < |devices| && s.opens(k)
    ensures NoneTouched(s, s.answers) && !s.cancelled ==> selection == NoneSelected && cancelled == []
  {
    EarliestTouchIsChosen(s, s.answers);
    var channels: map<nat, Device> := map[];
    for i := 0 to |s.handles|
      invariant forall k :: k in channels <==> k in s.handles[..i]
      invariant forall k :: k in channels ==> k < |devices| && channels[k] == devices[k]
    {
      assert s.handles[i] in s.handles;
      channels := channels[s.handles[i] := devices[s.handles[i]]];
    }
    assert s.handles[..|s.handles|] == s.handles;
    assert channels.Keys == Opened(|devices|, s);

    handled, cancelled, device := 0, [], None;
    AnswersFit(Below(|devices|), s.answers);
    while handled < |s.answers|
      invariant 0 <= handled <= |s.answers|
      invariant Choose(s, s.answers) == Choose(s, s.answers[handled..])
    {
      var message := Answer(s, s.answers[handled]);
      assert s.answers[handled] in s.answers;
      handled := handled + 1;
      if message.Some? {
        // The map always holds the answering device, so removing it cannot fail.
        assert message.value in channels;
        device := Some(channels[message.value]);
        channels := channels - {message.value};
        cancelled := CancelAll(channels);
        return Selected(message.value), device, cancelled, handled;
      }
    }
    if s.cancelled {
      cancelled := CancelAll(channels);
      return SelectionCancelled, None, cancelled, handled;
    }
    return NoneSelected, None, [], handled;
  }

  /** Cancels the operation on every remaining handle, in whatever order the map yields them. */
  method CancelAll(channels: map<nat, Device>) returns (cancelled: seq<nat>)
    ensures Distinct(cancelled)
    ensures forall k :: k in cancelled <==> k in channels
  {
    var rest := channels;
    cancelled := [];
    while rest != map[]
      invariant Distinct(cancelled)
      invariant rest.Keys <= channels.Keys
      invariant forall k :: k in cancelled <==> k in channels && k !in rest
      decreases |rest|
    {
      var key :| key in rest;
      cancelled := cancelled + [key];
      ghost var before := rest;
      rest := rest - {key};
      assert before.Keys == rest.Keys + {key};
      assert |before.Keys| == |rest.Keys| + 1;
    }
  }

  ghost function Below(n: nat): (b: set<nat>)
    ensures |b| == n
    ensures forall i: nat :: i in b <==> i < n
  {
    if n == 0 then {} else Below(n - 1) + {n - 1}
  }

  /** Distinct answers from a set of tasks are no more than the tasks. */
  lemma {:induction false} AnswersFit(tasks: set<nat>, answers: seq<nat>)
    requires Distinct(answers) && forall i :: i in answers ==> i in tasks
    ensures |answers| <= |tasks|
  {
    if answers != [] {
      var init, last := answers[..|answers| - 1], answers[|answers| - 1];
      forall i | i in init ensures i in tasks - {last} { assert i in answers; }
      AnswersFit(tasks - {last}, init);
    }
  }
}
