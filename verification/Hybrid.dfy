/** The phone transport: one task reports connection updates, another runs the operation and
    reports how it ended, and both send into the same channel. */
module Hybrid {
  import opened Basics
  import opened Authenticator

  datatype HybridState =
    | Init(qrCode: string)
    | Connecting
    | Connected
    | Done(response: Response)
    | Broken(error: ServiceError)

  datatype CableUpdate =
    | ProximityCheck
    | CableConnecting
    | CableAuthenticating
    | CableConnected
    | CableError
    | UnexpectedUv

  /** What the tasks meet. `Settle` gives the attempts of the operation and whether the token
      fires before one of them settles it. */
  datatype Input =
    | CreateDevice(qrCode: Option<string>)
    | OpenChannel(succeeds: bool)
    | Update(update: CableUpdate)
    | Settle(attempts: seq<Attempt>, cancelled: bool)

  /** `Polling` runs both tasks; in `Settled` only the update task is left. */
  datatype Stage = Fresh | Announced | Polling | Settled | Gone

  /** `settled` keeps the attempts of the operation that ended uncancelled while it was awaited. */
  datatype Config = Config(
    stage: Stage,
    emitted: seq<HybridState>,
    settled: Option<seq<Attempt>>)

  const START := Config(Fresh, [], None)

  function UpdateState(u: CableUpdate): Option<HybridState> {
    match u
    case ProximityCheck => None
    case CableConnecting => Some(Connecting)
    case CableAuthenticating => Some(Connecting)
    case CableConnected => Some(Connected)
    case CableError => Some(Broken(AuthenticatorError))
    case UnexpectedUv => None
  }

  /** The terminal state, if one is sent: a cancellation is silent, and an assertion response
      without assertions kills the task. */
  function TerminalState(attempts: seq<Attempt>): Option<HybridState> {
    match Settlement(attempts)
    case Some(Ok(Created(attestation))) => Some(Done(Registration(attestation)))
    case Some(Ok(Asserted(assertions))) =>
      if assertions == [] then None else Some(Done(Authentication(assertions[0])))
    case Some(Err(error)) => Some(Broken(error))
    case None => None
  }

  function Emit(c: Config, stage: Stage, s: Option<HybridState>): Config {
    c.(stage := stage, emitted := c.emitted + if s.Some? then [s.value] else [])
  }

  function Step(c: Config, i: Input): Config {
    match (c.stage, i)
    case (Fresh, CreateDevice(qr)) =>
      if qr.None? then c.(stage := Gone) else Emit(c, Announced, Some(Init(qr.value)))
    case (Announced, OpenChannel(succeeds)) => c.(stage := if succeeds then Polling else Gone)
    case (Polling, Update(u)) => Emit(c, Polling, UpdateState(u))
    case (Settled, Update(u)) => Emit(c, Settled, UpdateState(u))
    case (Polling, Settle(attempts, cancelled)) =>
      if cancelled then c.(stage := Settled)
      else if Settlement(attempts).None? then c
      else Emit(c.(settled := Some(attempts)), Settled, TerminalState(attempts))
    case _ => c
  }

  function Run(c: Config, inputs: seq<Input>): Config {
    if inputs == [] then c
    else Step(Run(c, inputs[..|inputs| - 1]), inputs[|inputs| - 1])
  }

  /** The QR code comes first and once, at most one response is sent, and nothing sent reports
      a cancellation. */
  ghost predicate Sound(c: Config) {
    && (c.stage.Fresh? ==> c.emitted == [])
    && (forall i :: 0 <= i < |c.emitted| ==> (c.emitted[i].Init? <==> i == 0))
    && (forall i :: 0 <= i < |c.emitted| && c.emitted[i].Done? ==> c.stage.Settled?)
    && (forall i, j :: 0 <= i < j < |c.emitted| ==> !(c.emitted[i].Done? && c.emitted[j].Done?))
    && (forall i :: 0 <= i < |c.emitted| ==> c.emitted[i] != Broken(RequestCancelled))
    && (c.stage.Announced? || c.stage.Polling? || c.stage.Settled? ==> c.emitted != [])
    && (forall i :: 0 <= i < |c.emitted| && c.emitted[i].Done? ==>
          c.settled.Some? && TerminalState(c.settled.value) == Some(c.emitted[i]))
  }

  lemma EmitKeepsSound(c: Config, stage: Stage, s: Option<HybridState>)
    requires Sound(c) && !stage.Fresh?
    requires s.Some? && s.value.Init? <==> c.stage.Fresh?
    requires s.Some? && s.value.Done? ==>
               && c.stage.Polling? && stage.Settled?
               && c.settled.Some? && TerminalState(c.settled.value) == s
    requires s != Some(Broken(RequestCancelled))
    requires c.stage.Settled? ==> stage.Settled?
    requires c.stage in {Fresh, Announced, Polling, Settled}
    ensures Sound(Emit(c, stage, s))
  {
  }

  lemma StepKeepsSound(c: Config, i: Input)
    requires Sound(c)
    ensures Sound(Step(c, i))
    ensures Step(c, i).emitted == c.emitted ||
            (|Step(c, i).emitted| == |c.emitted| + 1 && c.emitted == Step(c, i).emitted[..|c.emitted|])
  {
    match (c.stage, i)
    case (Fresh, CreateDevice(Some(qr))) => EmitKeepsSound(c, Announced, Some(Init(qr)));
    case (Polling, Update(u)) => EmitKeepsSound(c, Polling, UpdateState(u));
    case (Settled, Update(u)) => EmitKeepsSound(c, Settled, UpdateState(u));
    case (Polling, Settle(attempts, false)) =>
      SettlementNeverCancelled(attempts);
      EmitKeepsSound(c.(settled := Some(attempts)), Settled, TerminalState(attempts));
    case _ =>
  }

  lemma {:induction false} EveryRunIsSound(inputs: seq<Input>)
    ensures Sound(Run(START, inputs))
  {
    if inputs != [] {
      EveryRunIsSound(inputs[..|inputs| - 1]);
      StepKeepsSound(Run(START, inputs[..|inputs| - 1]), inputs[|inputs| - 1]);
    }
  }

  // ---------- what each input leads to ----------

  /** Before the operation runs: the QR code is announced if there is one, and a channel that cannot
      be opened ends the task without a word. */
  lemma SetupRules(c: Config, qr: string)
    requires c.stage.Fresh?
    ensures Step(c, CreateDevice(None)) == c.(stage := Gone)
    ensures var c1 := Step(c, CreateDevice(Some(qr)));
            && c1.emitted == c.emitted + [Init(qr)]
            && Step(c1, OpenChannel(false)) == c1.(stage := Gone)
            && Step(c1, OpenChannel(true)) == c1.(stage := Polling)
  {
  }

  /** While the update task runs, before and after the operation has settled. */
  lemma UpdateRules(c: Config)
    requires c.stage.Polling? || c.stage.Settled?
    ensures Step(c, Update(ProximityCheck)) == c && Step(c, Update(UnexpectedUv)) == c
    ensures Step(c, Update(CableConnecting)) == c.(emitted := c.emitted + [Connecting])
    ensures Step(c, Update(CableAuthenticating)) == c.(emitted := c.emitted + [Connecting])
    ensures Step(c, Update(CableConnected)) == c.(emitted := c.emitted + [Connected])
    ensures Step(c, Update(CableError)) == c.(emitted := c.emitted + [Broken(AuthenticatorError)])
  {
  }

  /** How the operation ends: cancelled without a word, or with what its settling attempt means. */
  lemma SettlementRules(c: Config, attempts: seq<Attempt>, k: nat)
    requires c.stage.Polling? && k < |attempts| && !attempts[k].RetryableUserError?
    requires forall j :: 0 <= j < k ==> attempts[j].RetryableUserError?
    ensures Step(c, Settle(attempts, true)) == c.(stage := Settled)
    ensures var c' := Step(c, Settle(attempts, false));
            && c'.stage == Settled && c'.settled == Some(attempts)
            && match attempts[k]
               case Answered(Created(x)) => c'.emitted == c.emitted + [Done(Registration(x))]
               case Answered(Asserted(xs)) =>
                 c'.emitted == c.emitted + if xs == [] then [] else [Done(Authentication(xs[0]))]
               case PinAuthBlocked => c'.emitted == c.emitted + [Broken(PinAttemptsExhausted)]
               case NoMatchingCredentials => c'.emitted == c.emitted + [Broken(NoCredentials)]
               case AlreadyRegistered => c'.emitted == c.emitted + [Broken(CredentialExcluded)]
               case OtherFailure => c'.emitted == c.emitted + [Broken(AuthenticatorError)]
               case RetryableUserError => false
  {
    SettlingAttemptDecides(attempts, k);
  }

  /** An operation that only met user errors goes on. */
  lemma RetryingGoesOn(c: Config, attempts: seq<Attempt>)
    requires c.stage.Polling? && forall a :: a in attempts ==> a.RetryableUserError?
    ensures Step(c, Settle(attempts, false)) == c
    ensures Step(c, Settle(attempts, true)) == c.(stage := Settled)
  {
    NeverSettles(attempts);
  }

  lemma {:induction false} NeverSettles(attempts: seq<Attempt>)
    requires forall a :: a in attempts ==> a.RetryableUserError?
    ensures Settlement(attempts) == None
  {
    if attempts != [] {
      NeverSettles(attempts[1..]);
    }
  }

  // ---------- where responses come from ----------

  ghost predicate Gives(a: Attempt, response: Response) {
    match response
    case Registration(attestation) => a == Answered(Created(attestation))
    case Authentication(assertion) =>
      a.Answered? && a.answer.Asserted? && a.answer.assertions != []
      && a.answer.assertions[0] == assertion
  }

  /** The first attempt that is not retried gives this response. */
  ghost predicate SettledWith(attempts: seq<Attempt>, response: Response) {
    exists k :: 0 <= k < |attempts|
      && (forall j :: 0 <= j < k ==> attempts[j].RetryableUserError?)
      && Gives(attempts[k], response)
  }

  ghost predicate AnsweredWith(c: Config, response: Response) {
    c.settled.Some? && SettledWith(c.settled.value, response)
  }

  /** An operation ends in a response exactly when its settling attempt gives it. */
  lemma {:induction false} EndsWithItsSettlingAnswer(attempts: seq<Attempt>, response: Response)
    ensures TerminalState(attempts) == Some(Done(response)) <==> SettledWith(attempts, response)
  {
    if attempts != [] && attempts[0].RetryableUserError? {
      var rest := attempts[1..];
      EndsWithItsSettlingAnswer(rest, response);
      if SettledWith(rest, response) {
        var k :| 0 <= k < |rest| && (forall j :: 0 <= j < k ==> rest[j].RetryableUserError?)
                 && Gives(rest[k], response);
        assert attempts[k + 1] == rest[k];
        assert forall j :: 0 < j < k + 1 ==> attempts[j] == rest[j - 1];
      }
      if SettledWith(attempts, response) {
        var k :| 0 <= k < |attempts| && (forall j :: 0 <= j < k ==> attempts[j].RetryableUserError?)
                 && Gives(attempts[k], response);
        assert rest[k - 1] == attempts[k];
        assert forall j :: 0 <= j < k - 1 ==> rest[j] == attempts[j + 1];
      }
    } else if attempts != [] && Gives(attempts[0], response) {
      assert SettledWith(attempts, response);
    }
  }

  /** A response that is sent is the one the settling attempt of the task's own operation gave. */
  lemma ResponsesWereAnswered(inputs: seq<Input>, response: Response)
    requires Done(response) in Run(START, inputs).emitted
    ensures AnsweredWith(Run(START, inputs), response)
  {
    EveryRunIsSound(inputs);
    EndsWithItsSettlingAnswer(Run(START, inputs).settled.value, response);
  }

  /** A task has been answered with at most one response, and with none before its operation has
      settled. */
  lemma AnsweredOnce(c: Config, first: Response, second: Response)
    ensures AnsweredWith(c, first) && AnsweredWith(c, second) ==> first == second
    ensures AnsweredWith(c, first) ==> c != START
  {
    if AnsweredWith(c, first) && AnsweredWith(c, second) {
      EndsWithItsSettlingAnswer(c.settled.value, first);
      EndsWithItsSettlingAnswer(c.settled.value, second);
    }
  }

  /** Connection updates only ever add connection states or an authenticator failure, and never
      end the operation. */
  lemma {:induction false} UpdatesOnlyReport(c: Config, updates: seq<CableUpdate>)
    requires c.stage.Polling? || c.stage.Settled?
    ensures var c' := Run(c, UpdateInputs(updates));
            && c'.stage == c.stage
            && |c.emitted| <= |c'.emitted| && c.emitted == c'.emitted[..|c.emitted|]
            && forall i :: |c.emitted| <= i < |c'.emitted| ==> ReportsConnection(c'.emitted[i])
  {
    if updates != [] {
      UpdatesOnlyReport(c, updates[..|updates| - 1]);
      UpdatesSnoc(c, updates);
    }
  }

  ghost predicate ReportsConnection(s: HybridState) {
    s.Connecting? || s.Connected? || s == Broken(AuthenticatorError)
  }

  lemma UpdatesSnoc(c: Config, updates: seq<CableUpdate>)
    requires updates != []
    ensures Run(c, UpdateInputs(updates)) ==
            Step(Run(c, UpdateInputs(updates[..|updates| - 1])), Update(updates[|updates| - 1]))
  {
    var inputs := UpdateInputs(updates);
    assert inputs[..|inputs| - 1] == UpdateInputs(updates[..|updates| - 1]);
  }

  lemma UpdateEmits(c: Config, updates: seq<CableUpdate>, i: nat)
    requires c.stage.Polling? || c.stage.Settled?
    requires i < |updates|
    ensures var c' := Run(c, UpdateInputs(updates[..i]));
            Run(c, UpdateInputs(updates[..i + 1])) == Emit(c', c'.stage, UpdateState(updates[i]))
  {
    UpdatesOnlyReport(c, updates[..i]);
    UpdatesSnoc(c, updates[..i + 1]);
    assert updates[..i + 1][..i] == updates[..i];
  }

  /** The update task's loop: it relays connection updates for as long as they come. */
  method HandleUpdates(c: Config, updates: seq<CableUpdate>) returns (c': Config)
    requires c.stage.Polling? || c.stage.Settled?
    ensures c' == Run(c, UpdateInputs(updates))
  {
    c' := c;
    for i := 0 to |updates|
      invariant c' == Run(c, UpdateInputs(updates[..i]))
    {
      UpdateEmits(c, updates, i);
      var state := UpdateState(updates[i]);
      if state.Some? {
        c' := c'.(emitted := c'.emitted + [state.value]);
      }
    }
    assert updates[..|updates|] == updates;
  }

  function UpdateInputs(updates: seq<CableUpdate>): (inputs: seq<Input>)
    ensures |inputs| == |updates|
  {
    if updates == [] then []
    else UpdateInputs(updates[..|updates| - 1]) + [Update(updates[|updates| - 1])]
  }

  /** While both tasks run, each can send a terminal state, and the update task can still send
      one after the operation has settled. */
  lemma BothProducersCanFinish(c: Config, attestation: nat)
    requires c.stage.Polling?
    ensures var c1 := Step(c, Update(CableError));
            var c2 := Step(c1, Settle([RetryableUserError, Answered(Created(attestation))], false));
            var c3 := Step(c2, Update(CableError));
            c3.emitted == c.emitted + [Broken(AuthenticatorError), Done(Registration(attestation)),
                                       Broken(AuthenticatorError)]
  {
    var attempts := [RetryableUserError, Answered(Created(attestation))];
    assert attempts[1..] == [Answered(Created(attestation))];
    assert Settlement(attempts) == Some(Ok(Created(attestation)));
  }
}
