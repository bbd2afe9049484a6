/** What the daemon exchanges with authenticators and with its callers. */
module Authenticator {
  import opened Basics

  /** The opaque hash shown to the UI instead of a credential ID. */
  type Hash = seq<byte> -> string

  datatype Assertion = Assertion(credentialId: Option<seq<byte>>, signature: nat)

  datatype Answer = Created(attestation: nat) | Asserted(assertions: seq<Assertion>)

  datatype Response = Registration(attestation: nat) | Authentication(assertion: Assertion)

  datatype ServiceError =
    | AuthenticatorError
    | NoCredentials
    | CredentialExcluded
    | PinAttemptsExhausted
    | RequestCancelled
    | Internal(message: string)

  type Reply = Result<Response, ServiceError>

  /** The result of one authenticator operation, as the transports classify it. */
  datatype Attempt =
    | Answered(answer: Answer)
    | RetryableUserError
    | PinAuthBlocked
    | NoMatchingCredentials
    | AlreadyRegistered
    | OtherFailure

  function MapError(a: Attempt): ServiceError
    requires !a.Answered? && !a.RetryableUserError?
  {
    match a
    case PinAuthBlocked => PinAttemptsExhausted
    case NoMatchingCredentials => NoCredentials
    case AlreadyRegistered => CredentialExcluded
    case OtherFailure => AuthenticatorError
  }

  /** The retry loop every transport runs: user errors are retried, anything else settles the
      operation. `None` means the operation is still being retried. */
  method AwaitAnswer(attempts: seq<Attempt>) returns (result: Option<Result<Answer, ServiceError>>)
    ensures result.None? <==> forall a :: a in attempts ==> a.RetryableUserError?
    ensures result.Some? ==>
              exists k :: 0 <= k < |attempts|
                && (forall j :: 0 <= j < k ==> attempts[j].RetryableUserError?)
                && Settles(attempts[k], result.value)
    ensures result == Settlement(attempts)
  {
    var i := 0;
    while i < |attempts|
      invariant 0 <= i <= |attempts|
      invariant forall j :: 0 <= j < i ==> attempts[j].RetryableUserError?
      invariant Settlement(attempts) == Settlement(attempts[i..])
    {
      match attempts[i] {
        case Answered(answer) =>
          return Some(Ok(answer));
        case RetryableUserError =>
          i := i + 1;
        case _ =>
          return Some(Err(MapError(attempts[i])));
      }
    }
    return None;
  }

  ghost predicate Settles(a: Attempt, result: Result<Answer, ServiceError>) {
    match result
    case Ok(answer) => a == Answered(answer)
    case Err(e) => !a.Answered? && !a.RetryableUserError? && e == MapError(a)
  }

  function Settlement(attempts: seq<Attempt>): Option<Result<Answer, ServiceError>> {
    if attempts == [] then None
    else if attempts[0].RetryableUserError? then Settlement(attempts[1..])
    else if attempts[0].Answered? then Some(Ok(attempts[0].answer))
    else Some(Err(MapError(attempts[0])))
  }

  /** Whatever the authenticator reports, the retry loop never settles on a cancellation. */
  lemma {:induction false} SettlementNeverCancelled(attempts: seq<Attempt>)
    ensures Settlement(attempts) != Some(Err(RequestCancelled))
  {
    if attempts != [] {
      SettlementNeverCancelled(attempts[1..]);
    }
  }

  /** What the first attempt that is not retried means for the caller. */
  lemma {:induction false} SettlingAttemptDecides(attempts: seq<Attempt>, k: nat)
    requires k < |attempts| && !attempts[k].RetryableUserError?
    requires forall j :: 0 <= j < k ==> attempts[j].RetryableUserError?
    ensures match attempts[k]
            case Answered(answer) => Settlement(attempts) == Some(Ok(answer))
            case PinAuthBlocked => Settlement(attempts) == Some(Err(PinAttemptsExhausted))
            case NoMatchingCredentials => Settlement(attempts) == Some(Err(NoCredentials))
            case AlreadyRegistered => Settlement(attempts) == Some(Err(CredentialExcluded))
            case OtherFailure => Settlement(attempts) == Some(Err(AuthenticatorError))
            case RetryableUserError => false
  {
    if k > 0 {
      SettlingAttemptDecides(attempts[1..], k - 1);
    }
  }
}
