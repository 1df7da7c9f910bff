/**
 * The service's error values. Go builds errors as chains: a sentinel made with
 * `errors.New`, or a failure reported by a driver or library, wrapped by zero or
 * more layers of context (`errors.Wrap`, `fmt.Errorf("...: %w", err)`).
 * `Is` follows such a chain the way `errors.Is` does.
 */
module Errors {

  /** A failure reported by code outside the model: a store driver, a parser,
      a serializer or the message producer. Its content is opaque. */
  datatype Fault = Fault(code: nat)

  /** The sentinel errors the core compares against. */
  datatype Kind =
    | ClientNotFound             // repository.ErrClientNotFound
    | RequestAlreadyProcessed    // uCase.ErrRequestAlreadyProcessed
    | NotEqRequiredLength        // uCase.ErrNotEqRequiredLength

  /** The message each wrapping layer adds; one constructor per call site. */
  datatype Context =
    | GetFromRepository                        // IsExist: "error when getting data from the repository"
    | WriteClient                              // ClientRepo.Create: "failed to write the client to the database"
    | DeleteUser                               // ClientRepo.Delete: "failed to delete the user from the database"
    | CheckReqID                               // "can't checks reqID in idempotency repository"
    | CommitInRepository                       // "error when committing request in repository"
    | MarshalClient                            // "error when marshal client information"
    | CreateClientInRepo                       // "error when create new client in repo"
    | ConvertClientID                          // "error during convert client id"
    | Validation                               // "validation error"
    | SendAudio                                // "error during send audio"
    | LengthDetail(expected: int, actual: nat) // "%w: expected %d (bytes), got %d (bytes)"

  datatype Error =
    | Sentinel(kind: Kind)
    | Driver(fault: Fault)
    | Wrap(context: Context, cause: Error)

  const ErrClientNotFound: Error := Sentinel(ClientNotFound)
  const ErrRequestAlreadyProcessed: Error := Sentinel(RequestAlreadyProcessed)
  const ErrNotEqRequiredLength: Error := Sentinel(NotEqRequiredLength)

  /** `errors.Is(e, target)`: `target` is `e` itself or one of the errors it wraps. */
  predicate Is(e: Error, target: Error)
  {
    e == target || (e.Wrap? && Is(e.cause, target))
  }

  /** The innermost error of a chain. */
  function Root(e: Error): (r: Error)
    ensures !r.Wrap?
    ensures Is(e, r)
  {
    if e.Wrap? then Root(e.cause) else e
  }

  /** An error that ends in a driver fault matches no sentinel. */
  lemma {:induction false} DriverMatchesNoSentinel(e: Error, k: Kind)
    requires Root(e).Driver?
    ensures !Is(e, Sentinel(k))
  {
    if e.Wrap? {
      DriverMatchesNoSentinel(e.cause, k);
    }
  }
}
