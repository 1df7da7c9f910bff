/**
 * The use case layer of the key-value variant: the idempotency guard
 * (checkRequestInIdempotencyRepo, commitRequest) and the guarded client
 * operations built on it (CreateNewClient, DeleteClient). Each injected fault
 * argument fixes the outcome of the store call it is named after.
 */
module UCase {

  import opened Wrappers
  import opened Errors
  import opened Redis
  import opened IdempotencyKeyRepo
  import opened ClientStore
  import opened Protocol

  class UseCase {
    const requestRepo: RequestIdempotencyKeyRepo
    const clientRepo: ClientStore

    constructor (requestRepo: RequestIdempotencyKeyRepo, clientRepo: ClientStore)
      requires clientRepo.Valid()
      ensures Valid()
      ensures this.requestRepo == requestRepo && this.clientRepo == clientRepo
    {
      this.requestRepo := requestRepo;
      this.clientRepo := clientRepo;
    }

    ghost predicate Valid()
      reads clientRepo
    {
      clientRepo.Valid()
    }

    /** Both stores, seen as one value. */
    function State(): World
      reads requestRepo.db, clientRepo
    {
      World(requestRepo.db.data, requestRepo.db.now, clientRepo.records, clientRepo.minted)
    }

    /** Fails closed: a failed query is an error, and never nil or
        `ErrRequestAlreadyProcessed`; otherwise the answer is
        `ErrRequestAlreadyProcessed` exactly when the key is committed. */
    method CheckRequestInIdempotencyRepo(key: string, fault: Option<Fault>) returns (err: Option<Error>)
      ensures err == Check(requestRepo.db.data, requestRepo.db.now, key, fault)
      ensures fault.Some? ==> err == Some(Wrap(CheckReqID, Wrap(GetFromRepository, Driver(fault.value))))
      ensures fault.Some? ==> !Is(err.value, ErrRequestAlreadyProcessed)
      ensures fault.None? ==> (err == Some(ErrRequestAlreadyProcessed) <==> Visible(requestRepo.db.data, requestRepo.db.now, key))
      ensures fault.None? ==> (err.None? <==> !Visible(requestRepo.db.data, requestRepo.db.now, key))
    {
      var isExist, e := requestRepo.IsExist(key, fault);
      if e.Some? {
        DriverMatchesNoSentinel(Wrap(CheckReqID, e.value), RequestAlreadyProcessed);
        return Some(Wrap(CheckReqID, e.value));
      } else {
        if isExist {
          return Some(ErrRequestAlreadyProcessed);
        }
      }
      return None;
    }

    /** Commit `key`; a failure comes back wrapped. */
    method CommitRequest(key: string, fault: Option<Fault>) returns (err: Option<Error>)
      modifies requestRepo.db
      ensures requestRepo.db.now == old(requestRepo.db.now)
      ensures fault.Some? ==> err == Some(Wrap(CommitInRepository, Driver(fault.value)))
      ensures fault.Some? ==> requestRepo.db.data == old(requestRepo.db.data)
      ensures fault.None? ==> err.None?
      ensures fault.None? ==> requestRepo.db.data == Put(old(requestRepo.db.data), requestRepo.db.now, key, Flag(true), requestRepo.ttl)
      ensures fault.None? ==> Visible(requestRepo.db.data, requestRepo.db.now, key)
    {
      var e := requestRepo.Commit(key, fault);
      if e.Some? {
        return Some(Wrap(CommitInRepository, e.value));
      }
      return None;
    }

    /** check, serialize, insert, commit; the first failure ends the request. */
    method CreateNewClient(reqID: string, information: ClientInfo, f: CreateFaults) returns (uid: string, err: Option<Error>)
      requires Valid()
      modifies requestRepo.db, clientRepo
      ensures Valid()
      ensures Reply(State(), uid, err) == CreateNewClientSpec(old(State()), requestRepo.ttl, reqID, information, f)
    {
      var e := CheckRequestInIdempotencyRepo(reqID, f.check);
      if e.Some? {
        return "", e;
      }

      var bInfo := Marshal(information, f.marshal);
      if bInfo.Failure? {
        return "", Some(Wrap(MarshalClient, bInfo.error));
      }

      var id, ce := clientRepo.Create(bInfo.value, f.create);
      if ce.Some? {
        return "", Some(Wrap(CreateClientInRepo, ce.value));
      }

      e := CommitRequest(reqID, f.commit);
      if e.Some? {
        return "", e;
      }

      return id, None;
    }

    /** check, delete, commit; a store error from the delete is returned as it is. */
    method DeleteClient(reqID: string, uid: string, f: DeleteFaults) returns (err: Option<Error>)
      requires Valid()
      modifies requestRepo.db, clientRepo
      ensures Valid()
      ensures Ack(State(), err) == DeleteClientSpec(old(State()), requestRepo.ttl, reqID, uid, f)
    {
      var e := CheckRequestInIdempotencyRepo(reqID, f.check);
      if e.Some? {
        return e;
      }

      e := clientRepo.Delete(uid, f.delete);
      if e.Some? {
        return e;
      }

      e := CommitRequest(reqID, f.commit);
      if e.Some? {
        return e;
      }

      return None;
    }
  }
}
