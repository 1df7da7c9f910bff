/**
 * The idempotency protocol of the use case layer, as functions on the state of
 * both stores. A guarded mutation runs check, then mutate, then commit, and
 * stops at the first failure: a request identifier is committed only after its
 * mutation succeeded, and while it is committed every replay is rejected
 * before it touches the client store. The methods of `UCase.UseCase` are
 * proved to behave as these functions say; the lemmas here state what the
 * protocol guarantees over one call and over a sequence of calls.
 */
module Protocol {

  import opened Wrappers
  import opened Bytes
  import opened Errors
  import opened Redis
  import opened ClientStore

  /** The client information a request carries, kept opaque: the model knows
      it only through the bytes its JSON encoding produces. */
  datatype ClientInfo = ClientInfo(encoding: seq<byte>)

  /** `json.Marshal`, whose failure is injected. */
  function Marshal(info: ClientInfo, fault: Option<Fault>): Result<seq<byte>, Error>
  {
    if fault.Some? then Failure(Driver(fault.value)) else Success(info.encoding)
  }

  /** The idempotency keyspace (with its clock) and the client store. */
  datatype World = World(keys: Data, now: int, records: Records, minted: nat)

  ghost predicate Wf(w: World)
  {
    Allocated(w.records, w.minted)
  }

  function Tick(w: World, dt: nat): World
  {
    w.(now := w.now + dt)
  }

  /** The outcome each store call of one request will have. */
  datatype CreateFaults = CreateFaults(check: Option<Fault>, marshal: Option<Fault>, create: Option<Fault>, commit: Option<Fault>)
  datatype DeleteFaults = DeleteFaults(check: Option<Fault>, delete: Option<Fault>, commit: Option<Fault>)

  const NoCreateFaults := CreateFaults(None, None, None, None)
  const NoDeleteFaults := DeleteFaults(None, None, None)

  datatype Reply = Reply(world: World, uid: string, err: Option<Error>)
  datatype Ack = Ack(world: World, err: Option<Error>)

  /** checkRequestInIdempotencyRepo: fails closed on a query error, rejects a
      committed key, lets an uncommitted one through. */
  function Check(keys: Data, now: int, key: string, fault: Option<Fault>): (r: Option<Error>)
    ensures fault.Some? ==> r.Some? && !Is(r.value, ErrRequestAlreadyProcessed)
    ensures fault.None? ==> (r == Some(ErrRequestAlreadyProcessed) <==> Visible(keys, now, key))
    ensures fault.None? ==> (r.None? <==> !Visible(keys, now, key))
  {
    if fault.Some? then
      var e := Wrap(CheckReqID, Wrap(GetFromRepository, Driver(fault.value)));
      DriverMatchesNoSentinel(e, RequestAlreadyProcessed);
      Some(e)
    else if Visible(keys, now, key) then Some(ErrRequestAlreadyProcessed)
    else None
  }

  function CreateNewClientSpec(w: World, ttl: int, reqID: string, info: ClientInfo, f: CreateFaults): Reply
  {
    match Check(w.keys, w.now, reqID, f.check)
    case Some(e) => Reply(w, "", Some(e))
    case None =>
      match Marshal(info, f.marshal)
      case Failure(e) => Reply(w, "", Some(Wrap(MarshalClient, e)))
      case Success(bytes) =>
        if f.create.Some? then Reply(w, "", Some(Wrap(CreateClientInRepo, Driver(f.create.value))))
        else
          var uid := Mint(w.minted);
          var w1 := w.(records := w.records[uid := bytes], minted := w.minted + 1);
          if f.commit.Some? then Reply(w1, "", Some(Wrap(CommitInRepository, Driver(f.commit.value))))
          else Reply(w1.(keys := Put(w.keys, w.now, reqID, Flag(true), ttl)), uid, None)
  }

  function DeleteClientSpec(w: World, ttl: int, reqID: string, uid: string, f: DeleteFaults): Ack
  {
    match Check(w.keys, w.now, reqID, f.check)
    case Some(e) => Ack(w, Some(e))
    case None =>
      if f.delete.Some? then Ack(w, Some(Driver(f.delete.value)))
      else if uid !in w.records then Ack(w, Some(ErrClientNotFound))
      else
        var w1 := w.(records := w.records - {uid});
        if f.commit.Some? then Ack(w1, Some(Wrap(CommitInRepository, Driver(f.commit.value))))
        else Ack(w1.(keys := Put(w.keys, w.now, reqID, Flag(true), ttl)), None)
  }

  // ---------------------------------------------------------------------------
  // One call of CreateNewClient

  /** A create answers with an identifier and no error exactly when the check,
      the serialization, the insert and the commit all succeeded; it then added
      one fresh record holding the encoded information, and committed the key. */
  lemma CreateSucceedsOnlyWhenEveryStepDoes(w: World, ttl: int, reqID: string, info: ClientInfo, f: CreateFaults)
    requires Wf(w)
    ensures var r := CreateNewClientSpec(w, ttl, reqID, info, f);
      && Wf(r.world)
      && (r.err.None? <==>
            f == NoCreateFaults && !Visible(w.keys, w.now, reqID))
      && (r.err.None? ==>
            && r.uid != "" && r.uid !in w.records
            && r.world.records == w.records[r.uid := info.encoding]
            && Visible(r.world.keys, r.world.now, reqID))
      && (r.err.Some? ==> r.uid == "")
  {
    MintIsFresh(w.records, w.minted, info.encoding);
  }

  /** A create whose key is committed is rejected with `ErrRequestAlreadyProcessed`
      and changes neither store; a failed key query is an error that is neither
      nil nor `ErrRequestAlreadyProcessed`, again with no change. */
  lemma CreateOfCommittedKeyIsRejected(w: World, ttl: int, reqID: string, info: ClientInfo, f: CreateFaults)
    requires f.check.Some? || Visible(w.keys, w.now, reqID)
    ensures var r := CreateNewClientSpec(w, ttl, reqID, info, f);
      && r.world == w && r.uid == ""
      && (f.check.None? ==> r.err == Some(ErrRequestAlreadyProcessed))
      && (f.check.Some? ==> r.err.Some? && !Is(r.err.value, ErrRequestAlreadyProcessed))
  {
  }

  /** Replay rejection: after a successful create, the same request identifier
      is rejected for the rest of the ttl, and the client store is untouched. */
  lemma ReplayWithinTtlIsRejected(w: World, ttl: int, reqID: string, info: ClientInfo, info2: ClientInfo,
                                  f2: CreateFaults, dt: nat)
    requires CreateNewClientSpec(w, ttl, reqID, info, NoCreateFaults).err.None?
    requires ttl <= 0 || dt < ttl
    requires f2.check.None?
    ensures var w1 := Tick(CreateNewClientSpec(w, ttl, reqID, info, NoCreateFaults).world, dt);
      CreateNewClientSpec(w1, ttl, reqID, info2, f2) == Reply(w1, "", Some(ErrRequestAlreadyProcessed))
  {
  }

  /** Expiry reopens: once the ttl has run out since a successful create, the
      same request identifier creates a second, different record. */
  lemma ReplayAfterTtlCreatesAgain(w: World, ttl: int, reqID: string, info: ClientInfo, info2: ClientInfo, dt: nat)
    requires Wf(w)
    requires CreateNewClientSpec(w, ttl, reqID, info, NoCreateFaults).err.None?
    requires 0 < ttl <= dt
    ensures var r1 := CreateNewClientSpec(w, ttl, reqID, info, NoCreateFaults);
      var r2 := CreateNewClientSpec(Tick(r1.world, dt), ttl, reqID, info2, NoCreateFaults);
      && r2.err.None? && r2.uid != r1.uid
      && r2.world.records == w.records[r1.uid := info.encoding][r2.uid := info2.encoding]
  {
    var r1 := CreateNewClientSpec(w, ttl, reqID, info, NoCreateFaults);
    CreateSucceedsOnlyWhenEveryStepDoes(w, ttl, reqID, info, NoCreateFaults);
    CreateSucceedsOnlyWhenEveryStepDoes(Tick(r1.world, dt), ttl, reqID, info2, NoCreateFaults);
  }

  /** No commit on failure: when serialization or the insert fails, neither
      store changes, so a retry with the same identifier creates the client.
      The retry carries its own information: serialization is deterministic,
      so one that failed fails again on the same input. */
  lemma FailedCreateCommitsNothing(w: World, ttl: int, reqID: string, info: ClientInfo, info2: ClientInfo, f: CreateFaults)
    requires Wf(w)
    requires f.check.None? && !Visible(w.keys, w.now, reqID)
    requires f.marshal.Some? || f.create.Some?
    ensures var r := CreateNewClientSpec(w, ttl, reqID, info, f);
      && r.err.Some? && r.world == w
      && CreateNewClientSpec(r.world, ttl, reqID, info2, NoCreateFaults).err.None?
  {
  }

  /** The known gap: when the commit fails after the insert, the record stays
      but the key is not committed, so a retry creates a second record. */
  lemma FailedCommitOrphansRecord(w: World, ttl: int, reqID: string, info: ClientInfo, fault: Fault)
    requires Wf(w)
    requires !Visible(w.keys, w.now, reqID)
    ensures var r1 := CreateNewClientSpec(w, ttl, reqID, info, CreateFaults(None, None, None, Some(fault)));
      var r2 := CreateNewClientSpec(r1.world, ttl, reqID, info, NoCreateFaults);
      && r1.err == Some(Wrap(CommitInRepository, Driver(fault)))
      && Mint(w.minted) in r1.world.records && r1.world.keys == w.keys
      && r2.err.None?
      && |r2.world.records| == |w.records| + 2
  {
    MintIsFresh(w.records, w.minted, info.encoding);
    var r1 := CreateNewClientSpec(w, ttl, reqID, info, CreateFaults(None, None, None, Some(fault)));
    MintIsFresh(r1.world.records, r1.world.minted, info.encoding);
  }

  // ---------------------------------------------------------------------------
  // A sequence of creates with one request identifier

  /** One attempt of a retrying client: wait, then send the request. */
  datatype Attempt = Attempt(wait: nat, info: ClientInfo, faults: CreateFaults)

  function Elapsed(steps: seq<Attempt>): nat
  {
    if steps == [] then 0 else steps[0].wait + Elapsed(steps[1..])
  }

  /** Run every attempt, all with request identifier `reqID`. */
  function Replay(w: World, ttl: int, reqID: string, steps: seq<Attempt>): World
    decreases |steps|
  {
    if steps == [] then w
    else
      var r := CreateNewClientSpec(Tick(w, steps[0].wait), ttl, reqID, steps[0].info, steps[0].faults);
      Replay(r.world, ttl, reqID, steps[1..])
  }

  /** While the key stays committed, no sequence of replays changes anything
      but the clock. */
  lemma {:induction false} ReplaysWhileCommittedChangeNothing(w: World, ttl: int, reqID: string, steps: seq<Attempt>)
    requires Visible(w.keys, w.now + Elapsed(steps), reqID)
    ensures Replay(w, ttl, reqID, steps) == Tick(w, Elapsed(steps))
    decreases |steps|
  {
    if steps != [] {
      var w1 := Tick(w, steps[0].wait);
      assert Visible(w1.keys, w1.now, reqID);
      ReplaysWhileCommittedChangeNothing(w1, ttl, reqID, steps[1..]);
    }
  }

  /** At most once within the ttl: however a client retries one request
      identifier, as long as no commit fails and all attempts fall within one
      ttl, the client store gains at most one record and keeps every record it
      had. */
  lemma {:induction false} AtMostOneRecordPerRequestWithinTtl(w: World, ttl: int, reqID: string, steps: seq<Attempt>)
    requires Wf(w)
    requires forall i :: 0 <= i < |steps| ==> steps[i].faults.commit.None?
    requires ttl <= 0 || Elapsed(steps) < ttl
    ensures var w' := Replay(w, ttl, reqID, steps);
      && Wf(w')
      && (forall id :: id in w.records ==> id in w'.records && w'.records[id] == w.records[id])
      && |w'.records| <= |w.records| + 1
    decreases |steps|
  {
    if steps != [] {
      var w0 := Tick(w, steps[0].wait);
      var r := CreateNewClientSpec(w0, ttl, reqID, steps[0].info, steps[0].faults);
      var rest := steps[1..];
      CreateSucceedsOnlyWhenEveryStepDoes(w0, ttl, reqID, steps[0].info, steps[0].faults);
      if r.err.None? {
        assert Visible(r.world.keys, r.world.now + Elapsed(rest), reqID);
        ReplaysWhileCommittedChangeNothing(r.world, ttl, reqID, rest);
      } else {
        assert r.world == w0;
        forall i | 0 <= i < |rest|
          ensures rest[i].faults.commit.None?
        {
          assert rest[i] == steps[i + 1];
        }
        AtMostOneRecordPerRequestWithinTtl(w0, ttl, reqID, rest);
      }
    }
  }

  // ---------------------------------------------------------------------------
  // One call of DeleteClient

  /** A delete whose key is committed is rejected and deletes nothing. */
  lemma DeleteOfCommittedKeyIsRejected(w: World, ttl: int, reqID: string, uid: string, f: DeleteFaults)
    requires f.check.None? && Visible(w.keys, w.now, reqID)
    ensures DeleteClientSpec(w, ttl, reqID, uid, f) == Ack(w, Some(ErrRequestAlreadyProcessed))
  {
  }

  /** When the request identifier is not committed and neither the key query
      nor the store call fails, a delete of an identifier the store does not
      hold yields exactly `ErrClientNotFound`, unwrapped, and does not commit
      the key. */
  lemma DeleteOfAbsentClientIsNotFound(w: World, ttl: int, reqID: string, uid: string, f: DeleteFaults)
    requires f.check.None? && f.delete.None?
    requires !Visible(w.keys, w.now, reqID) && uid !in w.records
    ensures DeleteClientSpec(w, ttl, reqID, uid, f) == Ack(w, Some(ErrClientNotFound))
  {
  }

  /** A delete succeeds exactly when every step does and the client exists; it
      then removed that client alone and committed the key. A failed delete
      never commits the key, and one that fails before reaching the commit
      changes nothing at all, whatever fault the commit would have had. */
  lemma DeleteSucceedsOnlyWhenEveryStepDoes(w: World, ttl: int, reqID: string, uid: string, f: DeleteFaults)
    ensures var a := DeleteClientSpec(w, ttl, reqID, uid, f);
      && (a.err.None? <==>
            f == NoDeleteFaults && !Visible(w.keys, w.now, reqID) && uid in w.records)
      && (a.err.None? ==>
            && a.world.records == w.records - {uid}
            && Visible(a.world.keys, a.world.now, reqID))
      && (a.err.Some? ==> a.world.keys == w.keys)
      && (a.err.Some? &&
          !(f.check.None? && !Visible(w.keys, w.now, reqID) && f.delete.None? && uid in w.records)
          ==> a.world == w)
  {
  }

  /** Replay rejection for deletes: after a successful delete, the same
      request identifier is rejected for the rest of the ttl and deletes
      nothing, whichever client it names. */
  lemma DeleteReplayWithinTtlIsRejected(w: World, ttl: int, reqID: string, uid: string, uid2: string,
                                        f2: DeleteFaults, dt: nat)
    requires DeleteClientSpec(w, ttl, reqID, uid, NoDeleteFaults).err.None?
    requires ttl <= 0 || dt < ttl
    requires f2.check.None?
    ensures var w1 := Tick(DeleteClientSpec(w, ttl, reqID, uid, NoDeleteFaults).world, dt);
      DeleteClientSpec(w1, ttl, reqID, uid2, f2) == Ack(w1, Some(ErrRequestAlreadyProcessed))
  {
  }

  // ---------------------------------------------------------------------------
  // Requests with other identifiers

  /** A committed key stays committed through one create or delete carrying
      any request identifier: the guard only ever writes the key of its own
      request, and a request with the committed key is rejected. */
  lemma OtherRequestsKeepCommittedKeys(w: World, ttl: int, reqID: string, info: ClientInfo, f: CreateFaults,
                                       uid: string, g: DeleteFaults, r: string, t: int)
    requires w.now <= t && Visible(w.keys, t, r)
    ensures Visible(CreateNewClientSpec(w, ttl, reqID, info, f).world.keys, t, r)
    ensures Visible(DeleteClientSpec(w, ttl, reqID, uid, g).world.keys, t, r)
  {
  }

  /** One request a server may receive. */
  datatype Request =
    | CreateRequest(reqID: string, info: ClientInfo, createFaults: CreateFaults)
    | DeleteRequest(reqID: string, uid: string, deleteFaults: DeleteFaults)

  /** A request arriving `wait` units after the previous one. */
  datatype Arrival = Arrival(wait: nat, request: Request)

  function Serve(w: World, ttl: int, q: Request): World
  {
    match q
    case CreateRequest(reqID, info, f) => CreateNewClientSpec(w, ttl, reqID, info, f).world
    case DeleteRequest(reqID, uid, f) => DeleteClientSpec(w, ttl, reqID, uid, f).world
  }

  function Span(arrivals: seq<Arrival>): nat
  {
    if arrivals == [] then 0 else arrivals[0].wait + Span(arrivals[1..])
  }

  /** Serve every request in order, each after its wait. */
  function Serving(w: World, ttl: int, arrivals: seq<Arrival>): World
    decreases |arrivals|
  {
    if arrivals == [] then w
    else Serving(Serve(Tick(w, arrivals[0].wait), ttl, arrivals[0].request), ttl, arrivals[1..])
  }

  /** Replay rejection under arbitrary traffic: a key committed until after the
      end of any interleaving of creates and deletes, whatever their
      identifiers and faults, is still committed at its end, so the next
      create or delete with that key is rejected and changes nothing. */
  lemma {:induction false} CommittedKeySurvivesAnyTraffic(w: World, ttl: int, r: string, arrivals: seq<Arrival>,
                                                           info: ClientInfo, f: CreateFaults, uid: string, g: DeleteFaults)
    requires Visible(w.keys, w.now + Span(arrivals), r)
    requires f.check.None? && g.check.None?
    ensures var w' := Serving(w, ttl, arrivals);
      && w'.now == w.now + Span(arrivals)
      && Visible(w'.keys, w'.now, r)
      && CreateNewClientSpec(w', ttl, r, info, f) == Reply(w', "", Some(ErrRequestAlreadyProcessed))
      && DeleteClientSpec(w', ttl, r, uid, g) == Ack(w', Some(ErrRequestAlreadyProcessed))
    decreases |arrivals|
  {
    if arrivals != [] {
      var w0 := Tick(w, arrivals[0].wait);
      var w1 := Serve(w0, ttl, arrivals[0].request);
      var rest := arrivals[1..];
      match arrivals[0].request {
        case CreateRequest(reqID, info0, f0) =>
          OtherRequestsKeepCommittedKeys(w0, ttl, reqID, info0, f0, "", NoDeleteFaults, r, w.now + Span(arrivals));
        case DeleteRequest(reqID, uid0, g0) =>
          OtherRequestsKeepCommittedKeys(w0, ttl, reqID, info, NoCreateFaults, uid0, g0, r, w.now + Span(arrivals));
      }
      assert w1.now == w0.now;
      CommittedKeySurvivesAnyTraffic(w1, ttl, r, rest, info, f, uid, g);
    }
  }
}
