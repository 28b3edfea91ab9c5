/** How the server answers one authenticated request, and how long it holds the guard for it. */
module ServerFlow {
  import opened ServerStore
  import opened FileSystemManager
  import opened AtomicMap

  datatype FlowRequest =
    | UploadRequest(path: string, segment: Segment)
    | RemoveRequest(path: string)
    | AbortRequest(path: string)
    | ProbeRequest
    | RestoreRequest(path: string, id: int)
    | NopRequest

  datatype Payload = Nothing | Files(files: map<string, Metadata>) | FileData(read: ReadOutcome)

  datatype Error = NoError | ConcurrentWrite | Refused(outcome: Outcome) | CannotRead

  datatype Response = Response(success: bool, error: Error, payload: Payload)

  predicate IsGuarded(request: FlowRequest) {
    request.UploadRequest? || request.RemoveRequest? || request.AbortRequest?
  }

  class ServerFlow {
    const fsm: FileSystemManager
    const svcMap: AtomicMap<string, nat>

    constructor (workersLimit: nat)
      ensures fresh(fsm) && fresh(svcMap)
      ensures fsm.Contents() == EMPTY_STORE && svcMap.entries == map[] && svcMap.limit == workersLimit
    {
      fsm := new FileSystemManager();
      svcMap := new AtomicMap(workersLimit);
    }

    /**
     `flow`, for the service `worker`, whose constructor of a guard need not wait. Whatever guards other
     workers hold, they are all that is left when the response is returned.
     */
    method Flow(user: string, request: FlowRequest, worker: nat) returns (response: Response)
      requires IsGuarded(request) ==>
        Token(user, request.path) in svcMap.entries || |svcMap.entries| < svcMap.limit
      modifies fsm, svcMap
      ensures svcMap.entries == old(svcMap.entries)
      ensures response.success <==> response.error == NoError
      ensures IsGuarded(request) && Token(user, request.path) in svcMap.entries ==>
        response == Response(false, ConcurrentWrite, Nothing) && fsm.Contents() == old(fsm.Contents())
      ensures request.UploadRequest? && Token(user, request.path) !in svcMap.entries ==>
        var (store, outcome) := Handle(old(fsm.Contents()), Request.Upload(Key(user, request.path), request.segment));
        && fsm.Contents() == store
        && response.error == if outcome == Accepted then NoError else Refused(outcome)
      ensures (request.RemoveRequest? || request.AbortRequest?) && Token(user, request.path) !in svcMap.entries ==>
        && response == Response(true, NoError, Nothing)
        && At(fsm.Contents(), Key(user, request.path)) == EMPTY_CELL
        && forall key | key != Key(user, request.path) :: At(fsm.Contents(), key) == old(At(fsm.Contents(), key))
      ensures request.ProbeRequest? || request.RestoreRequest? || request.NopRequest? ==>
        fsm.Contents() == old(fsm.Contents())
      ensures request.NopRequest? ==> response == Response(true, NoError, Nothing)
      ensures request.ProbeRequest? ==> response == Response(true, NoError, Files(Probe(fsm.Contents(), user)))
      ensures request.RestoreRequest? ==>
        var read := Read(At(fsm.Contents(), Key(user, request.path)), request.id);
        response == if read.Data? then Response(true, NoError, FileData(read)) else Response(false, CannotRead, Nothing)
    {
      match request
      case UploadRequest(path, segment) =>
        var token := Token(user, path);
        var present := svcMap.Has(token);
        if present {
          return Response(false, ConcurrentWrite, Nothing);
        }
        svcMap.Add(token, worker);
        var outcome := fsm.WriteFile(Key(user, path), segment);
        svcMap.Remove(token);
        response := if outcome == Accepted then Response(true, NoError, Nothing)
                    else Response(false, Refused(outcome), Nothing);
      case RemoveRequest(path) =>
        response := FlowDiscard(user, path, worker);
      case AbortRequest(path) =>
        response := FlowDiscard(user, path, worker);
      case ProbeRequest =>
        var files := fsm.GetFiles(user);
        response := Response(true, NoError, Files(files));
      case RestoreRequest(path, id) =>
        var read := fsm.ReadFileSegment(Key(user, path), id);
        response := if read.Data? then Response(true, NoError, FileData(read))
                    else Response(false, CannotRead, Nothing);
      case NopRequest =>
        response := Response(true, NoError, Nothing);
    }

    /** REMOVE and ABORT are handled alike. */
    method FlowDiscard(user: string, path: string, worker: nat) returns (response: Response)
      requires Token(user, path) in svcMap.entries || |svcMap.entries| < svcMap.limit
      modifies fsm, svcMap
      ensures svcMap.entries == old(svcMap.entries)
      ensures Token(user, path) in svcMap.entries ==>
        response == Response(false, ConcurrentWrite, Nothing) && fsm.Contents() == old(fsm.Contents())
      ensures Token(user, path) !in svcMap.entries ==>
        && response == Response(true, NoError, Nothing)
        && fsm.Contents() == Handle(old(fsm.Contents()), Discard(Key(user, path))).0
    {
      var token := Token(user, path);
      var present := svcMap.Has(token);
      if present {
        return Response(false, ConcurrentWrite, Nothing);
      }
      svcMap.Add(token, worker);
      fsm.RemoveFile(Key(user, path));
      svcMap.Remove(token);
      response := Response(true, NoError, Nothing);
    }
  }
}
