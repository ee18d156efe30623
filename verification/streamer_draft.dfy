/** The earlier draft of the control loop (src/streamer/server.rs): only a
    local registrations table, and an `AddConnection` command that carries
    nothing and does nothing. */
module StreamerDraft {
  import opened Common
  import StreamServer

  /** `transfer::stream::StreamId`; it plays the role the job id plays in the
      later revision. */
  type StreamId = nat

  /** `StreamServerControlMessage` of src/streamer/control.rs. */
  datatype ControlMessage =
    | RegisterStream(stream: StreamId, path: StreamServer.Path)
    | UnregisterStream(stream: StreamId)
    | AddConnection

  type Registrations = map<StreamId, StreamServer.Path>

  /** The table `stream_server_main` starts from. */
  function Initial(): (regs: Registrations)
    ensures |regs| == 0
  {
    map[]
  }

  /** One iteration of the draft's control loop; its `assert!` on double
      registration becomes a failure. */
  function Step(regs: Registrations, msg: ControlMessage): (r: Result<Registrations, StreamServer.ControlError>)
    ensures r.Failure? <==> msg.RegisterStream? && msg.stream in regs
    ensures r.Success? && msg.RegisterStream? ==>
              && r.value.Keys == regs.Keys + {msg.stream}
              && r.value[msg.stream] == msg.path
              && forall k :: k in regs ==> r.value[k] == regs[k]
    ensures msg.UnregisterStream? ==> r.Success? && msg.stream !in r.value
    ensures msg.UnregisterStream? ==>
              forall k :: k in regs && k != msg.stream ==> k in r.value && r.value[k] == regs[k]
    ensures msg.UnregisterStream? ==> r.Success? && r.value.Keys == regs.Keys - {msg.stream}
    ensures msg.AddConnection? ==> r == Success(regs)
  {
    match msg
    case RegisterStream(stream, path) =>
      if stream in regs then Failure(StreamServer.DoubleRegistration(stream))
      else Success(regs[stream := path])
    case UnregisterStream(stream) => Success(regs - {stream})
    case AddConnection => Success(regs)
  }

  /** The draft's loop over the received commands, in receipt order. */
  function Run(regs: Registrations, msgs: seq<ControlMessage>): (r: Result<Registrations, StreamServer.ControlError>)
    // every stream in the final table was there initially or was registered
    ensures r.Success? ==> forall k :: k in r.value ==>
              k in regs || exists i :: 0 <= i < |msgs| && msgs[i].RegisterStream? && msgs[i].stream == k
    // a failure names a stream that some command registers
    ensures r.Failure? ==> exists i :: 0 <= i < |msgs| && msgs[i].RegisterStream? && msgs[i].stream == r.error.job
    decreases |msgs|
  {
    if msgs == [] then Success(regs)
    else
      match Run(regs, msgs[..|msgs| - 1])
      case Failure(e) => Failure(e)
      case Success(regs') => Step(regs', msgs[|msgs| - 1])
  }

  /** The draft command a later-revision command corresponds to. */
  function FromServer(msg: StreamServer.ControlMessage): ControlMessage {
    match msg
    case RegisterStream(job, path) => RegisterStream(job, path)
    case UnregisterStream(job) => UnregisterStream(job)
    case AddConnection(_) => AddConnection
  }

  function FromServerAll(msgs: seq<StreamServer.ControlMessage>): (r: seq<ControlMessage>)
    ensures |r| == |msgs|
    ensures forall i :: 0 <= i < |msgs| ==> r[i] == FromServer(msgs[i])
  {
    seq(|msgs|, i requires 0 <= i < |msgs| => FromServer(msgs[i]))
  }

  /** The draft and the later revision keep the same registrations table and
      fail on the same command sequences, whatever writer queues the later
      revision holds. */
  lemma {:induction false} DraftAgreesWithServer(
    regs: Registrations, streams: map<StreamServer.JobId, StreamServer.StreamSender>,
    msgs: seq<StreamServer.ControlMessage>)
    ensures var draft := Run(regs, FromServerAll(msgs));
            var server := StreamServer.Run(StreamServer.ServerState(streams, regs), msgs);
            && (draft.Failure? <==> server.Failure?)
            && (draft.Failure? ==> draft.error == server.error)
            && (draft.Success? ==> draft.value == server.value.registrations && server.value.streams == streams)
    decreases |msgs|
  {
    if msgs != [] {
      var n := |msgs|;
      DraftAgreesWithServer(regs, streams, msgs[..n - 1]);
      var draftMsgs := FromServerAll(msgs);
      assert draftMsgs[..n - 1] == FromServerAll(msgs[..n - 1]);
      assert draftMsgs[n - 1] == FromServer(msgs[n - 1]);
    }
  }

  /** Unregistering a stream twice is the same as unregistering it once. */
  lemma UnregisterIdempotent(regs: Registrations, id: StreamId)
    ensures var once := Step(regs, UnregisterStream(id)).value;
            Step(once, UnregisterStream(id)) == Success(once)
  {
    var once := regs - {id};
    assert once - {id} == once;
  }
}
