/** The control loop of the stream server (src/stream/server.rs): a sequence of
    control commands folded, in receipt order, over the server's registry of
    job output paths and job writer queues. */
module StreamServer {
  import opened Common

  type JobId = nat

  /** An output path (`PathBuf`), opaque to the server. */
  type Path = string

  /** The sending end of a job writer's queue. Writers are not part of this
      model; only the identity of the handle is kept. */
  datatype StreamSender = StreamSender(handle: nat)

  /** An accepted, handshake-complete connection. Its transport and its
      sealing/opening state are not part of this model. */
  datatype ConnectionDescriptor = ConnectionDescriptor(id: nat)

  /** `StreamServerControlMessage` (src/stream/control.rs). */
  datatype ControlMessage =
    | RegisterStream(job: JobId, path: Path)
    | UnregisterStream(job: JobId)
    | AddConnection(connection: ConnectionDescriptor)

  /** `StreamServerState`: job writer queues and registered output paths. */
  datatype ServerState = ServerState(streams: map<JobId, StreamSender>, registrations: map<JobId, Path>)

  /** The source asserts that a job is never registered twice; the model
      reports the violation instead of aborting. */
  datatype ControlError = DoubleRegistration(job: JobId)

  /** `StreamServerStateRef::new`: no writers and no registrations. */
  function NewState(): (s: ServerState)
    ensures |s.streams| == 0 && |s.registrations| == 0
  {
    ServerState(map[], map[])
  }

  /** One iteration of the control loop in `stream_server_main`. */
  function Step(s: ServerState, msg: ControlMessage): (r: Result<ServerState, ControlError>)
    // only a registration of an already registered job fails
    ensures r.Failure? <==> msg.RegisterStream? && msg.job in s.registrations
    ensures r.Failure? ==> r.error == DoubleRegistration(msg.job)
    // no command touches the writer queues
    ensures r.Success? ==> r.value.streams == s.streams
    ensures r.Success? && msg.RegisterStream? ==>
              && r.value.registrations.Keys == s.registrations.Keys + {msg.job}
              && r.value.registrations[msg.job] == msg.path
    ensures msg.UnregisterStream? ==>
              r.Success? && r.value.registrations.Keys == s.registrations.Keys - {msg.job}
    ensures msg.UnregisterStream? && msg.job !in s.registrations ==> r == Success(s)
    // every other job keeps its registration
    ensures r.Success? && !msg.AddConnection? ==>
              forall k :: k in s.registrations && k != msg.job ==> r.value.registrations[k] == s.registrations[k]
    ensures msg.AddConnection? ==> r == Success(s)
  {
    match msg
    case RegisterStream(job, path) =>
      if job in s.registrations then Failure(DoubleRegistration(job))
      else Success(s.(registrations := s.registrations[job := path]))
    case UnregisterStream(job) =>
      var remaining := s.registrations - {job};
      assert job !in s.registrations ==> remaining == s.registrations;
      Success(s.(registrations := remaining))
    case AddConnection(_) =>
      // the connection is handed to its own handler task, not modelled here
      Success(s)
  }

  /** The control loop after the commands `msgs` have been received, in that
      order; the first failing command ends the loop. */
  function Run(s: ServerState, msgs: seq<ControlMessage>): (r: Result<ServerState, ControlError>)
    // the writer queues are never touched
    ensures r.Success? ==> r.value.streams == s.streams
    decreases |msgs|
  {
    if msgs == [] then Success(s)
    else
      match Run(s, msgs[..|msgs| - 1])
      case Failure(e) => Failure(e)
      case Success(s') => Step(s', msgs[|msgs| - 1])
  }

  /** Reference meaning of the registration table: what the last command
      naming `j` left there, or the initial entry if no command names `j`. */
  function LatestRegistration(s: ServerState, msgs: seq<ControlMessage>, j: JobId): Option<Path>
    decreases |msgs|
  {
    if msgs == [] then (if j in s.registrations then Some(s.registrations[j]) else None)
    else
      var last := msgs[|msgs| - 1];
      if last.RegisterStream? && last.job == j then Some(last.path)
      else if last.UnregisterStream? && last.job == j then None
      else LatestRegistration(s, msgs[..|msgs| - 1], j)
  }

  /** Processing starts with the first command received and continues with
      the rest: the loop is a left fold in receipt order. */
  lemma {:induction false} RunFirstCommandFirst(s: ServerState, m: ControlMessage, rest: seq<ControlMessage>)
    ensures Run(s, [m] + rest) ==
              match Step(s, m)
              case Failure(e) => Failure(e)
              case Success(s') => Run(s', rest)
    decreases |rest|
  {
    var all := [m] + rest;
    if rest == [] {
      assert all[..0] == [];
    } else {
      var init := rest[..|rest| - 1];
      assert all[..|all| - 1] == [m] + init;
      assert all[|all| - 1] == rest[|rest| - 1];
      RunFirstCommandFirst(s, m, init);
    }
  }

  /** A successful run leaves exactly the registrations the last command for
      each job asked for, and never touches the writer queues. */
  lemma {:induction false} RunRegistrations(s: ServerState, msgs: seq<ControlMessage>, j: JobId)
    requires Run(s, msgs).Success?
    ensures var s' := Run(s, msgs).value;
            && s'.streams == s.streams
            && (j in s'.registrations <==> LatestRegistration(s, msgs, j).Some?)
            && (j in s'.registrations ==> s'.registrations[j] == LatestRegistration(s, msgs, j).value)
    decreases |msgs|
  {
    if msgs != [] {
      RunRegistrations(s, msgs[..|msgs| - 1], j);
    }
  }

  /** The run fails exactly when some command registers a job that the
      commands before it had left registered. */
  lemma {:induction false} RunFailsIffDoubleRegistration(s: ServerState, msgs: seq<ControlMessage>)
    ensures Run(s, msgs).Failure? <==>
              exists i :: 0 <= i < |msgs| && msgs[i].RegisterStream? &&
                          LatestRegistration(s, msgs[..i], msgs[i].job).Some?
    decreases |msgs|
  {
    if msgs != [] {
      var n := |msgs|;
      var init := msgs[..n - 1];
      RunFailsIffDoubleRegistration(s, init);
      assert forall i :: 0 <= i < n - 1 ==> msgs[i] == init[i] && msgs[..i] == init[..i];
      assert msgs[..n - 1] == init;
      if Run(s, init).Success? {
        var last := msgs[n - 1];
        if last.RegisterStream? {
          RunRegistrations(s, init, last.job);
        }
      } else {
        var i :| 0 <= i < |init| && init[i].RegisterStream? &&
                 LatestRegistration(s, init[..i], init[i].job).Some?;
        assert msgs[i] == init[i] && msgs[..i] == init[..i];
      }
    }
  }

  /** Registering a job that is not registered and then unregistering it
      restores the state. */
  lemma RegisterThenUnregisterRestores(s: ServerState, j: JobId, p: Path)
    requires j !in s.registrations
    ensures Run(s, [RegisterStream(j, p), UnregisterStream(j)]) == Success(s)
  {
    var msgs := [RegisterStream(j, p), UnregisterStream(j)];
    var s1 := s.(registrations := s.registrations[j := p]);
    assert msgs[..1] == [RegisterStream(j, p)];
    assert msgs[..1][..0] == [];
    assert Run(s, msgs[..1]) == Success(s1);
    assert s1.registrations - {j} == s.registrations;
    assert Step(s1, UnregisterStream(j)) == Success(s);
  }

  /** Unregistering is idempotent. */
  lemma UnregisterIdempotent(s: ServerState, j: JobId)
    ensures var once := Step(s, UnregisterStream(j)).value;
            Step(once, UnregisterStream(j)) == Success(once)
  {
  }

  /** Starting from a fresh server, every registration comes from a
      registration command with exactly that path. */
  lemma FreshRegistrationsComeFromCommands(msgs: seq<ControlMessage>, j: JobId)
    requires Run(NewState(), msgs).Success?
    requires j in Run(NewState(), msgs).value.registrations
    ensures exists i :: 0 <= i < |msgs| &&
              msgs[i] == RegisterStream(j, Run(NewState(), msgs).value.registrations[j])
  {
    RunRegistrations(NewState(), msgs, j);
    LatestFromCommand(NewState(), msgs, j);
  }

  lemma {:induction false} LatestFromCommand(s: ServerState, msgs: seq<ControlMessage>, j: JobId)
    requires LatestRegistration(s, msgs, j).Some?
    requires j !in s.registrations
    ensures exists i :: 0 <= i < |msgs| && msgs[i] == RegisterStream(j, LatestRegistration(s, msgs, j).value)
    decreases |msgs|
  {
    var n := |msgs|;
    var last := msgs[n - 1];
    if !(last.RegisterStream? && last.job == j) {
      LatestFromCommand(s, msgs[..n - 1], j);
      var i :| 0 <= i < n - 1 && msgs[..n - 1][i] == RegisterStream(j, LatestRegistration(s, msgs[..n - 1], j).value);
      assert msgs[i] == msgs[..n - 1][i];
    }
  }
}
