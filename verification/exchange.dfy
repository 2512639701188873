/** The client's single exchange with the verifier (`realMain`, project/main.go
    lines 52-189): connect to the local daemon, look up the local IA and the
    paths to the verifier's IA, open a raw connection, send one request
    packet along the first path and read one reply.

    Every collaborator call is an input: the `Collaborators` record holds what
    each call returns. The run reports the outcome, the calls made in order,
    and the value the `remote` global holds afterwards. */
module Exchange {
  import opened Results
  import opened Snet
  import Daemon
  import Selection
  import Assembly

  /** The steps of the exchange that can fail, in the order they are taken. */
  datatype Stage =
    | Connecting
    | GettingLocalIA
    | GettingPaths
    | CheckingPaths
    | Opening
    | ParsingLocalIP
    | ParsingRemoteIP
    | Sending
    | Reading

  /** Position of a stage in the exchange. */
  function Rank(s: Stage): nat {
    match s
    case Connecting => 0
    case GettingLocalIA => 1
    case GettingPaths => 2
    case CheckingPaths => 3
    case Opening => 4
    case ParsingLocalIP => 5
    case ParsingRemoteIP => 6
    case Sending => 7
    case Reading => 8
  }

  /** The text an error from a stage is wrapped with. */
  function Label(s: Stage): string {
    match s
    case Connecting => "connecting to daemon"
    case GettingLocalIA => "getting local IA"
    case GettingPaths => "getting paths to verifier IA"
    case CheckingPaths => "no paths available to destination"
    case Opening => "opening packet connection"
    case ParsingLocalIP => "parsing local IP address"
    case ParsingRemoteIP => "parsing remote IP address"
    case Sending => "sending scion msg to verifier"
    case Reading => "reading message from connection"
  }

  /** A packet read from the connection and the underlay address it came from. */
  datatype Received = Received(packet: Packet, sender: NetUDPAddr)

  /** What each collaborator returns when the client calls it. */
  datatype Collaborators = Collaborators(
    connect: Result<()>,             // daemon.Service.Connect
    localIA: Result<IA>,             // Connector.LocalIA
    paths: Result<seq<Path>>,        // Connector.Paths
    parsedLocal: Option<IP>,         // net.ParseIP(local), nil when it does not parse
    openRaw: Result<NetUDPAddr>,     // SCIONNetwork.OpenRaw, as the connection's local address
    localHost: Result<HostAddr>,     // netip.ParseAddr of the local IP's text
    remoteHost: Result<HostAddr>,    // netip.ParseAddr of the remote IP's text
    writeTo: Result<()>,             // the connection's WriteTo
    readFrom: Result<Received>       // the connection's ReadFrom
  )

  /** A call the client makes on a collaborator, with its arguments. */
  datatype Effect =
    | Connect(daemon: string)
    | LocalIA
    | Paths(dst: IA, src: IA)
    | OpenRaw(bind: NetUDPAddr)
    | WriteTo(packet: Packet, nextHop: Option<NetUDPAddr>)
    | ReadFrom
    | Close

  /** How the exchange ends: with the reply bytes, or with the failing stage
      and the collaborator error it wraps (none for an empty path set). */
  datatype Outcome = Done(reply: Bytes) | Failed(stage: Stage, cause: Option<Cause>)

  datatype Run = Run(outcome: Outcome, trace: seq<Effect>, remote: UDPAddr)

  /** Whether a stage succeeds with the given collaborators. An empty path set
      is not an error of the lookup but fails the check that follows it. */
  predicate Passes(env: Collaborators, s: Stage) {
    match s
    case Connecting => env.connect.Ok?
    case GettingLocalIA => env.localIA.Ok?
    case GettingPaths => env.paths.Ok?
    case CheckingPaths => env.paths.Ok? ==> |env.paths.value| > 0
    case Opening => env.openRaw.Ok?
    case ParsingLocalIP => env.localHost.Ok?
    case ParsingRemoteIP => env.remoteHost.Ok?
    case Sending => env.writeTo.Ok?
    case Reading => env.readFrom.Ok?
  }

  /** A stage is reached when every stage before it succeeds. */
  predicate Reached(env: Collaborators, s: Stage) {
    forall t: Stage :: Rank(t) < Rank(s) ==> Passes(env, t)
  }

  /** The stage that decides a failed exchange: the first one that does not succeed. */
  predicate FailsFirstAt(env: Collaborators, s: Stage) {
    Reached(env, s) && !Passes(env, s)
  }

  predicate AllPass(env: Collaborators) {
    forall t: Stage :: Passes(env, t)
  }

  /** The collaborator error a failing stage reports. */
  function CauseAt(env: Collaborators, s: Stage): Option<Cause> {
    match s
    case Connecting => ErrorOf(env.connect)
    case GettingLocalIA => ErrorOf(env.localIA)
    case GettingPaths => ErrorOf(env.paths)
    case CheckingPaths => None
    case Opening => ErrorOf(env.openRaw)
    case ParsingLocalIP => ErrorOf(env.localHost)
    case ParsingRemoteIP => ErrorOf(env.remoteHost)
    case Sending => ErrorOf(env.writeTo)
    case Reading => ErrorOf(env.readFrom)
  }

  /** The kind of a call, without its arguments. */
  datatype Call = ConnectCall | LocalIACall | PathsCall | OpenCall | WriteCall | ReadCall | CloseCall

  function CallOf(e: Effect): Call {
    match e
    case Connect(_) => ConnectCall
    case LocalIA => LocalIACall
    case Paths(_, _) => PathsCall
    case OpenRaw(_) => OpenCall
    case WriteTo(_, _) => WriteCall
    case ReadFrom => ReadCall
    case Close => CloseCall
  }

  function Calls(trace: seq<Effect>): (cs: seq<Call>)
    ensures |cs| == |trace|
    ensures forall i :: 0 <= i < |trace| ==> cs[i] == CallOf(trace[i])
  {
    seq(|trace|, i requires 0 <= i < |trace| => CallOf(trace[i]))
  }

  /** Every call of a complete exchange, in order. */
  const AllCalls: seq<Call> := [ConnectCall, LocalIACall, PathsCall, OpenCall, WriteCall, ReadCall, CloseCall]

  /** The stage whose call a call kind is. */
  function StageOf(c: Call): Stage
    requires c != CloseCall
  {
    match c
    case ConnectCall => Connecting
    case LocalIACall => GettingLocalIA
    case PathsCall => GettingPaths
    case OpenCall => Opening
    case WriteCall => Sending
    case ReadCall => Reading
  }

  /** Everything `realMain` does up to its final return, before any deferred
      close: each stage runs only when the previous ones succeeded, and the
      first failure is returned wrapped with its stage. */
  function Exchange(local: string, remote: UDPAddr, env: Collaborators): (run: Run)
    ensures |run.trace| > 0 && run.trace[0].Connect?
    ensures run.trace[|run.trace| - 1] != Close
  {
    var connect := Connect(Daemon.DaemonAddress(local));
    if env.connect.Err? then Run(Failed(Connecting, Some(env.connect.cause)), [connect], remote)
    else
    if env.localIA.Err? then Run(Failed(GettingLocalIA, Some(env.localIA.cause)), [connect, LocalIA], remote)
    else
    var localIA := env.localIA.value;
    var lookup := Paths(remote.ia, localIA);
    if env.paths.Err? then Run(Failed(GettingPaths, Some(env.paths.cause)), [connect, LocalIA, lookup], remote)
    else
    var paths := env.paths.value;
    if |paths| == 0 then Run(Failed(CheckingPaths, None), [connect, LocalIA, lookup], remote)
    else
    var extended := Selection.ExtendRemote(remote, paths);
    var openCall := OpenRaw(NetUDPAddr(env.parsedLocal, 0));
    var afterOpen := [connect, LocalIA, lookup, openCall];
    if env.openRaw.Err? then Run(Failed(Opening, Some(env.openRaw.cause)), afterOpen, extended)
    else
    if env.localHost.Err? then Run(Failed(ParsingLocalIP, Some(env.localHost.cause)), afterOpen, extended)
    else
    if env.remoteHost.Err? then Run(Failed(ParsingRemoteIP, Some(env.remoteHost.cause)), afterOpen, extended)
    else
    var packet := Assembly.BuildPacket(localIA, env.localHost.value, extended, env.remoteHost.value,
                                       paths[0].dataplane, env.openRaw.value.port);
    var write := WriteTo(packet, paths[0].nextHop);
    if env.writeTo.Err? then Run(Failed(Sending, Some(env.writeTo.cause)), [connect, LocalIA, lookup, openCall, write], extended)
    else
    var all := [connect, LocalIA, lookup, openCall, write, ReadFrom];
    if env.readFrom.Err? then Run(Failed(Reading, Some(env.readFrom.cause)), all, extended)
    else
    Run(Done(Assembly.ExtractReply(env.readFrom.value.packet.payload)), all, extended)
  }

  /** `realMain` as written: the connection is closed only after every stage
      succeeded, since the deferred close is registered just before the final return. */
  function RealMain(local: string, remote: UDPAddr, env: Collaborators): (run: Run)
    ensures |run.trace| > 0
    ensures run.trace[|run.trace| - 1] == Close <==> run.outcome.Done?
  {
    var run := Exchange(local, remote, env);
    if run.outcome.Done? then run.(trace := run.trace + [Close]) else run
  }

  /** Whether a run got past the open, so that OpenRaw returned a connection:
      it succeeded, or failed at a stage after the open. */
  predicate OpenSucceeded(run: Run) {
    run.outcome.Done? || Rank(run.outcome.stage) > Rank(Opening)
  }

  /** `realMain` with the close deferred as soon as OpenRaw returns without
      error, so that every later return releases the connection. */
  function RealMainScoped(local: string, remote: UDPAddr, env: Collaborators): (run: Run)
    ensures run.outcome == RealMain(local, remote, env).outcome
    ensures run.remote == RealMain(local, remote, env).remote
    ensures |run.trace| > 0
    ensures run.outcome.Done? ==> run.trace[|run.trace| - 1] == Close
  {
    var run := Exchange(local, remote, env);
    if OpenSucceeded(run) then run.(trace := run.trace + [Close]) else run
  }

  /** Each stage is reached exactly when the one before it is reached and succeeds. */
  lemma ReachedStepwise(env: Collaborators)
    ensures Reached(env, Connecting)
    ensures Reached(env, GettingLocalIA) <==> Reached(env, Connecting) && Passes(env, Connecting)
    ensures Reached(env, GettingPaths) <==> Reached(env, GettingLocalIA) && Passes(env, GettingLocalIA)
    ensures Reached(env, CheckingPaths) <==> Reached(env, GettingPaths) && Passes(env, GettingPaths)
    ensures Reached(env, Opening) <==> Reached(env, CheckingPaths) && Passes(env, CheckingPaths)
    ensures Reached(env, ParsingLocalIP) <==> Reached(env, Opening) && Passes(env, Opening)
    ensures Reached(env, ParsingRemoteIP) <==> Reached(env, ParsingLocalIP) && Passes(env, ParsingLocalIP)
    ensures Reached(env, Sending) <==> Reached(env, ParsingRemoteIP) && Passes(env, ParsingRemoteIP)
    ensures Reached(env, Reading) <==> Reached(env, Sending) && Passes(env, Sending)
    ensures AllPass(env) <==> Reached(env, Reading) && Passes(env, Reading)
  {
  }

  /** The first stage that fails decides the outcome: the exchange succeeds
      exactly when every stage does, and otherwise reports the first failing
      stage with that stage's collaborator error. */
  lemma FirstFailureDecides(local: string, remote: UDPAddr, env: Collaborators)
    ensures var run := RealMain(local, remote, env);
      && (run.outcome.Done? <==> AllPass(env))
      && (run.outcome.Failed? ==> FailsFirstAt(env, run.outcome.stage))
      && (run.outcome.Failed? ==> run.outcome.cause == CauseAt(env, run.outcome.stage))
  {
    ReachedStepwise(env);
    if env.connect.Err? {
    } else if env.localIA.Err? {
    } else if env.paths.Err? {
    } else if |env.paths.value| == 0 {
    } else if env.openRaw.Err? {
    } else if env.localHost.Err? {
    } else if env.remoteHost.Err? {
    } else if env.writeTo.Err? {
    } else if env.readFrom.Err? {
    } else {
    }
  }

  /** Position of a call in a complete exchange. */
  function Position(c: Call): (i: nat)
    ensures i < |AllCalls| && AllCalls[i] == c
  {
    match c
    case ConnectCall => 0
    case LocalIACall => 1
    case PathsCall => 2
    case OpenCall => 3
    case WriteCall => 4
    case ReadCall => 5
    case CloseCall => 6
  }

  /** A call is among the first `n` calls of a complete exchange exactly when its position is below `n`. */
  lemma InPrefix(n: nat, c: Call)
    requires n <= |AllCalls|
    ensures c in AllCalls[..n] <==> Position(c) < n
  {
  }

  /** The calls made are a prefix of the full call sequence, ending with
      the call of the first failing stage, or with the close on success. */
  lemma CallsArePrefix(local: string, remote: UDPAddr, env: Collaborators)
    ensures var cs := Calls(RealMain(local, remote, env).trace);
      && |cs| <= |AllCalls|
      && cs == AllCalls[..|cs|]
  {
    var cs := Calls(RealMain(local, remote, env).trace);
    CallsInOrder(local, remote, env);
    PrefixByIndex(cs, AllCalls);
  }

  /** The kind of call made at each position of the trace. */
  lemma CallsInOrder(local: string, remote: UDPAddr, env: Collaborators)
    ensures var trace := RealMain(local, remote, env).trace;
      && 0 < |trace| <= 7
      && trace[0].Connect?
      && (|trace| > 1 ==> trace[1] == LocalIA)
      && (|trace| > 2 ==> trace[2].Paths?)
      && (|trace| > 3 ==> trace[3].OpenRaw?)
      && (|trace| > 4 ==> trace[4].WriteTo?)
      && (|trace| > 5 ==> trace[5] == ReadFrom)
      && (|trace| > 6 ==> trace[6] == Close)
  {
    if env.connect.Err? {
    } else if env.localIA.Err? {
    } else if env.paths.Err? {
    } else if |env.paths.value| == 0 {
    } else if env.openRaw.Err? {
    } else if env.localHost.Err? {
    } else if env.remoteHost.Err? {
    } else if env.writeTo.Err? {
    } else if env.readFrom.Err? {
    } else {
    }
  }

  /** A sequence agreeing with another at each of its positions is a prefix of it. */
  lemma PrefixByIndex<T>(a: seq<T>, b: seq<T>)
    requires |a| <= |b| && forall i :: 0 <= i < |a| ==> a[i] == b[i]
    ensures a == b[..|a|]
  {
  }

  /** How far the exchange gets: each further call is made exactly when the
      stage issuing it is reached, and the close exactly when all stages pass. */
  lemma CallCount(local: string, remote: UDPAddr, env: Collaborators)
    ensures var n := |RealMain(local, remote, env).trace|;
      && n > 0
      && (n > 1 <==> Reached(env, GettingLocalIA))
      && (n > 2 <==> Reached(env, GettingPaths))
      && (n > 3 <==> Reached(env, Opening))
      && (n > 4 <==> Reached(env, Sending))
      && (n > 5 <==> Reached(env, Reading))
      && (n > 6 <==> AllPass(env))
  {
    ReachedStepwise(env);
    if env.connect.Err? {
    } else if env.localIA.Err? {
    } else if env.paths.Err? {
    } else if |env.paths.value| == 0 {
    } else if env.openRaw.Err? {
    } else if env.localHost.Err? {
    } else if env.remoteHost.Err? {
    } else if env.writeTo.Err? {
    } else if env.readFrom.Err? {
    } else {
    }
  }

  /** No stage after the first failure runs: a stage's call is made exactly
      when that stage is reached, and the connection is closed exactly when
      every stage succeeds. */
  lemma {:induction false} CallsFollowStages(local: string, remote: UDPAddr, env: Collaborators)
    ensures var cs := Calls(RealMain(local, remote, env).trace);
      && (forall c :: c != CloseCall ==> (c in cs <==> Reached(env, StageOf(c))))
      && (CloseCall in cs <==> AllPass(env))
  {
    var run := RealMain(local, remote, env);
    var cs := Calls(run.trace);
    CallsArePrefix(local, remote, env);
    CallCount(local, remote, env);
    forall c
      ensures c in cs <==> Position(c) < |cs|
    {
      InPrefix(|cs|, c);
    }
  }

  /** Distinct stages wrap their errors with distinct texts, so the reported
      text identifies the failing stage. */
  lemma LabelIdentifiesStage(s: Stage, t: Stage)
    requires Label(s) == Label(t)
    ensures s == t
  {
  }

  /** With an empty path set the exchange stops with the no-path error
      before any connection is opened or packet written, and `remote` is untouched. */
  lemma NoPathsStopsBeforeOpening(local: string, remote: UDPAddr, env: Collaborators)
    requires env.connect.Ok? && env.localIA.Ok? && env.paths == Ok([])
    ensures var run := RealMain(local, remote, env);
      && run.outcome == Failed(CheckingPaths, None)
      && Label(run.outcome.stage) == "no paths available to destination"
      && OpenCall !in Calls(run.trace)
      && WriteCall !in Calls(run.trace)
      && run.remote == remote
  {
    CallsFollowStages(local, remote, env);
    assert !Reached(env, Opening) && !Reached(env, Sending) by {
      assert !Passes(env, CheckingPaths);
    }
  }

  /** The arguments of the lookup calls: the daemon is dialled at the daemon
      address of the local IP, paths are asked from the remote IA to the local
      IA, and the raw connection is bound to the local IP with port 0. */
  lemma LookupArguments(local: string, remote: UDPAddr, env: Collaborators)
    ensures var trace := RealMain(local, remote, env).trace;
      && |trace| > 0 && trace[0] == Connect(Daemon.DaemonAddress(local))
      && (forall dst, src :: Paths(dst, src) in trace ==> env.localIA.Ok? && dst == remote.ia && src == env.localIA.value)
      && (forall bind :: OpenRaw(bind) in trace ==> bind == NetUDPAddr(env.parsedLocal, 0))
  {
    PathsArguments(local, remote, env);
    BindArgument(local, remote, env);
  }

  /** Paths are only asked from the remote IA to the local IA. */
  lemma PathsArguments(local: string, remote: UDPAddr, env: Collaborators)
    ensures forall dst, src :: Paths(dst, src) in RealMain(local, remote, env).trace ==>
      env.localIA.Ok? && dst == remote.ia && src == env.localIA.value
  {
    if env.connect.Err? {
    } else if env.localIA.Err? {
    } else if env.paths.Err? {
    } else if |env.paths.value| == 0 {
    } else if env.openRaw.Err? {
    } else if env.localHost.Err? {
    } else if env.remoteHost.Err? {
    } else if env.writeTo.Err? {
    } else if env.readFrom.Err? {
    } else {
    }
  }

  /** The raw connection is only bound to the local IP with port 0. */
  lemma BindArgument(local: string, remote: UDPAddr, env: Collaborators)
    ensures forall bind :: OpenRaw(bind) in RealMain(local, remote, env).trace ==> bind == NetUDPAddr(env.parsedLocal, 0)
  {
    if env.connect.Err? {
    } else if env.localIA.Err? {
    } else if env.paths.Err? {
    } else if |env.paths.value| == 0 {
    } else if env.openRaw.Err? {
    } else if env.localHost.Err? {
    } else if env.remoteHost.Err? {
    } else if env.writeTo.Err? {
    } else if env.readFrom.Err? {
    } else {
    }
  }

  /** The packet written: from the local IA and parsed local IP to the remote
      IA and parsed remote IP, carrying the first path's dataplane path whether
      or not the remote is in another AS, as a UDP datagram from the opened
      connection's port to the remote port (both cut to 16 bits) holding the
      request payload; and it is always written to the first path's next hop. */
  lemma SentPacket(local: string, remote: UDPAddr, env: Collaborators)
    ensures forall packet, nextHop :: WriteTo(packet, nextHop) in RealMain(local, remote, env).trace ==>
      && env.localIA.Ok? && env.paths.Ok? && |env.paths.value| > 0
      && env.openRaw.Ok? && env.localHost.Ok? && env.remoteHost.Ok?
      && nextHop == env.paths.value[0].nextHop
      && packet.source == SCIONAddress(env.localIA.value, env.localHost.value)
      && packet.destination == SCIONAddress(remote.ia, env.remoteHost.value)
      && packet.path == env.paths.value[0].dataplane
      && packet.payload == UDPPayload(Assembly.ToUint16(env.openRaw.value.port),
                                      Assembly.ToUint16(remote.host.port),
                                      Assembly.RequestPayload())
  {
    if env.connect.Err? {
    } else if env.localIA.Err? {
    } else if env.paths.Err? {
    } else if |env.paths.value| == 0 {
    } else if env.openRaw.Err? {
    } else if env.localHost.Err? {
    } else if env.remoteHost.Err? {
    } else if env.writeTo.Err? {
    } else if env.readFrom.Err? {
    } else {
    }
  }

  /** `remote` is extended from the first path once the path check has
      passed, and is left as it was when the exchange stops earlier. */
  lemma RemoteAfterSelection(local: string, remote: UDPAddr, env: Collaborators)
    ensures var run := RealMain(local, remote, env);
      && (Reached(env, Opening) ==> env.paths.Ok? && run.remote == Selection.ExtendRemote(remote, env.paths.value))
      && (!Reached(env, Opening) ==> run.remote == remote)
  {
    ReachedStepwise(env);
    if env.connect.Err? {
    } else if env.localIA.Err? {
    } else if env.paths.Err? {
    } else if |env.paths.value| == 0 {
    } else if env.openRaw.Err? {
    } else if env.localHost.Err? {
    } else if env.remoteHost.Err? {
    } else if env.writeTo.Err? {
    } else if env.readFrom.Err? {
    } else {
    }
  }

  /** On success the reply is the received datagram's bytes, or no bytes when
      the reply is not a UDP datagram: a reply of another kind is not an error. */
  lemma ReplyOnSuccess(local: string, remote: UDPAddr, env: Collaborators)
    requires AllPass(env)
    ensures var run := RealMain(local, remote, env);
      && run.outcome.Done?
      && (env.readFrom.value.packet.payload.UDPPayload? ==> run.outcome.reply == env.readFrom.value.packet.payload.bytes)
      && (env.readFrom.value.packet.payload.OtherPayload? ==> run.outcome.reply == [])
  {
    ReachedStepwise(env);
  }

  /** As written, an error returned after the connection was opened leaves it
      open: the open call is in the trace and no close follows. */
  lemma CloseSkippedAfterOpen(local: string, remote: UDPAddr, env: Collaborators)
    requires Reached(env, ParsingLocalIP) && !AllPass(env)
    ensures var cs := Calls(RealMain(local, remote, env).trace);
      OpenCall in cs && CloseCall !in cs
  {
    CallsFollowStages(local, remote, env);
  }

  /** The stages themselves never close the connection: any close comes from
      the deferred call at the end of `realMain`. */
  lemma ExchangeNeverCloses(local: string, remote: UDPAddr, env: Collaborators)
    ensures Close !in Exchange(local, remote, env).trace
    ensures CloseCall !in Calls(Exchange(local, remote, env).trace)
  {
    if env.connect.Err? {
    } else if env.localIA.Err? {
    } else if env.paths.Err? {
    } else if |env.paths.value| == 0 {
    } else if env.openRaw.Err? {
    } else if env.localHost.Err? {
    } else if env.remoteHost.Err? {
    } else if env.writeTo.Err? {
    } else if env.readFrom.Err? {
    } else {
    }
  }

  /** A run gets past the open exactly when the stage after the open is reached. */
  lemma OpenSucceededWhenReached(local: string, remote: UDPAddr, env: Collaborators)
    ensures OpenSucceeded(Exchange(local, remote, env)) <==> Reached(env, ParsingLocalIP)
  {
    var run := Exchange(local, remote, env);
    FirstFailureDecides(local, remote, env);
    assert run.outcome == RealMain(local, remote, env).outcome;
    ReachedStepwise(env);
  }

  /** With the close deferred right after a successful open, the connection
      is closed exactly when OpenRaw was reached and returned no error (the
      stage after it is reached), once, as the last call; a failed open closes nothing. */
  lemma ScopedCloseBalanced(local: string, remote: UDPAddr, env: Collaborators)
    ensures var trace := RealMainScoped(local, remote, env).trace;
      && (CloseCall in Calls(trace) <==> Reached(env, ParsingLocalIP))
      && (Close in trace ==> trace[|trace| - 1] == Close && Close !in trace[..|trace| - 1])
  {
    var run := Exchange(local, remote, env);
    var trace := RealMainScoped(local, remote, env).trace;
    ExchangeNeverCloses(local, remote, env);
    OpenSucceededWhenReached(local, remote, env);
    if OpenSucceeded(run) {
      assert trace == run.trace + [Close];
      assert Calls(trace) == Calls(run.trace) + [CloseCall];
      assert trace[..|trace| - 1] == run.trace;
    } else {
      assert trace == run.trace;
    }
  }

  /** Apart from the close, the corrected exchange behaves as written: same
      outcome, same final `remote`, same calls; on success both close. */
  lemma ScopedAgreesExceptClose(local: string, remote: UDPAddr, env: Collaborators)
    ensures var a := RealMain(local, remote, env);
            var b := RealMainScoped(local, remote, env);
      && a.outcome == b.outcome && a.remote == b.remote
      && (AllPass(env) ==> a.trace == b.trace)
      && (b.trace == a.trace || b.trace == a.trace + [Close])
  {
    FirstFailureDecides(local, remote, env);
    var run := Exchange(local, remote, env);
    if AllPass(env) {
      CallsFollowStages(local, remote, env);
      assert Calls(run.trace + [Close])[3] == OpenCall;
    }
  }
}
