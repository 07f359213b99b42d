/** The supervisor's `run`: load the key, build the node record and report it,
    decide the trusted range (CIDR) from an outbound UDP probe, configure and
    start the discovery engine, launch the statistics, event and echo
    services, and wait for the first termination signal.

    Everything the supervisor cannot decide itself becomes input: the outcome
    of loading the key and of building the record, the outcome of the probe,
    whether the engine could be created and started, whether the signal
    handlers could be installed, and which signal arrives first. What the
    supervisor does is recorded as a trace of steps; each step that can fail
    is recorded when attempted. */
module Supervisor {
  import opened Wrappers
  import opened Ipv4
  import opened NodeRecord
  import opened Logging

  // ---------------------------------------------------------------------
  // Trusted-range admission

  /** The decision for a configured range and a probed local address: the
      range to allow (if any) and the record logged about it. */
  datatype Decision = Decision(allowed: Option<Cidr>, record: LogRecord)

  /** Allow the range exactly when the local address is IPv4 and inside it;
      log an info record when allowed and one warning otherwise. */
  function Decide(cidr: Cidr, local: IpAddr): (d: Decision)
    ensures d.allowed.Some? <==> local.V4? && Contains(cidr, local.v4)
    ensures d.allowed.Some? ==> d.allowed.value == cidr
    ensures d.record.level == if d.allowed.Some? then Info else Warn
    ensures local.V6? ==> d.record.msg == CidrIpv4Only
  {
    match local
    case V4(ip) =>
      if Contains(cidr, ip) then Decision(Some(cidr), LogRecord(Info, CidrAllowed(ip, cidr)))
      else Decision(None, LogRecord(Warn, CidrMismatch(ip, cidr)))
    case V6(_) => Decision(None, LogRecord(Warn, CidrIpv4Only))
  }

  /** The range is allowed exactly when the local address matches its prefix
      in the sense of section 3.1 of RFC 4632. */
  lemma DecideIffPrefixMatch(cidr: Cidr, local: IpAddr)
    ensures Decide(cidr, local).allowed == Some(cidr) <==> local.V4? && PrefixMatch(cidr, local.v4)
  {
    if local.V4? {
      ContainsIffPrefixMatch(cidr, local.v4);
    }
  }

  /** The three socket calls of the probe, in the order they are made. */
  datatype ProbeStage = Bind | Connect | LocalAddr

  /** The outcome of the outbound UDP probe: the stage that failed, or the
      IP address of the local end of the connected socket. */
  datatype Probe = ProbeFailed(stage: ProbeStage, error: IoError) | Probed(local: IpAddr)

  // ---------------------------------------------------------------------
  // Engine configuration

  datatype ListenConfig = Ipv4Listen(ip: Addr, port: Port)

  /** The engine configuration the supervisor hands over. `None` for a
      duration means the engine's own default. */
  datatype Config = Config(
    listen: ListenConfig,
    allowedCidr: Option<Cidr>,
    requestTimeoutSecs: Option<nat>,
    voteDurationSecs: Option<nat>)

  /** The engine's configuration builder, updated in place by the supervisor. */
  class ConfigBuilder {
    var listen: ListenConfig
    var allowedCidr: Option<Cidr>
    var requestTimeoutSecs: Option<nat>
    var voteDurationSecs: Option<nat>

    constructor (listen: ListenConfig)
      ensures this.listen == listen && allowedCidr == None
      ensures requestTimeoutSecs == None && voteDurationSecs == None
    {
      this.listen := listen;
      allowedCidr := None;
      requestTimeoutSecs := None;
      voteDurationSecs := None;
    }

    method SetAllowedCidr(cidr: Cidr)
      modifies this
      ensures allowedCidr == Some(cidr)
      ensures listen == old(listen) && requestTimeoutSecs == old(requestTimeoutSecs)
      ensures voteDurationSecs == old(voteDurationSecs)
    {
      allowedCidr := Some(cidr);
    }

    method SetRequestTimeout(secs: nat)
      modifies this
      ensures requestTimeoutSecs == Some(secs)
      ensures listen == old(listen) && allowedCidr == old(allowedCidr)
      ensures voteDurationSecs == old(voteDurationSecs)
    {
      requestTimeoutSecs := Some(secs);
    }

    method SetVoteDuration(secs: nat)
      modifies this
      ensures voteDurationSecs == Some(secs)
      ensures listen == old(listen) && allowedCidr == old(allowedCidr)
      ensures requestTimeoutSecs == old(requestTimeoutSecs)
    {
      voteDurationSecs := Some(secs);
    }

    /** The configuration built from the builder's current settings. */
    function Build(): (c: Config)
      reads this
      ensures c.listen == listen && c.allowedCidr == allowedCidr
      ensures c.requestTimeoutSecs == requestTimeoutSecs && c.voteDurationSecs == voteDurationSecs
    {
      Config(listen, allowedCidr, requestTimeoutSecs, voteDurationSecs)
    }
  }

  const REQUEST_TIMEOUT_SECS: nat := 3
  const VOTE_DURATION_SECS: nat := 120

  // ---------------------------------------------------------------------
  // The bootstrap as a trace of steps

  datatype Signal = Sigterm | Sigint

  datatype Step =
    | ReadKey
    | BuildEnr
    | Emit(record: LogRecord)
    | UdpBind
    | UdpConnect
    | QueryLocalAddr
    | AllowCidr(cidr: Cidr)
    | CreateEngine(config: Config)
    | StartEngine
    | LaunchStats
    | LaunchEvents
    | LaunchEcho(rpcAddr: Addr, rpcPort: Port, enrText: string)
    | InstallSignal(signal: Signal)

  predicate IsProbeStep(s: Step)
  {
    s.UdpBind? || s.UdpConnect? || s.QueryLocalAddr?
  }

  predicate IsLaunch(s: Step)
  {
    s.LaunchStats? || s.LaunchEvents? || s.LaunchEcho?
  }

  /** The parsed command line, as far as `run` uses it. */
  datatype ServerArgs = ServerArgs(
    listenIpv4: Addr,
    listenPort: Port,
    cidr: Option<Cidr>,
    rpcAddr: Addr,
    rpcPort: Port)

  /** The outcomes of everything `run` depends on but does not decide. */
  datatype Environment = Environment(
    keyLoaded: bool,
    record: Option<Enr>,
    probe: Probe,
    engineCreated: bool,
    engineStarted: bool,
    sigtermInstalled: bool,
    sigintInstalled: bool,
    firstSignal: Signal)

  datatype BootError = KeyError | RecordError | ProbeError(stage: ProbeStage, error: IoError) | EngineError | SignalError(signal: Signal)

  /** How `run` ends: it returns after a signal, returns an error, or panics. */
  datatype Outcome = ShutDown(signal: Signal) | Failed(error: BootError) | Panicked(message: string)

  datatype Boot = Boot(trace: seq<Step>, outcome: Outcome)

  /** The start of the message of the panic raised when the engine cannot be
      started; `expect` continues it with `: ` and the error, which is not
      modelled. */
  const START_PANIC: string := "Should be able to start the server"

  function Emits(records: seq<LogRecord>): seq<Step>
  {
    seq(|records|, k requires 0 <= k < |records| => Emit(records[k]))
  }

  /** What is logged about the node record: its node id, then either its
      base64 form and its IPv4 UDP endpoint, or a single warning when it has
      no IPv4 UDP socket. */
  function EnrReport(enr: Enr): (logs: seq<LogRecord>)
    ensures |logs| >= 2 && logs[0] == LogRecord(Info, NodeIdIs(enr.nodeId))
    ensures Udp4Socket(enr).Some? <==> forall k :: 0 <= k < |logs| ==> logs[k].level == Info
    ensures Udp4Socket(enr).None? ==> logs[1..] == [LogRecord(Warn, EnrNotPrinted)]
    ensures Udp4Socket(enr).Some? ==>
      logs[1..] == [LogRecord(Info, Base64Enr(enr.base64)), LogRecord(Info, EnrEndpoint(enr.ip4.value, enr.udp4.value))]
  {
    var id := LogRecord(Info, NodeIdIs(enr.nodeId));
    var socket := Udp4Socket(enr);
    if socket.Some? then
      [id, LogRecord(Info, Base64Enr(enr.base64)), LogRecord(Info, EnrEndpoint(socket.value.0, socket.value.1))]
    else
      var logs := [id, LogRecord(Warn, EnrNotPrinted)];
      assert logs[1].level != Info;
      logs
  }

  /** The steps and the result of the trusted-range block of `run`. */
  datatype Admission = Admission(steps: seq<Step>, result: Result<Option<Cidr>, BootError>)

  /** The trusted-range block: nothing at all without a range; with one, the
      probe (a failing stage ends `run` with an error), then the decision. A
      mismatch or an IPv6 address only logs a warning: `run` goes on. */
  function Admit(cidr: Option<Cidr>, probe: Probe): (a: Admission)
    ensures cidr.None? ==> a == Admission([], Ok(None))
    ensures a.result.Ok? <==> cidr.None? || probe.Probed?
    ensures cidr.Some? && probe.ProbeFailed? ==> a.result == Err(ProbeError(probe.stage, probe.error))
    ensures forall c :: a.result == Ok(Some(c)) <==>
      cidr == Some(c) && probe.Probed? && probe.local.V4? && Contains(c, probe.local.v4)
  {
    if cidr.None? then Admission([], Ok(None))
    else
      match probe
      case ProbeFailed(Bind, e) => Admission([UdpBind], Err(ProbeError(Bind, e)))
      case ProbeFailed(Connect, e) => Admission([UdpBind, UdpConnect], Err(ProbeError(Connect, e)))
      case ProbeFailed(LocalAddr, e) => Admission([UdpBind, UdpConnect, QueryLocalAddr], Err(ProbeError(LocalAddr, e)))
      case Probed(local) =>
        var d := Decide(cidr.value, local);
        var allow := if d.allowed.Some? then [AllowCidr(d.allowed.value)] else [];
        Admission([UdpBind, UdpConnect, QueryLocalAddr, Emit(d.record)] + allow, Ok(d.allowed))
  }

  /** The configuration the engine is created with. */
  function EngineConfig(args: ServerArgs, allowed: Option<Cidr>): Config
  {
    Config(Ipv4Listen(args.listenIpv4, args.listenPort), allowed, Some(REQUEST_TIMEOUT_SECS), Some(VOTE_DURATION_SECS))
  }

  /** The services launched once the engine runs, in launch order. */
  function Launches(args: ServerArgs, enr: Enr): seq<Step>
  {
    [LaunchStats, LaunchEvents, LaunchEcho(args.rpcAddr, args.rpcPort, enr.text)]
  }

  function SignalRecord(s: Signal): LogRecord
  {
    LogRecord(Info, if s == Sigterm then ReceivedSigterm else ReceivedSigint)
  }

  /** Installing the two signal handlers and waiting for the first signal. */
  function AwaitShutdown(launched: seq<Step>, env: Environment): Boot
  {
    if !env.sigtermInstalled then
      Boot(launched + [InstallSignal(Sigterm)], Failed(SignalError(Sigterm)))
    else if !env.sigintInstalled then
      Boot(launched + [InstallSignal(Sigterm), InstallSignal(Sigint)], Failed(SignalError(Sigint)))
    else
      Boot(launched + [InstallSignal(Sigterm), InstallSignal(Sigint),
                       Emit(LogRecord(Info, AwaitingTermination)), Emit(SignalRecord(env.firstSignal))],
           ShutDown(env.firstSignal))
  }

  /** Creating and starting the engine with `config`, then launching the
      services and waiting for shutdown; `prefix` is the trace so far. */
  function EngineAndServices(prefix: seq<Step>, config: Config, args: ServerArgs, enr: Enr, env: Environment): Boot
  {
    var configured := prefix + [CreateEngine(config)];
    if !env.engineCreated then Boot(configured, Failed(EngineError))
    else if !env.engineStarted then Boot(configured + [StartEngine], Panicked(START_PANIC))
    else AwaitShutdown(configured + [StartEngine] + Launches(args, enr), env)
  }

  /** The whole of `run`, step by step. */
  function BootSpec(args: ServerArgs, env: Environment): Boot
  {
    if !env.keyLoaded then Boot([ReadKey], Failed(KeyError))
    else if env.record.None? then Boot([ReadKey, BuildEnr], Failed(RecordError))
    else
      var enr := env.record.value;
      var identity := [ReadKey, BuildEnr] + Emits(EnrReport(enr));
      var adm := Admit(args.cidr, env.probe);
      if adm.result.Err? then Boot(identity + adm.steps, Failed(adm.result.error))
      else
        EngineAndServices(
          identity + adm.steps + [Emit(LogRecord(Info, DiscoveryListening(args.listenIpv4, args.listenPort)))],
          EngineConfig(args, adm.result.value), args, enr, env)
  }

  // ---------------------------------------------------------------------
  // `run` itself

  /** The record report of `run`, as the source writes it. */
  method ReportRecord(enr: Enr) returns (steps: seq<Step>)
    ensures steps == Emits(EnrReport(enr))
  {
    steps := [Emit(LogRecord(Info, NodeIdIs(enr.nodeId)))];
    if Udp4Socket(enr).Some? {
      steps := steps + [Emit(LogRecord(Info, Base64Enr(enr.base64)))];
      steps := steps + [Emit(LogRecord(Info, EnrEndpoint(enr.ip4.value, enr.udp4.value)))];
    } else {
      steps := steps + [Emit(LogRecord(Warn, EnrNotPrinted))];
    }
  }

  /** The trusted-range block of `run`, as the source writes it: probe, then
      set the builder's allowed range when the local IPv4 address is inside. */
  method ApplyTrustedRange(cidr: Option<Cidr>, probe: Probe, config: ConfigBuilder)
    returns (steps: seq<Step>, result: Result<Option<Cidr>, BootError>)
    modifies config
    ensures Admission(steps, result) == Admit(cidr, probe)
    ensures config.allowedCidr == if result.Ok? && result.value.Some? then result.value else old(config.allowedCidr)
    ensures config.listen == old(config.listen)
    ensures config.requestTimeoutSecs == old(config.requestTimeoutSecs)
    ensures config.voteDurationSecs == old(config.voteDurationSecs)
  {
    if cidr.None? {
      return [], Ok(None);
    }
    var range := cidr.value;
    steps := [UdpBind];
    if probe.ProbeFailed? && probe.stage == Bind {
      return steps, Err(ProbeError(Bind, probe.error));
    }
    steps := steps + [UdpConnect];
    if probe.ProbeFailed? && probe.stage == Connect {
      return steps, Err(ProbeError(Connect, probe.error));
    }
    steps := steps + [QueryLocalAddr];
    if probe.ProbeFailed? {
      return steps, Err(ProbeError(LocalAddr, probe.error));
    }
    match probe.local
    case V4(ip) =>
      if Contains(range, ip) {
        steps := steps + [Emit(LogRecord(Info, CidrAllowed(ip, range)))];
        config.SetAllowedCidr(range);
        steps := steps + [AllowCidr(range)];
        result := Ok(Some(range));
      } else {
        steps := steps + [Emit(LogRecord(Warn, CidrMismatch(ip, range)))];
        result := Ok(None);
      }
    case V6(_) =>
      steps := steps + [Emit(LogRecord(Warn, CidrIpv4Only))];
      result := Ok(None);
  }

  /** Installing the signal handlers and waiting for the first signal, as the
      source writes it. */
  method WaitForShutdown(trace: seq<Step>, env: Environment) returns (boot: Boot)
    ensures boot == AwaitShutdown(trace, env)
  {
    var steps := trace + [InstallSignal(Sigterm)];
    if !env.sigtermInstalled {
      return Boot(steps, Failed(SignalError(Sigterm)));
    }
    steps := steps + [InstallSignal(Sigint)];
    if !env.sigintInstalled {
      return Boot(steps, Failed(SignalError(Sigint)));
    }
    steps := steps + [Emit(LogRecord(Info, AwaitingTermination))];
    match env.firstSignal {
      case Sigterm =>
        steps := steps + [Emit(LogRecord(Info, ReceivedSigterm))];
      case Sigint =>
        steps := steps + [Emit(LogRecord(Info, ReceivedSigint))];
    }
    boot := Boot(steps, ShutDown(env.firstSignal));
  }

  /** Creating and starting the engine, then launching the three services
      and waiting for shutdown, as the source writes it. */
  method StartEngineAndServices(prefix: seq<Step>, config: Config, args: ServerArgs, enr: Enr, env: Environment)
    returns (boot: Boot)
    ensures boot == EngineAndServices(prefix, config, args, enr, env)
  {
    var trace := prefix + [CreateEngine(config)];
    if !env.engineCreated {
      return Boot(trace, Failed(EngineError));
    }
    trace := trace + [StartEngine];
    if !env.engineStarted {
      return Boot(trace, Panicked(START_PANIC));
    }
    trace := trace + [LaunchStats, LaunchEvents, LaunchEcho(args.rpcAddr, args.rpcPort, enr.text)];
    boot := WaitForShutdown(trace, env);
  }

  /** The supervisor's `run`, written as the source runs it: a sequence of
      steps with early exits, the engine configuration built in place. */
  method Run(args: ServerArgs, env: Environment) returns (boot: Boot)
    ensures boot == BootSpec(args, env)
  {
    var trace := [ReadKey];
    if !env.keyLoaded {
      return Boot(trace, Failed(KeyError));
    }
    trace := trace + [BuildEnr];
    if env.record.None? {
      return Boot(trace, Failed(RecordError));
    }
    var enr := env.record.value;
    var report := ReportRecord(enr);
    trace := trace + report;
    ghost var identity := [ReadKey, BuildEnr] + Emits(EnrReport(enr));
    assert trace == identity;

    var config := new ConfigBuilder(Ipv4Listen(args.listenIpv4, args.listenPort));
    var probeSteps, allowed := ApplyTrustedRange(args.cidr, env.probe, config);
    trace := trace + probeSteps;
    ghost var adm := Admit(args.cidr, env.probe);
    assert adm.steps == probeSteps && adm.result == allowed;
    if allowed.Err? {
      assert BootSpec(args, env) == Boot(identity + adm.steps, Failed(adm.result.error));
      return Boot(trace, Failed(allowed.error));
    }

    trace := trace + [Emit(LogRecord(Info, DiscoveryListening(args.listenIpv4, args.listenPort)))];
    config.SetRequestTimeout(REQUEST_TIMEOUT_SECS);
    config.SetVoteDuration(VOTE_DURATION_SECS);
    var built := config.Build();
    assert built == EngineConfig(args, allowed.value);
    boot := StartEngineAndServices(trace, built, args, enr, env);
    assert BootSpec(args, env) == EngineAndServices(trace, built, args, enr, env);
  }

  // ---------------------------------------------------------------------
  // Properties of `run`

  predicate RecordBuilt(env: Environment)
  {
    env.keyLoaded && env.record.Some?
  }

  /** The range the engine should be configured with, stated through the
      prefix match of RFC 4632: the given range, when the probed local address
      is IPv4 and matches its prefix. */
  function TrustedRange(args: ServerArgs, env: Environment): Option<Cidr>
  {
    if args.cidr.Some? && env.probe.Probed? && env.probe.local.V4?
       && PrefixMatch(args.cidr.value, env.probe.local.v4)
    then args.cidr else None
  }

  /** Every step that comes before the services are launched. */
  predicate PreLaunch(s: Step)
  {
    !IsLaunch(s) && !s.StartEngine?
  }

  lemma AdmitSteps(cidr: Option<Cidr>, probe: Probe)
    ensures forall k :: 0 <= k < |Admit(cidr, probe).steps| ==> PreLaunch(Admit(cidr, probe).steps[k])
    ensures forall k :: 0 <= k < |Admit(cidr, probe).steps| ==> !Admit(cidr, probe).steps[k].CreateEngine?
    ensures cidr.None? <==> forall k :: 0 <= k < |Admit(cidr, probe).steps| ==> !IsProbeStep(Admit(cidr, probe).steps[k])
    ensures forall c :: AllowCidr(c) in Admit(cidr, probe).steps <==> Admit(cidr, probe).result == Ok(Some(c))
    ensures cidr.Some? && probe.Probed? ==>
      Emit(Decide(cidr.value, probe.local).record) in Admit(cidr, probe).steps
      && forall k, j :: 0 <= k < j < |Admit(cidr, probe).steps| ==>
           !(Admit(cidr, probe).steps[k].Emit? && Admit(cidr, probe).steps[j].Emit?)
    ensures !(cidr.Some? && probe.Probed?) ==>
      forall k :: 0 <= k < |Admit(cidr, probe).steps| ==> !Admit(cidr, probe).steps[k].Emit?
  {
    var a := Admit(cidr, probe);
    if cidr.Some? {
      assert IsProbeStep(a.steps[0]);
      if probe.Probed? {
        assert a.steps[3] == Emit(Decide(cidr.value, probe.local).record);
      }
    }
  }

  /** The allowed range set on the engine configuration is exactly the range
      given when the probed local address is IPv4 and matches its prefix;
      with no range given it stays unset. The listen address is always the
      given IPv4 address and port. */
  lemma EngineConfigured(args: ServerArgs, env: Environment)
    ensures forall k :: 0 <= k < |BootSpec(args, env).trace| && BootSpec(args, env).trace[k].CreateEngine?
                ==> BootSpec(args, env).trace[k].config == EngineConfig(args, TrustedRange(args, env))
  {
    if RecordBuilt(env) {
      AdmitSteps(args.cidr, env.probe);
      AdmittedIsTrusted(args, env);
    }
  }

  /** A trusted-range block that completes yields the range `TrustedRange` names. */
  lemma AdmittedIsTrusted(args: ServerArgs, env: Environment)
    ensures Admit(args.cidr, env.probe).result.Ok? ==> Admit(args.cidr, env.probe).result.value == TrustedRange(args, env)
  {
    if args.cidr.Some? && env.probe.Probed? && env.probe.local.V4? {
      DecideIffPrefixMatch(args.cidr.value, env.probe.local);
    }
  }

  /** The engine is created, with that configuration, exactly when the record
      was built and the trusted-range block did not fail: a range mismatch or
      an IPv6 local address does not stop it. */
  lemma EngineCreatedIff(args: ServerArgs, env: Environment)
    ensures (CreateEngine(EngineConfig(args, TrustedRange(args, env))) in BootSpec(args, env).trace)
              <==> RecordBuilt(env) && (args.cidr.None? || env.probe.Probed?)
  {
    var t := BootSpec(args, env).trace;
    if RecordBuilt(env) {
      var adm := Admit(args.cidr, env.probe);
      if adm.result.Ok? {
        EngineConfigured(args, env);
        var enr := env.record.value;
        var identity := [ReadKey, BuildEnr] + Emits(EnrReport(enr));
        var prefix := identity + adm.steps + [Emit(LogRecord(Info, DiscoveryListening(args.listenIpv4, args.listenPort)))];
        assert t[|prefix|] == CreateEngine(EngineConfig(args, adm.result.value));
      } else {
        ProbeFailureIsFatal(args, env);
      }
    }
  }

  /** `AllowCidr` happens, with exactly the given range, when the record is
      built and the local address matches the range's prefix. */
  lemma AllowedIffPrefixMatch(args: ServerArgs, env: Environment, c: Cidr)
    ensures AllowCidr(c) in BootSpec(args, env).trace <==> RecordBuilt(env) && TrustedRange(args, env) == Some(c)
  {
    if RecordBuilt(env) {
      var adm := Admit(args.cidr, env.probe);
      AdmitSteps(args.cidr, env.probe);
      if args.cidr.Some? && env.probe.Probed? && env.probe.local.V4? {
        DecideIffPrefixMatch(args.cidr.value, env.probe.local);
      }
    }
  }

  /** A probe is made exactly when a range is given (and the record was
      built); without a range no socket is opened. */
  lemma ProbeOnlyWithRange(args: ServerArgs, env: Environment)
    ensures (exists k :: 0 <= k < |BootSpec(args, env).trace| && IsProbeStep(BootSpec(args, env).trace[k]))
      <==> RecordBuilt(env) && args.cidr.Some?
  {
    if RecordBuilt(env) {
      var enr := env.record.value;
      var identity := [ReadKey, BuildEnr] + Emits(EnrReport(enr));
      var adm := Admit(args.cidr, env.probe);
      AdmitSteps(args.cidr, env.probe);
      var t := BootSpec(args, env).trace;
      assert t[..|identity| + |adm.steps|] == identity + adm.steps;
      if args.cidr.Some? {
        assert IsProbeStep(t[|identity|]);
      }
    }
  }

  /** A failed probe ends `run` with that error, before the engine exists. */
  lemma ProbeFailureIsFatal(args: ServerArgs, env: Environment)
    requires RecordBuilt(env) && args.cidr.Some? && env.probe.ProbeFailed?
    ensures BootSpec(args, env).outcome == Failed(ProbeError(env.probe.stage, env.probe.error))
    ensures forall k :: 0 <= k < |BootSpec(args, env).trace| ==> PreLaunch(BootSpec(args, env).trace[k])
    ensures forall k :: 0 <= k < |BootSpec(args, env).trace| ==> !BootSpec(args, env).trace[k].CreateEngine?
  {
    AdmitSteps(args.cidr, env.probe);
  }

  /** The services run only once the engine has been started: every launch
      step is preceded by the engine start. */
  lemma StartPrecedesLaunches(args: ServerArgs, env: Environment)
    ensures forall k :: 0 <= k < |BootSpec(args, env).trace| && IsLaunch(BootSpec(args, env).trace[k])
                ==> StartEngine in BootSpec(args, env).trace[..k]
  {
    if RecordBuilt(env) {
      var enr := env.record.value;
      var adm := Admit(args.cidr, env.probe);
      AdmitSteps(args.cidr, env.probe);
      if adm.result.Ok? && env.engineCreated && env.engineStarted {
        var identity := [ReadKey, BuildEnr] + Emits(EnrReport(enr));
        var prefix := identity + adm.steps
          + [Emit(LogRecord(Info, DiscoveryListening(args.listenIpv4, args.listenPort))),
             CreateEngine(EngineConfig(args, adm.result.value))];
        var t := BootSpec(args, env).trace;
        var s := |prefix|;
        assert t[s] == StartEngine;
        forall k | 0 <= k < |t| && IsLaunch(t[k])
          ensures StartEngine in t[..k]
        {
          assert k > s;
          assert t[..k][s] == StartEngine;
        }
      }
    }
  }

  /** The services (statistics, event observer, and the echo responder with
      the given address and the record's text) are each launched exactly when
      nothing failed before the start. */
  lemma ServicesLaunchedIff(args: ServerArgs, env: Environment)
    ensures RecordBuilt(env) ==>
      forall k :: 0 <= k < |Launches(args, env.record.value)| ==>
        (Launches(args, env.record.value)[k] in BootSpec(args, env).trace
         <==> (args.cidr.None? || env.probe.Probed?) && env.engineCreated && env.engineStarted)
    ensures !RecordBuilt(env) ==> forall k :: 0 <= k < |BootSpec(args, env).trace| ==> PreLaunch(BootSpec(args, env).trace[k])
  {
    if RecordBuilt(env) {
      AdmitSteps(args.cidr, env.probe);
    }
  }

  /** How `run` ends: it returns normally only after the first signal, which
      it reports last; an engine that cannot start panics. */
  lemma OutcomeOfRun(args: ServerArgs, env: Environment)
    ensures BootSpec(args, env).outcome.ShutDown? <==>
      RecordBuilt(env) && (args.cidr.None? || env.probe.Probed?) && env.engineCreated && env.engineStarted
      && env.sigtermInstalled && env.sigintInstalled
    ensures BootSpec(args, env).outcome.ShutDown? ==>
      BootSpec(args, env).outcome.signal == env.firstSignal
      && BootSpec(args, env).trace[|BootSpec(args, env).trace| - 1] == Emit(SignalRecord(env.firstSignal))
    ensures BootSpec(args, env).outcome.Panicked? <==>
      RecordBuilt(env) && (args.cidr.None? || env.probe.Probed?) && env.engineCreated && !env.engineStarted
  {
  }

  /** For the range `10.0.0.0/8` and the local address `192.168.1.5`, the
      filter stays off and a warning is logged. */
  lemma MismatchScenario()
    ensures Decide(Cidr(0x0A00_0000, 8), V4(0xC0A8_0105)).allowed == None
    ensures Decide(Cidr(0x0A00_0000, 8), V4(0xC0A8_0105)).record.level == Warn
  {
    var c := Cidr(0x0A00_0000, 8);
    assert Shr(0x0A00_0000, 24) == 10 && Shr(0xC0A8_0105, 24) == 192 by {
      ShrRange(0x0A00_0000, 24, 10);
      ShrRange(0xC0A8_0105, 24, 192);
      Pow2Of24();
    }
    ContainsIffSameHighPart(c, 0xC0A8_0105);
  }

  /** The same range and address through the whole of `run`: the engine is created
      without a range filter and the server runs until the first signal. */
  lemma MismatchBoot(args: ServerArgs, env: Environment)
    requires args.cidr == Some(Cidr(0x0A00_0000, 8)) && env.probe == Probed(V4(0xC0A8_0105))
    requires RecordBuilt(env) && env.engineCreated && env.engineStarted
    requires env.sigtermInstalled && env.sigintInstalled
    ensures BootSpec(args, env).outcome == ShutDown(env.firstSignal)
    ensures CreateEngine(EngineConfig(args, None)) in BootSpec(args, env).trace
  {
    MismatchScenario();
  }

  lemma Pow2Of24()
    ensures Pow2(24) == 0x100_0000
  {
    assert Pow2(4) == 16;
    Pow2Add(4, 4);
    Pow2Add(8, 8);
    Pow2Add(16, 8);
  }
}
