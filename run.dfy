/** The `run` command (internal/cli/run.go): the job command line, the run
    pass that prepares, ships, launches and tails the job on every host,
    and the cleanup pass that follows only a fully successful run.

    The helpers run.go calls in the prerun and ssh packages do not exist
    with the signatures it uses, so the model records each remote step as a
    `Call` with the arguments run.go passes, and takes each step's outcome
    as a parameter. The host loop of RunOnAllHosts is modelled like the
    prerun fan-out: every host visited once, in list order, with its index
    as its host id, failures counted. */
module Run {
  import opened Wrappers
  import Parse
  import Ssh
  import opened Strings
  import opened PrerunSetup

  const RemoteDir: string := "job"
  const MeshFile: string := "mesh.tar"
  const LogFile: string := "output.log"

  /** Clear the remote job directory before shipping the archive. */
  const PrepareCommand: string := "mkdir -p " + RemoteDir + " && rm -rf " + RemoteDir + "/*"
  /** Kill the job and remove its directory. */
  const CleanupCommand: string := "pkill -9 python && rm -rf " + RemoteDir

  // ---------------------------------------------------------------------
  // The command line
  // ---------------------------------------------------------------------

  /** The job command: the arguments after the cluster name, joined by
      single spaces (the command line has at least two arguments). */
  function JobCommand(args: seq<string>): string
    requires |args| >= 2
  {
    JoinSpace(args[1..])
  }

  /** Splitting the job command on whitespace gives back the arguments after
      the cluster name, when none of them is empty or holds whitespace. */
  lemma JobCommandFields(args: seq<string>)
    requires |args| >= 2
    requires forall i :: 1 <= i < |args| ==> |args[i]| > 0 && SpaceFree(args[i])
    ensures Fields(JobCommand(args)) == args[1..]
  {
    var tail := args[1..];
    assert forall i :: 0 <= i < |tail| ==> tail[i] == args[i + 1];
    FieldsJoinSpace(tail);
  }

  /** The process exit code: 1 exactly when run returned an error. */
  function ExitCode(failed: bool): (code: int)
    ensures code == 1 <==> failed
    ensures code == 0 <==> !failed
  {
    if failed then 1 else 0
  }

  /** The noun in the launch header. */
  function HostLabel(n: nat): (noun: string)
    ensures noun == "host" <==> n == 1
    ensures noun != "host" ==> noun == "hosts"
  {
    if n == 1 then "host" else "hosts"
  }

  // ---------------------------------------------------------------------
  // One host of the run pass
  // ---------------------------------------------------------------------

  /** A remote step, with the arguments run.go gives it. */
  datatype Call =
    | ConnectCall(user: string, host: string, identityFile: string)
    | ExecCall(command: string)
    | SendTarCall(remoteDir: string, meshFile: string)
    | LaunchCall(prerun: seq<string>, command: string, launchDir: string, logFile: string, hostId: nat)
    | TailCall(tailDir: string, tailFile: string)

  /** The errors of the steps after Connect, and whether the run was
      cancelled by the time the tail failed. */
  datatype HostEnv = HostEnv(
    prepare: Option<string>,
    send: Option<string>,
    launch: Option<string>,
    tail: Option<string>,
    cancelled: bool)

  datatype HostError =
    | ConnectFailed(cause: Ssh.ConnectError)
    | PrepareFailed(named: string, prepareCause: string)
    | SendFailed(sendCause: string)
    | LaunchFailed(launchCause: string)
    | TailFailed(tailCause: string)

  /** Every call runHost makes on a host where all steps succeed, in order. */
  function AllCalls(cluster: Parse.NodeConfig, host: string, command: string, prerun: seq<string>, hostId: nat)
    : (cs: seq<Call>)
    ensures |cs| == 5
  {
    [ConnectCall(cluster.user, host, cluster.identityFile),
     ExecCall(PrepareCommand),
     SendTarCall(RemoteDir, MeshFile),
     LaunchCall(prerun, command, RemoteDir, LogFile, hostId),
     TailCall(RemoteDir, LogFile)]
  }

  /** How many of those calls are made: each failure ends the host. */
  function CallsMade(connected: bool, env: HostEnv): (n: nat)
    ensures 1 <= n <= 5
    ensures n == 5 <==> connected && env.prepare.None? && env.send.None? && env.launch.None?
  {
    if !connected then 1
    else if env.prepare.Some? then 2
    else if env.send.Some? then 3
    else if env.launch.Some? then 4
    else 5
  }

  /** runHost succeeds when every step does, except that a failed tail
      counts as success once the run has been cancelled. */
  predicate HostSucceeds(connected: bool, env: HostEnv)
  {
    connected && env.prepare.None? && env.send.None? && env.launch.None?
    && (env.tail.None? || env.cancelled)
  }

  /** The prerun list handed to the launch: copied element by element. */
  method CopyPrerun(prerun: seq<string>) returns (copy: seq<string>)
    ensures copy == prerun
  {
    copy := [];
    var i := 0;
    while i < |prerun|
      invariant 0 <= i <= |prerun|
      invariant copy == prerun[..i]
    {
      copy := copy + [prerun[i]];
      i := i + 1;
    }
    assert prerun[..|prerun|] == prerun;
  }

  /** runHost: connect, clear the job directory, ship the archive, launch
      the job detached and follow its log. The first failing step ends the
      host with its error; the prepare error names the job command, as the
      source's message does. */
  method RunHost(cluster: Parse.NodeConfig, command: string, prerun: seq<string>, host: string, hostId: nat,
                 net: Ssh.Net, env: HostEnv)
    returns (calls: seq<Call>, err: Option<HostError>)
    ensures var connected := Ssh.Connect(cluster.user, host, cluster.identityFile, net).client.Ok?;
            calls == AllCalls(cluster, host, command, prerun, hostId)[..CallsMade(connected, env)]
    ensures err.None? <==> HostSucceeds(Ssh.Connect(cluster.user, host, cluster.identityFile, net).client.Ok?, env)
    ensures var c := Ssh.Connect(cluster.user, host, cluster.identityFile, net).client;
            && (c.Err? ==> err == Some(ConnectFailed(c.error)))
            && (c.Ok? && env.prepare.Some? ==> err == Some(PrepareFailed(command, env.prepare.value)))
            && (c.Ok? && env.prepare.None? && env.send.Some? ==> err == Some(SendFailed(env.send.value)))
            && (c.Ok? && env.prepare.None? && env.send.None? && env.launch.Some? ==>
                  err == Some(LaunchFailed(env.launch.value)))
            && (c.Ok? && env.prepare.None? && env.send.None? && env.launch.None? && env.tail.Some? && !env.cancelled ==>
                  err == Some(TailFailed(env.tail.value)))
  {
    ghost var all := AllCalls(cluster, host, command, prerun, hostId);
    var connected := Ssh.Connect(cluster.user, host, cluster.identityFile, net);
    calls := [ConnectCall(cluster.user, host, cluster.identityFile)];
    if connected.client.Err? {
      return calls, Some(ConnectFailed(connected.client.error));
    }
    calls := calls + [ExecCall(PrepareCommand)];
    if env.prepare.Some? {
      return calls, Some(PrepareFailed(command, env.prepare.value));
    }
    calls := calls + [SendTarCall(RemoteDir, MeshFile)];
    if env.send.Some? {
      return calls, Some(SendFailed(env.send.value));
    }
    var prerunFinal := CopyPrerun(prerun);
    calls := calls + [LaunchCall(prerunFinal, command, RemoteDir, LogFile, hostId)];
    if env.launch.Some? {
      return calls, Some(LaunchFailed(env.launch.value));
    }
    calls := calls + [TailCall(RemoteDir, LogFile)];
    assert calls == all[..5];
    if env.tail.Some? {
      if env.cancelled {
        return calls, None;
      }
      return calls, Some(TailFailed(env.tail.value));
    }
    return calls, None;
  }

  /** runCleanupHost: connect, then kill the job and remove its directory,
      ignoring how that command ends. Only the connection can fail. */
  method RunCleanupHost(cluster: Parse.NodeConfig, host: string, net: Ssh.Net)
    returns (calls: seq<Call>, err: Option<HostError>)
    ensures var c := Ssh.Connect(cluster.user, host, cluster.identityFile, net).client;
            && (c.Err? ==> calls == [ConnectCall(cluster.user, host, cluster.identityFile)]
                           && err == Some(ConnectFailed(c.error)))
            && (c.Ok? ==> calls == [ConnectCall(cluster.user, host, cluster.identityFile), ExecCall(CleanupCommand)]
                          && err == None)
  {
    var connected := Ssh.Connect(cluster.user, host, cluster.identityFile, net);
    calls := [ConnectCall(cluster.user, host, cluster.identityFile)];
    if connected.client.Err? {
      return calls, Some(ConnectFailed(connected.client.error));
    }
    calls := calls + [ExecCall(CleanupCommand)];
    return calls, None;
  }

  // ---------------------------------------------------------------------
  // The two passes
  // ---------------------------------------------------------------------

  /** Whether host i fails in the run pass. */
  function RunFailsAt(cluster: Parse.NodeConfig, net: Ssh.Net, env: (nat, string) -> HostEnv)
    : (nat, string) -> bool
  {
    (i: nat, h: string) => !HostSucceeds(Ssh.Connect(cluster.user, h, cluster.identityFile, net).client.Ok?, env(i, h))
  }

  /** Whether host i fails in the cleanup pass. */
  function CleanupFailsAt(cluster: Parse.NodeConfig, net: Ssh.Net): (nat, string) -> bool
  {
    (i: nat, h: string) => Ssh.Connect(cluster.user, h, cluster.identityFile, net).client.Err?
  }

  /** The run pass: runHost on every host, its index as its host id. */
  method RunPass(cluster: Parse.NodeConfig, command: string, prerun: seq<string>, net: Ssh.Net,
                 env: (nat, string) -> HostEnv)
    returns (failures: nat, contacted: seq<string>)
    ensures contacted == cluster.hosts
    ensures failures == Failures(cluster.hosts, RunFailsAt(cluster, net, env))
  {
    var hosts := cluster.hosts;
    ghost var fails := RunFailsAt(cluster, net, env);
    failures := 0;
    contacted := [];
    var i := 0;
    while i < |hosts|
      invariant 0 <= i <= |hosts|
      invariant contacted == hosts[..i]
      invariant failures == Failures(hosts[..i], fails)
    {
      FailuresStep(hosts, fails, i);
      PrefixStep(hosts, i);
      var _, err := RunHost(cluster, command, prerun, hosts[i], i, net, env(i, hosts[i]));
      contacted := contacted + [hosts[i]];
      if err.Some? {
        failures := failures + 1;
      }
      i := i + 1;
    }
    assert hosts[..|hosts|] == hosts;
  }

  /** The cleanup pass: runCleanupHost on every host. */
  method CleanupPass(cluster: Parse.NodeConfig, net: Ssh.Net) returns (failures: nat, contacted: seq<string>)
    ensures contacted == cluster.hosts
    ensures failures == Failures(cluster.hosts, CleanupFailsAt(cluster, net))
  {
    var hosts := cluster.hosts;
    ghost var fails := CleanupFailsAt(cluster, net);
    failures := 0;
    contacted := [];
    var i := 0;
    while i < |hosts|
      invariant 0 <= i <= |hosts|
      invariant contacted == hosts[..i]
      invariant failures == Failures(hosts[..i], fails)
    {
      FailuresStep(hosts, fails, i);
      PrefixStep(hosts, i);
      var _, err := RunCleanupHost(cluster, hosts[i], net);
      contacted := contacted + [hosts[i]];
      if err.Some? {
        failures := failures + 1;
      }
      i := i + 1;
    }
    assert hosts[..|hosts|] == hosts;
  }

  datatype RunError =
    | ConfigFailed(cause: string)
    | RunPassFailed(count: nat)
    | CleanupPassFailed(cleanupCount: nat)

  /** The hosts a run reached in each pass. */
  datatype Contacted = Contacted(runPass: seq<string>, cleanupPass: seq<string>)

  /** run: load the configuration, run the job on every host, and clean up
      only when no host failed. `configs` is what loading the cluster and
      the job file gave; `runNet` and `cleanupNet` are the network in each
      pass. */
  method RunJob(configs: Result<(Parse.NodeConfig, Parse.MeshConfig), string>, command: string,
                runNet: Ssh.Net, env: (nat, string) -> HostEnv, cleanupNet: Ssh.Net)
    returns (err: Option<RunError>, noun: string, contacted: Contacted)
    ensures configs.Err? ==> err == Some(ConfigFailed(configs.error)) && contacted == Contacted([], [])
    ensures configs.Ok? ==>
              var cluster := configs.value.0;
              var runFailures := Failures(cluster.hosts, RunFailsAt(cluster, runNet, env));
              var cleanupFailures := Failures(cluster.hosts, CleanupFailsAt(cluster, cleanupNet));
              && noun == HostLabel(|cluster.hosts|)
              && contacted.runPass == cluster.hosts
              && (runFailures > 0 ==> err == Some(RunPassFailed(runFailures)) && contacted.cleanupPass == [])
              && (runFailures == 0 ==> contacted.cleanupPass == cluster.hosts)
              && (runFailures == 0 && cleanupFailures > 0 ==> err == Some(CleanupPassFailed(cleanupFailures)))
              && (err.None? <==> runFailures == 0 && cleanupFailures == 0)
  {
    if configs.Err? {
      return Some(ConfigFailed(configs.error)), "", Contacted([], []);
    }
    var (cluster, mesh) := configs.value;
    noun := HostLabel(|cluster.hosts|);
    var failures, runContacted := RunPass(cluster, command, mesh.prerun, runNet, env);
    if failures > 0 {
      return Some(RunPassFailed(failures)), noun, Contacted(runContacted, []);
    }
    var cleanupFailures, cleanupContacted := CleanupPass(cluster, cleanupNet);
    if cleanupFailures > 0 {
      return Some(CleanupPassFailed(cleanupFailures)), noun, Contacted(runContacted, cleanupContacted);
    }
    return None, noun, Contacted(runContacted, cleanupContacted);
  }

  /** A run that fails on no host succeeds exactly when every host can
      still be reached for the cleanup. */
  lemma RunSucceedsIff(cluster: Parse.NodeConfig, runNet: Ssh.Net, env: (nat, string) -> HostEnv, cleanupNet: Ssh.Net)
    ensures (Failures(cluster.hosts, RunFailsAt(cluster, runNet, env)) == 0
             && Failures(cluster.hosts, CleanupFailsAt(cluster, cleanupNet)) == 0)
            <==>
            forall i :: 0 <= i < |cluster.hosts| ==>
              var h := cluster.hosts[i];
              && HostSucceeds(Ssh.Connect(cluster.user, h, cluster.identityFile, runNet).client.Ok?, env(i, h))
              && Ssh.Connect(cluster.user, h, cluster.identityFile, cleanupNet).client.Ok?
  {
    NoFailures(cluster.hosts, RunFailsAt(cluster, runNet, env));
    NoFailures(cluster.hosts, CleanupFailsAt(cluster, cleanupNet));
  }
}
