/** The `setup` command (internal/cli/setup.go): the same early exits and
    failure count as the prerun fan-out, with setupHost as the per-host
    function: connect, then run the job file's commands in order until one
    fails.

    What each step meets on the remote side is a parameter: the `Net` that
    Connect sees, and for the k-th command of a host an `ExecEnv` (whether
    the session opens, the command's own result, and whether it or a
    cancellation finishes first). */
module CliSetup {
  import opened Wrappers
  import Parse
  import Ssh
  import opened PrerunSetup

  /** What one Exec call meets. */
  datatype ExecEnv = ExecEnv(sessionError: Option<string>, result: Option<string>, timing: Ssh.Timing)

  /** The error Exec returns for the k-th command. */
  function CommandError(commands: seq<string>, k: nat, env: nat -> ExecEnv): Option<Ssh.SshError>
    requires k < |commands|
  {
    Ssh.Exec(env(k).sessionError, commands[k], env(k).result, env(k).timing).err
  }

  /** The index of the first command that fails, or |commands| when none
      from index k on does. */
  function FirstFailure(commands: seq<string>, env: nat -> ExecEnv, k: nat): (r: nat)
    requires k <= |commands|
    ensures k <= r <= |commands|
    ensures forall j :: k <= j < r ==> CommandError(commands, j, env).None?
    ensures r < |commands| ==> CommandError(commands, r, env).Some?
    decreases |commands| - k
  {
    if k == |commands| then k
    else if CommandError(commands, k, env).Some? then k
    else FirstFailure(commands, env, k + 1)
  }

  datatype HostError =
    | ConnectFailed(cause: Ssh.ConnectError)
    | ExecFailed(command: string, execError: Ssh.SshError)

  /** Does setupHost fail on this host? */
  predicate HostFails(cluster: Parse.NodeConfig, commands: seq<string>, host: string, net: Ssh.Net, env: nat -> ExecEnv)
  {
    Ssh.Connect(cluster.user, host, cluster.identityFile, net).client.Err?
    || FirstFailure(commands, env, 0) < |commands|
  }

  /** setupHost fails exactly when the connection fails or some command does. */
  lemma HostFailsIff(cluster: Parse.NodeConfig, commands: seq<string>, host: string, net: Ssh.Net, env: nat -> ExecEnv)
    ensures HostFails(cluster, commands, host, net, env) <==>
              Ssh.Connect(cluster.user, host, cluster.identityFile, net).client.Err?
              || exists k :: 0 <= k < |commands| && CommandError(commands, k, env).Some?
  {
    var f := FirstFailure(commands, env, 0);
    if f < |commands| {
      assert CommandError(commands, f, env).Some?;
    }
  }

  /** setupHost: after a failed connection no command runs; otherwise the
      commands run in order and the first failure ends the host, naming the
      command that failed. `ran` lists the commands started. */
  method SetupHost(cluster: Parse.NodeConfig, commands: seq<string>, host: string, net: Ssh.Net, env: nat -> ExecEnv)
    returns (ran: seq<string>, err: Option<HostError>)
    ensures var c := Ssh.Connect(cluster.user, host, cluster.identityFile, net).client;
            c.Err? ==> ran == [] && err == Some(ConnectFailed(c.error))
    ensures Ssh.Connect(cluster.user, host, cluster.identityFile, net).client.Ok? ==>
              var f := FirstFailure(commands, env, 0);
              && (f == |commands| ==> ran == commands && err == None)
              && (f < |commands| ==> ran == commands[..f + 1]
                                     && err == Some(ExecFailed(commands[f], CommandError(commands, f, env).value)))
    ensures err.None? <==> !HostFails(cluster, commands, host, net, env)
  {
    var connected := Ssh.Connect(cluster.user, host, cluster.identityFile, net);
    if connected.client.Err? {
      return [], Some(ConnectFailed(connected.client.error));
    }
    ran := [];
    var k := 0;
    while k < |commands|
      invariant 0 <= k <= |commands|
      invariant ran == commands[..k]
      invariant FirstFailure(commands, env, 0) == FirstFailure(commands, env, k)
    {
      var o := Ssh.Exec(env(k).sessionError, commands[k], env(k).result, env(k).timing);
      ran := ran + [commands[k]];
      if o.err.Some? {
        return ran, Some(ExecFailed(commands[k], o.err.value));
      }
      k := k + 1;
    }
    return ran, None;
  }

  /** The predicate the fan-out counts with: host i fails under its own
      environment. */
  function FailsAt(cluster: Parse.NodeConfig, commands: seq<string>, net: Ssh.Net,
                   env: (nat, string) -> nat -> ExecEnv): (nat, string) -> bool
  {
    (i: nat, h: string) => HostFails(cluster, commands, h, net, env(i, h))
  }

  /** runSetup: the same checks as RunPreRunSSH, then setupHost once per
      host, counting the hosts that failed. */
  method RunSetup(clusters: Result<Parse.ClusterMap, Parse.LoadError>, clusterName: string,
                  mesh: Result<Parse.MeshConfig, Parse.LoadError>, net: Ssh.Net,
                  env: (nat, string) -> nat -> ExecEnv)
    returns (err: Option<SetupError>, contacted: seq<string>)
    ensures !ReachesHosts(clusters, clusterName, mesh) ==> contacted == []
    ensures clusters.Err? ==> err == Some(ClustersUnreadable(clusters.error))
    ensures clusters.Ok? && clusterName !in clusters.value ==> err == Some(ClusterNotFound(clusterName))
    ensures clusters.Ok? && clusterName in clusters.value && mesh.Err? ==> err == Some(MeshUnreadable(mesh.error))
    ensures clusters.Ok? && clusterName in clusters.value && mesh.Ok? && |mesh.value.commands| == 0 ==> err == None
    ensures ReachesHosts(clusters, clusterName, mesh) ==>
              var cluster := clusters.value[clusterName];
              var fails := FailsAt(cluster, mesh.value.commands, net, env);
              && contacted == cluster.hosts
              && (err.None? <==> forall i :: 0 <= i < |cluster.hosts| ==> !fails(i, cluster.hosts[i]))
              && (err.Some? ==> err == Some(HostsFailed(Failures(cluster.hosts, fails))))
  {
    if clusters.Err? {
      return Some(ClustersUnreadable(clusters.error)), [];
    }
    if clusterName !in clusters.value {
      return Some(ClusterNotFound(clusterName)), [];
    }
    var cluster := clusters.value[clusterName];
    if mesh.Err? {
      return Some(MeshUnreadable(mesh.error)), [];
    }
    var commands := mesh.value.commands;
    if |commands| == 0 {
      return None, [];
    }
    ghost var fails := FailsAt(cluster, commands, net, env);
    var hosts := cluster.hosts;
    var failures := 0;
    contacted := [];
    var i := 0;
    while i < |hosts|
      invariant 0 <= i <= |hosts|
      invariant contacted == hosts[..i]
      invariant failures == Failures(hosts[..i], fails)
    {
      FailuresStep(hosts, fails, i);
      PrefixStep(hosts, i);
      var _, hostErr := SetupHost(cluster, commands, hosts[i], net, env(i, hosts[i]));
      contacted := contacted + [hosts[i]];
      if hostErr.Some? {
        failures := failures + 1;
      }
      i := i + 1;
    }
    assert hosts[..|hosts|] == hosts;
    NoFailures(hosts, fails);
    if failures > 0 {
      return Some(HostsFailed(failures)), contacted;
    }
    return None, contacted;
  }
}
