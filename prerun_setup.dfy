/** The cluster-wide fan-out (internal/prerun/setup.go): RunPreRunSSH looks
    the cluster up, reads the job file, and runs one host function per host,
    counting the hosts whose function failed.

    The hosts run concurrently in the source, with the counter behind a
    mutex; no result depends on their order, so the model visits them in
    list order. What the host function returns for the i-th host is the
    parameter `fails`. Signal handling is not modelled. */
module PrerunSetup {
  import opened Wrappers
  import Parse

  /** The number of hosts whose function failed. */
  function Failures(hosts: seq<string>, fails: (nat, string) -> bool): nat
  {
    if hosts == [] then 0
    else Failures(hosts[..|hosts| - 1], fails) + (if fails(|hosts| - 1, hosts[|hosts| - 1]) then 1 else 0)
  }

  /** Counting one more host adds one exactly when that host fails. */
  lemma FailuresStep(hosts: seq<string>, fails: (nat, string) -> bool, i: nat)
    requires i < |hosts|
    ensures Failures(hosts[..i + 1], fails) == Failures(hosts[..i], fails) + (if fails(i, hosts[i]) then 1 else 0)
  {
    assert hosts[..i + 1][..i] == hosts[..i];
  }

  /** The first i + 1 hosts are the first i followed by host i. */
  lemma PrefixStep(hosts: seq<string>, i: nat)
    requires i < |hosts|
    ensures hosts[..i + 1] == hosts[..i] + [hosts[i]]
  {
  }

  /** No failure is counted exactly when every host succeeded. */
  lemma {:induction false} NoFailures(hosts: seq<string>, fails: (nat, string) -> bool)
    ensures Failures(hosts, fails) == 0 <==> forall i :: 0 <= i < |hosts| ==> !fails(i, hosts[i])
  {
    if hosts != [] {
      var init := hosts[..|hosts| - 1];
      NoFailures(init, fails);
      assert forall i :: 0 <= i < |init| ==> init[i] == hosts[i];
    }
  }

  /** At most one failure per host. */
  lemma {:induction false} FailuresAtMostHosts(hosts: seq<string>, fails: (nat, string) -> bool)
    ensures Failures(hosts, fails) <= |hosts|
    ensures Failures(hosts, fails) == |hosts| <==> forall i :: 0 <= i < |hosts| ==> fails(i, hosts[i])
  {
    if hosts != [] {
      var init := hosts[..|hosts| - 1];
      FailuresAtMostHosts(init, fails);
      assert forall i :: 0 <= i < |init| ==> init[i] == hosts[i];
    }
  }

  /** The host loop: the function runs once for every host, whatever the
      others returned, and each failure bumps the counter. */
  method FanOut(hosts: seq<string>, fails: (nat, string) -> bool) returns (failures: nat, invoked: seq<string>)
    ensures invoked == hosts
    ensures failures == Failures(hosts, fails)
  {
    failures := 0;
    invoked := [];
    var i := 0;
    while i < |hosts|
      invariant 0 <= i <= |hosts|
      invariant invoked == hosts[..i]
      invariant failures == Failures(hosts[..i], fails)
    {
      FailuresStep(hosts, fails, i);
      PrefixStep(hosts, i);
      invoked := invoked + [hosts[i]];
      if fails(i, hosts[i]) {
        failures := failures + 1;
      }
      i := i + 1;
    }
    assert hosts[..|hosts|] == hosts;
  }

  datatype SetupError =
    | ClustersUnreadable(cause: Parse.LoadError)
    | ClusterNotFound(name: string)
    | MeshUnreadable(meshCause: Parse.LoadError)
    | HostsFailed(count: nat)

  /** The checks RunPreRunSSH passes before contacting any host: the cluster
      file loads, names the cluster, the job file loads and lists at least
      one command. */
  predicate ReachesHosts(clusters: Result<Parse.ClusterMap, Parse.LoadError>, clusterName: string,
                         mesh: Result<Parse.MeshConfig, Parse.LoadError>)
  {
    clusters.Ok? && clusterName in clusters.value && mesh.Ok? && |mesh.value.commands| > 0
  }

  method RunPreRunSSH(clusters: Result<Parse.ClusterMap, Parse.LoadError>, clusterName: string,
                      mesh: Result<Parse.MeshConfig, Parse.LoadError>, fails: (nat, string) -> bool)
    returns (err: Option<SetupError>, invoked: seq<string>)
    ensures !ReachesHosts(clusters, clusterName, mesh) ==> invoked == []
    ensures clusters.Err? ==> err == Some(ClustersUnreadable(clusters.error))
    ensures clusters.Ok? && clusterName !in clusters.value ==> err == Some(ClusterNotFound(clusterName))
    ensures clusters.Ok? && clusterName in clusters.value && mesh.Err? ==> err == Some(MeshUnreadable(mesh.error))
    ensures clusters.Ok? && clusterName in clusters.value && mesh.Ok? && |mesh.value.commands| == 0 ==> err == None
    ensures ReachesHosts(clusters, clusterName, mesh) ==>
              var hosts := clusters.value[clusterName].hosts;
              && invoked == hosts
              && (err.None? <==> forall i :: 0 <= i < |hosts| ==> !fails(i, hosts[i]))
              && (err.Some? ==> err == Some(HostsFailed(Failures(hosts, fails))))
  {
    if clusters.Err? {
      return Some(ClustersUnreadable(clusters.error)), [];
    }
    if clusterName !in clusters.value {
      return Some(ClusterNotFound(clusterName)), [];
    }
    var cluster := clusters.value[clusterName];
    if mesh.Err? {
      return Some(MeshUnreadable(mesh.error)), [];
    }
    if |mesh.value.commands| == 0 {
      return None, [];
    }
    var failures;
    failures, invoked := FanOut(cluster.hosts, fails);
    NoFailures(cluster.hosts, fails);
    if failures > 0 {
      return Some(HostsFailed(failures)), invoked;
    }
    return None, invoked;
  }
}
