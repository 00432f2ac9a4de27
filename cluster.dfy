/** Cluster and job configuration (internal/parse): the configuration records
    and the validation pass of `Clusters` over the decoded cluster file.

    Reading and YAML decoding are left to the caller: `Clusters` receives
    their outcome. IP-literal parsing (net.ParseIP) is the parameter `isIP`. */
module Parse {
  import opened Wrappers

  /** One cluster: the login user, the private key file and its hosts. */
  datatype NodeConfig = NodeConfig(user: string, identityFile: string, hosts: seq<string>)

  type ClusterMap = map<string, NodeConfig>

  /** The job file: setup commands, ignore globs and pre-run commands. */
  datatype MeshConfig = MeshConfig(commands: seq<string>, ignore: seq<string>, prerun: seq<string>)

  /** Why the cluster file could not be loaded (path, read or decode). */
  datatype LoadError = AbsFailed | ReadFailed | DecodeFailed

  /** A cluster survives validation: it has a host, and every host is an
      IP literal (a host name is not). */
  predicate Usable(c: NodeConfig, isIP: string -> bool)
  {
    |c.hosts| > 0 && forall h :: h in c.hosts ==> isIP(h)
  }

  /** The loop of `Clusters`: delete every cluster without hosts or with a
      host that is not an IP literal, then list the surviving names. */
  method ValidateClusters(decoded: ClusterMap, isIP: string -> bool)
    returns (clusters: ClusterMap, names: seq<string>)
    ensures forall k :: k in clusters <==> k in decoded && Usable(decoded[k], isIP)
    ensures forall k :: k in clusters ==> clusters[k] == decoded[k]
    ensures forall k :: k in names <==> k in clusters
    ensures |names| == |clusters|
  {
    clusters := decoded;
    var pending := decoded.Keys;
    while pending != {}
      invariant pending <= decoded.Keys
      invariant forall k :: k in clusters ==> k in decoded && clusters[k] == decoded[k]
      invariant forall k :: k in pending ==> k in clusters
      invariant forall k :: k in decoded && k !in pending ==> (k in clusters <==> Usable(decoded[k], isIP))
      decreases pending
    {
      var k :| k in pending;
      pending := pending - {k};
      var hosts := clusters[k].hosts;
      if |hosts| == 0 {
        clusters := clusters - {k};
        continue;
      }
      ghost var before := clusters;
      var i := 0;
      while i < |hosts|
        invariant 0 <= i <= |hosts|
        invariant clusters == before
        invariant forall j :: 0 <= j < i ==> isIP(hosts[j])
      {
        if !isIP(hosts[i]) {
          clusters := clusters - {k};
          break;
        }
        i := i + 1;
      }
    }
    names := [];
    var rest := clusters.Keys;
    while rest != {}
      invariant rest <= clusters.Keys
      invariant forall k :: k in names <==> k in clusters && k !in rest
      invariant |names| + |rest| == |clusters|
      decreases rest
    {
      var k :| k in rest;
      names := names + [k];
      rest := rest - {k};
    }
  }

  /** `Clusters`: a load failure is returned as is, with no map; otherwise the
      decoded map after validation. */
  method Clusters(decoded: Result<ClusterMap, LoadError>, isIP: string -> bool)
    returns (r: Result<ClusterMap, LoadError>)
    ensures decoded.Err? ==> r == Err(decoded.error)
    ensures decoded.Ok? ==> r.Ok?
    ensures decoded.Ok? ==>
              forall k :: k in r.value <==> k in decoded.value && Usable(decoded.value[k], isIP)
    ensures decoded.Ok? ==> forall k :: k in r.value ==> r.value[k] == decoded.value[k]
  {
    if decoded.Err? {
      return Err(decoded.error);
    }
    var clusters, _ := ValidateClusters(decoded.value, isIP);
    return Ok(clusters);
  }
}
