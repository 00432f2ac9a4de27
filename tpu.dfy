/** TPU metrics (internal/watch/tpu.go): per-host sums over the chips, and
    the cluster aggregator that AddHost feeds and Finalize averages.

    Byte counts are unbounded integers; the gigabyte and percentage
    quantities, float64 in the source, are `real`. */
module Tpu {

  datatype ChipMetrics = ChipMetrics(
    deviceId: int,
    memoryUsage: int,
    totalMemory: int,
    dutyCyclePct: real,
    chipType: string)

  /** One host's report; a non-empty `error` marks a host that could not be
      queried. */
  datatype HostMetrics = HostMetrics(
    chipType: string,
    chipCount: int,
    chips: seq<ChipMetrics>,
    error: string)

  const BytesPerGB: real := 1000000000.0

  // ---------------------------------------------------------------------
  // Per-host sums
  // ---------------------------------------------------------------------

  /** Bytes in use over the chips, summed in list order. */
  function UsageSum(chips: seq<ChipMetrics>): int
  {
    if chips == [] then 0 else UsageSum(chips[..|chips| - 1]) + chips[|chips| - 1].memoryUsage
  }

  /** Bytes of memory over the chips, summed in list order. */
  function TotalSum(chips: seq<ChipMetrics>): int
  {
    if chips == [] then 0 else TotalSum(chips[..|chips| - 1]) + chips[|chips| - 1].totalMemory
  }

  /** Duty cycle percentages over the chips, summed in list order. */
  function DutySum(chips: seq<ChipMetrics>): real
  {
    if chips == [] then 0.0 else DutySum(chips[..|chips| - 1]) + chips[|chips| - 1].dutyCyclePct
  }

  /** MemoryUsageGB: the chips' bytes in use, in units of 10^9 bytes. */
  method MemoryUsageGB(m: HostMetrics) returns (gb: real)
    ensures gb == UsageSum(m.chips) as real / BytesPerGB
  {
    var total := 0;
    var i := 0;
    while i < |m.chips|
      invariant 0 <= i <= |m.chips|
      invariant total == UsageSum(m.chips[..i])
    {
      assert m.chips[..i + 1][..i] == m.chips[..i];
      total := total + m.chips[i].memoryUsage;
      i := i + 1;
    }
    assert m.chips[..|m.chips|] == m.chips;
    gb := total as real / BytesPerGB;
  }

  /** TotalMemoryGB: the chips' memory bytes, in units of 10^9 bytes. */
  method TotalMemoryGB(m: HostMetrics) returns (gb: real)
    ensures gb == TotalSum(m.chips) as real / BytesPerGB
  {
    var total := 0;
    var i := 0;
    while i < |m.chips|
      invariant 0 <= i <= |m.chips|
      invariant total == TotalSum(m.chips[..i])
    {
      assert m.chips[..i + 1][..i] == m.chips[..i];
      total := total + m.chips[i].totalMemory;
      i := i + 1;
    }
    assert m.chips[..|m.chips|] == m.chips;
    gb := total as real / BytesPerGB;
  }

  /** AvgUtilization: 0 for a host without chips, else the mean duty cycle. */
  method AvgUtilization(m: HostMetrics) returns (avg: real)
    ensures |m.chips| == 0 ==> avg == 0.0
    ensures |m.chips| > 0 ==> avg == DutySum(m.chips) / |m.chips| as real
  {
    if |m.chips| == 0 {
      return 0.0;
    }
    var total := 0.0;
    var i := 0;
    while i < |m.chips|
      invariant 0 <= i <= |m.chips|
      invariant total == DutySum(m.chips[..i])
    {
      assert m.chips[..i + 1][..i] == m.chips[..i];
      total := total + m.chips[i].dutyCyclePct;
      i := i + 1;
    }
    assert m.chips[..|m.chips|] == m.chips;
    avg := total / |m.chips| as real;
  }

  /** Chips that report no more memory in use than they have. */
  predicate MemorySane(chips: seq<ChipMetrics>)
  {
    forall i :: 0 <= i < |chips| ==> 0 <= chips[i].memoryUsage <= chips[i].totalMemory
  }

  /** Chips whose duty cycle is a percentage. */
  predicate DutySane(chips: seq<ChipMetrics>)
  {
    forall i :: 0 <= i < |chips| ==> 0.0 <= chips[i].dutyCyclePct <= 100.0
  }

  /** A host never uses more memory than it has, when each chip does not. */
  lemma {:induction false} UsageWithinTotal(chips: seq<ChipMetrics>)
    requires MemorySane(chips)
    ensures 0 <= UsageSum(chips) <= TotalSum(chips)
  {
    if chips != [] {
      UsageWithinTotal(chips[..|chips| - 1]);
    }
  }

  /** The duty cycles of n percentage-reporting chips sum to at most 100n. */
  lemma {:induction false} DutySumBounded(chips: seq<ChipMetrics>)
    requires DutySane(chips)
    ensures 0.0 <= DutySum(chips) <= 100.0 * |chips| as real
  {
    if chips != [] {
      DutySumBounded(chips[..|chips| - 1]);
    }
  }

  /** A host's average utilisation is itself a percentage. */
  lemma HostAverageBounded(chips: seq<ChipMetrics>, avg: real)
    requires DutySane(chips) && |chips| > 0
    requires avg == DutySum(chips) / |chips| as real
    ensures 0.0 <= avg <= 100.0
  {
    DutySumBounded(chips);
    RatioBounded(DutySum(chips), |chips| as real);
  }

  // ---------------------------------------------------------------------
  // The cluster aggregator
  // ---------------------------------------------------------------------

  /** One AddHost call: the host name and the metrics recorded for it. */
  datatype Added = Added(host: string, metrics: HostMetrics)

  predicate Reported(m: HostMetrics)
  {
    m.error == ""
  }

  /** Hosts added without an error. */
  function ActiveCount(h: seq<Added>): nat
  {
    if h == [] then 0
    else ActiveCount(h[..|h| - 1]) + (if Reported(h[|h| - 1].metrics) then 1 else 0)
  }

  /** Hosts added with an error. */
  function ErrorCount(h: seq<Added>): nat
  {
    if h == [] then 0
    else ErrorCount(h[..|h| - 1]) + (if Reported(h[|h| - 1].metrics) then 0 else 1)
  }

  /** Reported chip counts of the hosts added without an error. */
  function ChipTotal(h: seq<Added>): int
  {
    if h == [] then 0
    else ChipTotal(h[..|h| - 1]) + (if Reported(h[|h| - 1].metrics) then h[|h| - 1].metrics.chipCount else 0)
  }

  /** Memory, in GB, of the hosts added without an error. */
  function MemoryTotal(h: seq<Added>): real
  {
    if h == [] then 0.0
    else
      var m := h[|h| - 1].metrics;
      MemoryTotal(h[..|h| - 1]) + (if Reported(m) then TotalSum(m.chips) as real / BytesPerGB else 0.0)
  }

  /** Memory in use, in GB, of the hosts added without an error. */
  function MemoryUsed(h: seq<Added>): real
  {
    if h == [] then 0.0
    else
      var m := h[|h| - 1].metrics;
      MemoryUsed(h[..|h| - 1]) + (if Reported(m) then UsageSum(m.chips) as real / BytesPerGB else 0.0)
  }

  /** Sum of every chip's duty cycle over the hosts added without an error. */
  function DutyTotal(h: seq<Added>): real
  {
    if h == [] then 0.0
    else
      var m := h[|h| - 1].metrics;
      DutyTotal(h[..|h| - 1]) + (if Reported(m) then DutySum(m.chips) else 0.0)
  }

  /** The Hosts map after the calls: each name holds its latest metrics. */
  function HostMap(h: seq<Added>): map<string, HostMetrics>
  {
    if h == [] then map[]
    else HostMap(h[..|h| - 1])[h[|h| - 1].host := h[|h| - 1].metrics]
  }

  /** What one more call adds to each summary. */
  lemma AddedOne(h: seq<Added>, a: Added)
    ensures ActiveCount(h + [a]) == ActiveCount(h) + (if Reported(a.metrics) then 1 else 0)
    ensures ErrorCount(h + [a]) == ErrorCount(h) + (if Reported(a.metrics) then 0 else 1)
    ensures ChipTotal(h + [a]) == ChipTotal(h) + (if Reported(a.metrics) then a.metrics.chipCount else 0)
    ensures MemoryTotal(h + [a]) ==
              MemoryTotal(h) + (if Reported(a.metrics) then TotalSum(a.metrics.chips) as real / BytesPerGB else 0.0)
    ensures MemoryUsed(h + [a]) ==
              MemoryUsed(h) + (if Reported(a.metrics) then UsageSum(a.metrics.chips) as real / BytesPerGB else 0.0)
    ensures DutyTotal(h + [a]) == DutyTotal(h) + (if Reported(a.metrics) then DutySum(a.metrics.chips) else 0.0)
    ensures HostMap(h + [a]) == HostMap(h)[a.host := a.metrics]
  {
    assert (h + [a])[..|h|] == h;
  }

  /** Every call is counted exactly once, as active or as errored. */
  lemma {:induction false} CountsCoverCalls(h: seq<Added>)
    ensures ActiveCount(h) + ErrorCount(h) == |h|
  {
    if h != [] {
      CountsCoverCalls(h[..|h| - 1]);
    }
  }

  /** The Hosts map is keyed by exactly the names that were added. */
  lemma {:induction false} HostMapKeys(h: seq<Added>)
    ensures forall k :: k in HostMap(h) <==> exists i :: 0 <= i < |h| && h[i].host == k
  {
    if h != [] {
      var init := h[..|h| - 1];
      HostMapKeys(init);
      forall k | k in HostMap(h)
        ensures exists i :: 0 <= i < |h| && h[i].host == k
      {
        assert HostMap(h) == HostMap(init)[h[|h| - 1].host := h[|h| - 1].metrics];
        if k != h[|h| - 1].host {
          assert k in HostMap(init);
          var i :| 0 <= i < |init| && init[i].host == k;
          assert h[i].host == k;
        }
      }
      forall k, i | 0 <= i < |h| && h[i].host == k
        ensures k in HostMap(h)
      {
        if i < |init| {
          assert init[i].host == k;
        }
      }
    }
  }

  predicate DistinctHosts(h: seq<Added>)
  {
    forall i, j :: 0 <= i < j < |h| ==> h[i].host != h[j].host
  }

  /** With distinct host names, the map holds one entry per call. */
  lemma {:induction false} DistinctHostsAllKept(h: seq<Added>)
    requires DistinctHosts(h)
    ensures |HostMap(h)| == |h|
  {
    if h != [] {
      var init := h[..|h| - 1];
      DistinctHostsAllKept(init);
      HostMapKeys(init);
      assert forall i :: 0 <= i < |init| ==> init[i].host == h[i].host;
      assert h[|h| - 1].host !in HostMap(init);
    }
  }

  /** Used memory never exceeds total memory when every chip's does not. */
  lemma {:induction false} ClusterUsageWithinTotal(h: seq<Added>)
    requires forall i :: 0 <= i < |h| ==> MemorySane(h[i].metrics.chips)
    ensures 0.0 <= MemoryUsed(h) <= MemoryTotal(h)
  {
    if h != [] {
      var init := h[..|h| - 1];
      assert forall i :: 0 <= i < |init| ==> init[i] == h[i];
      ClusterUsageWithinTotal(init);
      UsageWithinTotal(h[|h| - 1].metrics.chips);
    }
  }

  /** When every host reports as many chips as it lists and each duty cycle
      is a percentage, the summed duty cycles are at most 100 per counted
      chip. */
  lemma {:induction false} DutyTotalBounded(h: seq<Added>)
    requires forall i :: 0 <= i < |h| ==>
               DutySane(h[i].metrics.chips) && h[i].metrics.chipCount == |h[i].metrics.chips|
    ensures 0.0 <= DutyTotal(h) <= 100.0 * ChipTotal(h) as real
  {
    if h != [] {
      var init := h[..|h| - 1];
      assert forall i :: 0 <= i < |init| ==> init[i] == h[i];
      DutyTotalBounded(init);
      DutySumBounded(h[|h| - 1].metrics.chips);
    }
  }

  /** The duty-cycle loop of AddHost: each chip's duty cycle added to `acc`
      in list order. */
  method SumDuty(chips: seq<ChipMetrics>, acc: real) returns (sum: real)
    ensures sum == acc + DutySum(chips)
  {
    sum := acc;
    var i := 0;
    while i < |chips|
      invariant 0 <= i <= |chips|
      invariant sum == acc + DutySum(chips[..i])
    {
      assert chips[..i + 1][..i] == chips[..i];
      sum := sum + chips[i].dutyCyclePct;
      i := i + 1;
    }
    assert chips[..|chips|] == chips;
  }

  /** After Finalize, the cluster average is a percentage when every host
      reports as many chips as it lists and each duty cycle is one. */
  lemma FinalAverageBounded(h: seq<Added>, avg: real)
    requires forall i :: 0 <= i < |h| ==>
               DutySane(h[i].metrics.chips) && h[i].metrics.chipCount == |h[i].metrics.chips|
    requires ChipTotal(h) > 0 && avg == DutyTotal(h) / ChipTotal(h) as real
    ensures 0.0 <= avg <= 100.0
  {
    DutyTotalBounded(h);
    RatioBounded(DutyTotal(h), ChipTotal(h) as real);
  }

  /** x / n is a percentage when 0 <= x <= 100 n. */
  lemma RatioBounded(x: real, n: real)
    requires n > 0.0 && 0.0 <= x <= 100.0 * n
    ensures 0.0 <= x / n <= 100.0
  {
    assert x / n <= (100.0 * n) / n;
  }

  /** ClusterTPUMetrics. `added` records, for the proofs, the AddHost calls
      made so far. */
  class ClusterTPUMetrics {
    var hosts: map<string, HostMetrics>
    var totalChips: int
    var totalMemoryGB: real
    var usedMemoryGB: real
    var avgUtilization: real
    var activeHosts: int
    var errorHosts: int
    ghost var added: seq<Added>
    ghost var finalized: bool

    /** The counters and totals summarise the calls made so far. */
    ghost predicate Valid()
      reads this
    {
      && hosts == HostMap(added)
      && activeHosts == ActiveCount(added)
      && errorHosts == ErrorCount(added)
      && totalChips == ChipTotal(added)
      && totalMemoryGB == MemoryTotal(added)
      && usedMemoryGB == MemoryUsed(added)
      && (!finalized ==> avgUtilization == DutyTotal(added))
    }

    /** NewClusterTPUMetrics: an empty Hosts map and every counter zero. */
    constructor ()
      ensures Valid() && added == [] && !finalized
      ensures hosts == map[] && totalChips == 0 && activeHosts == 0 && errorHosts == 0
      ensures totalMemoryGB == 0.0 && usedMemoryGB == 0.0 && avgUtilization == 0.0
    {
      hosts := map[];
      totalChips := 0;
      totalMemoryGB := 0.0;
      usedMemoryGB := 0.0;
      avgUtilization := 0.0;
      activeHosts := 0;
      errorHosts := 0;
      added := [];
      finalized := false;
    }

    /** AddHost: the metrics are always recorded; an errored host only bumps
        ErrorHosts, any other bumps ActiveHosts and adds its reported chip
        count, its memory and every chip's duty cycle. */
    method AddHost(host: string, metrics: HostMetrics)
      requires Valid()
      modifies this
      ensures Valid() && added == old(added) + [Added(host, metrics)] && finalized == old(finalized)
      ensures hosts == old(hosts)[host := metrics]
      ensures !Reported(metrics) ==>
                && errorHosts == old(errorHosts) + 1 && activeHosts == old(activeHosts)
                && totalChips == old(totalChips) && avgUtilization == old(avgUtilization)
                && totalMemoryGB == old(totalMemoryGB) && usedMemoryGB == old(usedMemoryGB)
      ensures Reported(metrics) ==>
                && activeHosts == old(activeHosts) + 1 && errorHosts == old(errorHosts)
                && totalChips == old(totalChips) + metrics.chipCount
                && totalMemoryGB == old(totalMemoryGB) + TotalSum(metrics.chips) as real / BytesPerGB
                && usedMemoryGB == old(usedMemoryGB) + UsageSum(metrics.chips) as real / BytesPerGB
                && avgUtilization == old(avgUtilization) + DutySum(metrics.chips)
    {
      ghost var a := Added(host, metrics);
      AddedOne(added, a);
      if metrics.error != "" {
        hosts, added := hosts[host := metrics], added + [a];
        errorHosts := errorHosts + 1;
        return;
      }
      var total := TotalMemoryGB(metrics);
      var used := MemoryUsageGB(metrics);
      var sum := SumDuty(metrics.chips, avgUtilization);
      hosts, added := hosts[host := metrics], added + [a];
      activeHosts, totalChips := activeHosts + 1, totalChips + metrics.chipCount;
      totalMemoryGB, usedMemoryGB, avgUtilization := totalMemoryGB + total, usedMemoryGB + used, sum;
    }

    /** Finalize: divide the summed duty cycles by TotalChips when positive;
        nothing else changes. */
    method Finalize()
      requires Valid()
      modifies this
      ensures Valid() && finalized
      ensures totalChips > 0 ==> avgUtilization == old(avgUtilization) / totalChips as real
      ensures totalChips <= 0 ==> avgUtilization == old(avgUtilization)
      ensures hosts == old(hosts) && totalChips == old(totalChips) && added == old(added)
      ensures activeHosts == old(activeHosts) && errorHosts == old(errorHosts)
      ensures totalMemoryGB == old(totalMemoryGB) && usedMemoryGB == old(usedMemoryGB)
    {
      if totalChips > 0 {
        avgUtilization := avgUtilization / totalChips as real;
      }
      finalized := true;
    }

    /** MemoryUtilizationPct: 0 without memory, else used as a percentage of
        total. */
    function MemoryUtilizationPct(): (pct: real)
      reads this
      ensures totalMemoryGB == 0.0 ==> pct == 0.0
      ensures totalMemoryGB != 0.0 ==> pct * totalMemoryGB == 100.0 * usedMemoryGB
      ensures 0.0 <= usedMemoryGB <= totalMemoryGB ==> 0.0 <= pct <= 100.0
    {
      if totalMemoryGB == 0.0 then 0.0
      else
        var pct := 100.0 * usedMemoryGB / totalMemoryGB;
        assert 0.0 <= usedMemoryGB <= totalMemoryGB ==> 0.0 <= pct <= 100.0 by {
          if 0.0 <= usedMemoryGB <= totalMemoryGB {
            RatioBounded(100.0 * usedMemoryGB, totalMemoryGB);
          }
        }
        pct
    }

    /** TotalHosts: the number of distinct host names added. */
    function TotalHosts(): (n: nat)
      reads this
      ensures n == |hosts|
      ensures Valid() ==> forall k :: k in hosts <==> exists i :: 0 <= i < |added| && added[i].host == k
      ensures Valid() && DistinctHosts(added) ==> n == activeHosts + errorHosts
    {
      HostMapKeys(added);
      assert Valid() && DistinctHosts(added) ==> |hosts| == activeHosts + errorHosts by {
        if Valid() && DistinctHosts(added) {
          DistinctHostsAllKept(added);
          CountsCoverCalls(added);
        }
      }
      |hosts|
    }
  }
}
