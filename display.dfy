/** The watch display (internal/watch/display.go): the threshold colours and
    status labels, the error note of the summary, the host order of the
    table and the choice of row for each host. Column layout and the
    printing itself are not modelled. */
module Display {
  import opened Wrappers
  import opened Output
  import opened Strconv
  import opened Tpu

  // ---------------------------------------------------------------------
  // Classifiers
  // ---------------------------------------------------------------------

  /** utilizationColor: red from 90, yellow from 70, green from 40, cyan
      below; the four bands are disjoint and cover every value. */
  function UtilizationColor(pct: real): (c: string)
    ensures c == Red <==> pct >= 90.0
    ensures c == Yellow <==> 70.0 <= pct < 90.0
    ensures c == Green <==> 40.0 <= pct < 70.0
    ensures c == Cyan <==> pct < 40.0
  {
    ColorsDistinct();
    if pct >= 90.0 then Red
    else if pct >= 70.0 then Yellow
    else if pct >= 40.0 then Green
    else Cyan
  }

  lemma ColorsDistinct()
    ensures Red != Yellow && Red != Green && Red != Cyan
    ensures Yellow != Green && Yellow != Cyan && Green != Cyan
  {
    assert Red[3] == '1' && Yellow[3] == '3' && Green[3] == '2' && Cyan[3] == '6';
  }

  const Active: string := Green + "\U{25CF} active" + Reset
  const Partial: string := Yellow + "\U{25D0} partial" + Reset
  const Idle: string := Cyan + "\U{25CB} idle" + Reset

  /** statusIcon: active from 80, partial from 10, idle below. */
  function StatusIcon(utilization: real): (s: string)
    ensures s == Active <==> utilization >= 80.0
    ensures s == Partial <==> 10.0 <= utilization < 80.0
    ensures s == Idle <==> utilization < 10.0
  {
    ColorsDistinct();
    assert Active[|Green|] != Partial[|Yellow|] && Active[|Green|] != Idle[|Cyan|];
    assert Partial[|Yellow|] != Idle[|Cyan|];
    if utilization >= 80.0 then Active
    else if utilization >= 10.0 then Partial
    else Idle
  }

  /** plural: no suffix for exactly one, "s" for any other count. */
  function Plural(n: int): (r: string)
    ensures r == "" <==> n == 1
    ensures r == "s" <==> n != 1
  {
    if n == 1 then "" else "s"
  }

  /** The error note displaySummary appends after the host count: present
      only when some host failed, and then naming the count with the right
      plural. */
  function ErrorNote(errorHosts: int): (r: string)
    ensures r == "" <==> errorHosts <= 0
    ensures errorHosts > 0 ==>
              |r| >= 2 && r[..2] == " (" && (r[|r| - 2..] == "s)" <==> errorHosts != 1)
  {
    if errorHosts > 0 then
      var r := " (" + Red + FormatInt(errorHosts) + " error" + Reset + Plural(errorHosts) + ")";
      assert r[..2] == " (";
      assert r[|r| - 2] == (if errorHosts == 1 then Reset[|Reset| - 1] else 's');
      r
    else ""
  }

  /** The count in the error note reads back as the number of errored hosts. */
  lemma ErrorNoteCount(errorHosts: int)
    requires 0 < errorHosts <= IntMax
    ensures var start := |" (" + Red|;
            var end := start + |FormatInt(errorHosts)|;
            end <= |ErrorNote(errorHosts)| && Atoi(ErrorNote(errorHosts)[start..end]) == Ok(errorHosts)
  {
    var r := ErrorNote(errorHosts);
    var start := |" (" + Red|;
    assert r[start..start + |FormatInt(errorHosts)|] == FormatInt(errorHosts);
    AtoiFormatInt(errorHosts);
  }

  // ---------------------------------------------------------------------
  // Host order: byte-wise string order and sort.Strings
  // ---------------------------------------------------------------------

  /** Go's string comparison: byte by byte, a proper prefix first. */
  predicate LexLess(a: string, b: string)
    decreases |a|
  {
    if a == [] then b != []
    else b != [] && (a[0] < b[0] || (a[0] == b[0] && LexLess(a[1..], b[1..])))
  }

  lemma {:induction false} LexIrreflexive(a: string)
    ensures !LexLess(a, a)
    decreases |a|
  {
    if a != [] {
      LexIrreflexive(a[1..]);
    }
  }

  lemma {:induction false} LexTransitive(a: string, b: string, c: string)
    requires LexLess(a, b) && LexLess(b, c)
    ensures LexLess(a, c)
    decreases |a|
  {
    if a != [] && a[0] == b[0] && b[0] == c[0] {
      LexTransitive(a[1..], b[1..], c[1..]);
    }
  }

  lemma {:induction false} LexTotal(a: string, b: string)
    requires a != b
    ensures LexLess(a, b) || LexLess(b, a)
    decreases |a|
  {
    if a != [] && b != [] && a[0] == b[0] {
      assert a == [a[0]] + a[1..] && b == [b[0]] + b[1..];
      LexTotal(a[1..], b[1..]);
    }
  }

  predicate StrictlySorted(s: seq<string>)
  {
    forall i, j :: 0 <= i < j < |s| ==> LexLess(s[i], s[j])
  }

  predicate Distinct(s: seq<string>)
  {
    forall i, j :: 0 <= i < j < |s| ==> s[i] != s[j]
  }

  /** x placed before the first element not below it. */
  function Insert(x: string, s: seq<string>): (r: seq<string>)
    ensures |r| == |s| + 1
    ensures multiset(r) == multiset(s) + multiset{x}
  {
    if s == [] then [x]
    else if !LexLess(s[0], x) then [x] + s
    else
      assert s == [s[0]] + s[1..];
      [s[0]] + Insert(x, s[1..])
  }

  /** sort.Strings, as an insertion sort: a permutation of its input. */
  function Sort(s: seq<string>): (r: seq<string>)
    ensures |r| == |s|
    ensures multiset(r) == multiset(s)
  {
    if s == [] then []
    else
      assert s == [s[0]] + s[1..];
      Insert(s[0], Sort(s[1..]))
  }

  lemma {:induction false} InsertStrict(x: string, s: seq<string>)
    requires StrictlySorted(s) && x !in s
    ensures StrictlySorted(Insert(x, s))
    ensures forall y :: y in Insert(x, s) <==> y == x || y in s
  {
    var r := Insert(x, s);
    assert forall y :: y in r <==> y in multiset(r);
    assert forall y :: y in s <==> y in multiset(s);
    if s == [] {
    } else if !LexLess(s[0], x) {
      LexTotal(x, s[0]);
      forall j | 0 < j < |r|
        ensures LexLess(x, r[j])
      {
        if j > 1 {
          LexTransitive(x, s[0], s[j - 1]);
        }
      }
    } else {
      var t := s[1..];
      assert StrictlySorted(t);
      InsertStrict(x, t);
      forall y | y in Insert(x, t)
        ensures LexLess(s[0], y)
      {
        if y != x {
          var j :| 0 <= j < |t| && t[j] == y;
          assert s[j + 1] == y;
        }
      }
    }
  }

  /** Sorting distinct names gives them in strictly increasing order. */
  lemma {:induction false} SortStrict(s: seq<string>)
    requires Distinct(s)
    ensures StrictlySorted(Sort(s))
    ensures forall y :: y in Sort(s) <==> y in s
  {
    assert forall y :: y in Sort(s) <==> y in multiset(Sort(s));
    assert forall y :: y in s <==> y in multiset(s);
    if s != [] {
      var t := s[1..];
      assert Distinct(t);
      SortStrict(t);
      assert s[0] !in t;
      InsertStrict(s[0], Sort(t));
    }
  }

  /** The first loop of displayHostTable: the keys of the Hosts map, each
      once, in whatever order the map yields them. */
  method HostNames(hosts: map<string, HostMetrics>) returns (names: seq<string>)
    ensures Distinct(names) && |names| == |hosts|
    ensures forall h :: h in names <==> h in hosts
  {
    names := [];
    var rest := hosts.Keys;
    while rest != {}
      invariant rest <= hosts.Keys
      invariant Distinct(names)
      invariant forall h :: h in names <==> h in hosts && h !in rest
      invariant |names| + |rest| == |hosts|
      decreases rest
    {
      var h :| h in rest;
      names := names + [h];
      rest := rest - {h};
    }
  }

  // ---------------------------------------------------------------------
  // Rows
  // ---------------------------------------------------------------------

  /** What displayHostRow prints for a host: a dash row carrying the error,
      or the chip count, chip type, utilisation with its colour, memory and
      status label. */
  datatype Row =
    | ErrorRow(host: string, error: string)
    | MetricsRow(host: string, chipCount: int, chipType: string, utilization: real,
                 color: string, memUsed: real, memTotal: real, status: string)

  /** The row of a host. An errored host's row carries only its error: no
      utilisation or memory is computed for it. Otherwise the row shows the
      host's mean duty cycle (zero without chips) and its memory in GB,
      coloured and labelled by the utilisation bands. */
  function HostRow(host: string, m: HostMetrics): (row: Row)
    ensures row.host == host
    ensures row.ErrorRow? <==> m.error != ""
    ensures row.ErrorRow? ==> row.error == m.error
    ensures row.MetricsRow? ==>
              && row.chipCount == m.chipCount && row.chipType == m.chipType
              && (|m.chips| == 0 ==> row.utilization == 0.0)
              && (|m.chips| > 0 ==> row.utilization == DutySum(m.chips) / |m.chips| as real)
              && row.memUsed == UsageSum(m.chips) as real / BytesPerGB
              && row.memTotal == TotalSum(m.chips) as real / BytesPerGB
    ensures row.MetricsRow? ==>
              && (row.color == Red <==> row.utilization >= 90.0)
              && (row.color == Yellow <==> 70.0 <= row.utilization < 90.0)
              && (row.color == Green <==> 40.0 <= row.utilization < 70.0)
              && (row.color == Cyan <==> row.utilization < 40.0)
              && (row.status == Active <==> row.utilization >= 80.0)
              && (row.status == Partial <==> 10.0 <= row.utilization < 80.0)
              && (row.status == Idle <==> row.utilization < 10.0)
  {
    if m.error != "" then ErrorRow(host, m.error)
    else
      var u := if |m.chips| == 0 then 0.0 else DutySum(m.chips) / |m.chips| as real;
      MetricsRow(host, m.chipCount, m.chipType, u, UtilizationColor(u),
                 UsageSum(m.chips) as real / BytesPerGB, TotalSum(m.chips) as real / BytesPerGB,
                 StatusIcon(u))
  }

  /** For chips reporting sane values, a metrics row shows a utilisation
      that is a percentage and no more memory in use than in total; a red
      row is always labelled active and a cyan row never is. */
  lemma HostRowBounded(host: string, m: HostMetrics)
    requires m.error == ""
    requires DutySane(m.chips) && MemorySane(m.chips)
    ensures var row := HostRow(host, m);
            && 0.0 <= row.utilization <= 100.0
            && 0.0 <= row.memUsed <= row.memTotal
            && (row.color == Red ==> row.status == Active)
            && (row.color == Cyan ==> row.status != Active)
  {
    if |m.chips| > 0 {
      HostAverageBounded(m.chips, DutySum(m.chips) / |m.chips| as real);
    }
    UsageWithinTotal(m.chips);
  }

  /** displayHostRow: return before any metric is computed for an errored
      host; otherwise compute them with the per-host loops. */
  method DisplayHostRow(host: string, m: HostMetrics) returns (row: Row)
    ensures row == HostRow(host, m)
  {
    if m.error != "" {
      return ErrorRow(host, m.error);
    }
    var utilization := AvgUtilization(m);
    var memUsed := MemoryUsageGB(m);
    var memTotal := TotalMemoryGB(m);
    row := MetricsRow(host, m.chipCount, m.chipType, utilization, UtilizationColor(utilization),
                      memUsed, memTotal, StatusIcon(utilization));
  }

  /** The second loop of displayHostTable: one row per name, in order. */
  method Rows(order: seq<string>, hosts: map<string, HostMetrics>) returns (rows: seq<Row>)
    requires forall j :: 0 <= j < |order| ==> order[j] in hosts
    ensures |rows| == |order|
    ensures forall j :: 0 <= j < |order| ==> rows[j].host == order[j]
    ensures forall j :: 0 <= j < |order| ==> rows[j] == HostRow(order[j], hosts[order[j]])
  {
    rows := [];
    var i := 0;
    while i < |order|
      invariant 0 <= i <= |order|
      invariant |rows| == i
      invariant forall j :: 0 <= j < i ==> rows[j].host == order[j]
      invariant forall j :: 0 <= j < i ==> rows[j] == HostRow(order[j], hosts[order[j]])
    {
      var row := DisplayHostRow(order[i], hosts[order[i]]);
      rows := rows + [row];
      i := i + 1;
    }
  }

  /** displayHostTable: one row per host, in ascending byte-wise order of
      host name, each row computed from that host's recorded metrics. */
  method DisplayHostTable(m: ClusterTPUMetrics) returns (rows: seq<Row>)
    ensures |rows| == |m.hosts|
    ensures forall i, j :: 0 <= i < j < |rows| ==> LexLess(rows[i].host, rows[j].host)
    ensures forall h :: h in m.hosts <==> exists i :: 0 <= i < |rows| && rows[i].host == h
    ensures forall i :: 0 <= i < |rows| ==>
              rows[i].host in m.hosts && rows[i] == HostRow(rows[i].host, m.hosts[rows[i].host])
  {
    var hosts := m.hosts;
    var names := HostNames(hosts);
    var order := Sort(names);
    SortStrict(names);
    rows := Rows(order, hosts);
    RowsCoverHosts(hosts, order, rows);
  }

  /** One row per name of a strictly sorted list of exactly the hosts:
      the rows are in strict order and name every host once. */
  lemma RowsCoverHosts(hosts: map<string, HostMetrics>, order: seq<string>, rows: seq<Row>)
    requires StrictlySorted(order) && |order| == |hosts|
    requires forall h :: h in order <==> h in hosts
    requires |rows| == |order|
    requires forall j :: 0 <= j < |order| ==> rows[j].host == order[j]
    requires forall j :: 0 <= j < |order| ==> rows[j] == HostRow(order[j], hosts[order[j]])
    ensures forall i, j :: 0 <= i < j < |rows| ==> LexLess(rows[i].host, rows[j].host)
    ensures forall h :: h in hosts <==> exists i :: 0 <= i < |rows| && rows[i].host == h
    ensures forall i :: 0 <= i < |rows| ==>
              rows[i].host in hosts && rows[i] == HostRow(rows[i].host, hosts[rows[i].host])
  {
    forall h | h in hosts
      ensures exists i :: 0 <= i < |rows| && rows[i].host == h
    {
      var i :| 0 <= i < |order| && order[i] == h;
      assert rows[i].host == h;
    }
  }
}
