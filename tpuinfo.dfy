/** Reading a host's accelerator summary (get_info in internal/cli/watch.go):
    connect, run the probe script, then split its output into whitespace
    separated fields and read the chip type and count from them.

    The connection and the remote run are effects; their outcomes are the
    parameters `connect` (an error, if the connection failed) and `run` (the
    output, or the error of the remote command). The probe script itself is
    not modelled. */
module TpuInfo {
  import opened Wrappers
  import opened Strconv
  import opened Strings

  /** The result: the chip type and the number of chips. */
  datatype Info = Info(chipType: string, count: int)

  datatype InfoError =
    | ConnectFailed(cause: string)
    | CommandFailed(cause: string)
    | InvalidOutput
    | CountUnreadable(numError: NumError)

  /** get_info, from the outcomes of its two effects. */
  function GetInfo(connect: Option<string>, run: Result<string, string>): (r: Result<Info, InfoError>)
    ensures connect.Some? ==> r == Err(ConnectFailed(connect.value))
    ensures connect.None? && run.Err? ==> r == Err(CommandFailed(run.error))
    ensures connect.None? && run.Ok? ==>
              var f := Fields(run.value);
              && (|f| != 4 ==> r == Err(InvalidOutput))
              && (|f| == 4 && Atoi(f[3]).Err? ==> r == Err(CountUnreadable(Atoi(f[3]).error)))
              && (|f| == 4 && Atoi(f[3]).Ok? ==> r == Ok(Info(f[0] + " " + f[1], Atoi(f[3]).value)))
  {
    if connect.Some? then Err(ConnectFailed(connect.value))
    else if run.Err? then Err(CommandFailed(run.error))
    else
      var lines := Fields(run.value);
      if |lines| != 4 then Err(InvalidOutput)
      else
        var chipType := lines[0] + " " + lines[1];
        ScanFields(run.value, []);
        TrimSpaceField(lines[3]);
        match Atoi(TrimSpace(lines[3]))
        case Err(e) => Err(CountUnreadable(e))
        case Ok(count) => Ok(Info(chipType, count))
  }

  /** The third field never influences the result. */
  lemma ThirdFieldIgnored(a: string, b: string)
    requires |Fields(a)| == |Fields(b)| == 4
    requires Fields(a)[0] == Fields(b)[0] && Fields(a)[1] == Fields(b)[1] && Fields(a)[3] == Fields(b)[3]
    ensures GetInfo(None, Ok(a)) == GetInfo(None, Ok(b))
  {
  }

  /** A well-formed report, four fields with a decimal count last, is read
      back as the chip type from the first two and that count. */
  lemma GetInfoReadsReport(t0: string, t1: string, x: string, n: int)
    requires |t0| > 0 && |t1| > 0 && |x| > 0 && SpaceFree(t0) && SpaceFree(t1) && SpaceFree(x)
    requires IntMin <= n <= IntMax
    ensures GetInfo(None, Ok(JoinSpace([t0, t1, x, FormatInt(n)]))) == Ok(Info(t0 + " " + t1, n))
  {
    var fs := [t0, t1, x, FormatInt(n)];
    assert SpaceFree(FormatInt(n)) by {
      forall i | 0 <= i < |FormatInt(n)|
        ensures !IsSpace(FormatInt(n)[i])
      {
        if n < 0 && i > 0 {
          assert FormatInt(n)[i] == Digits(-n)[i - 1];
        } else if n >= 0 {
          assert IsDigit(FormatInt(n)[i]);
        }
      }
    }
    FieldsJoinSpace(fs);
    AtoiFormatInt(n);
  }
}
