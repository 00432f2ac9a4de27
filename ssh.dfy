/** The SSH client (internal/ssh/client.go): the address Connect dials, the
    shell commands the session helpers send, and which result each helper
    returns once its command and the caller's cancellation race.

    The transport (key parsing, dialling, the handshake, sessions) is a set
    of steps that succeed or fail; their outcomes are parameters. Which of
    "the command finished" and "the context was cancelled" the `select`
    sees first is the parameter `timing`. */
module Ssh {
  import opened Wrappers

  // ---------------------------------------------------------------------
  // Connect
  // ---------------------------------------------------------------------

  const Port: string := ":22"

  /** The address dialled for a host: always port 22. */
  function Address(host: string): (a: string)
    ensures |a| == |host| + 3 && a[..|host|] == host && a[|host|..] == Port
  {
    host + Port
  }

  /** The host an address names, when it is a port-22 address. */
  function HostOf(address: string): (h: Option<string>)
    ensures h.Some? <==> |address| >= 3 && address[|address| - 3..] == Port
  {
    if |address| >= 3 && address[|address| - 3..] == Port then Some(address[..|address| - 3]) else None
  }

  lemma HostOfAddress(host: string)
    ensures HostOf(Address(host)) == Some(host)
  {
    assert Address(host)[..|host|] == host;
  }

  /** What the environment answers Connect's steps: can the identity file be
      read, does it hold a private key, does the dial reach an address, and
      does the SSH handshake with it succeed. */
  datatype Net = Net(
    readable: string -> bool,
    parses: string -> bool,
    dials: string -> bool,
    handshakes: string -> bool)

  datatype ConnectError =
    | ReadKeyFailed(identityFile: string)
    | ParseKeyFailed(identityFile: string)
    | DialFailed(address: string)
    | HandshakeFailed(address: string)

  /** A connected client: who logged in where. */
  datatype Client = Client(user: string, address: string)

  /** The outcome of Connect and the address it dialled, if it dialled. */
  datatype Connected = Connected(client: Result<Client, ConnectError>, dialled: Option<string>)

  /** Connect: read the key, parse it, dial host:22, then shake hands. */
  function Connect(user: string, host: string, identityFile: string, net: Net): (c: Connected)
    ensures c.dialled.Some? <==> net.readable(identityFile) && net.parses(identityFile)
    ensures c.dialled.Some? ==> c.dialled.value == Address(host)
    ensures !net.readable(identityFile) ==> c.client == Err(ReadKeyFailed(identityFile))
    ensures net.readable(identityFile) && !net.parses(identityFile) ==> c.client == Err(ParseKeyFailed(identityFile))
    ensures c.client.Ok? <==>
              net.readable(identityFile) && net.parses(identityFile)
              && net.dials(Address(host)) && net.handshakes(Address(host))
    ensures c.client.Ok? ==> c.client.value == Client(user, Address(host))
  {
    if !net.readable(identityFile) then Connected(Err(ReadKeyFailed(identityFile)), None)
    else if !net.parses(identityFile) then Connected(Err(ParseKeyFailed(identityFile)), None)
    else
      var address := Address(host);
      if !net.dials(address) then Connected(Err(DialFailed(address)), Some(address))
      else if !net.handshakes(address) then Connected(Err(HandshakeFailed(address)), Some(address))
      else Connected(Ok(Client(user, address)), Some(address))
  }

  // ---------------------------------------------------------------------
  // Remote command strings
  // ---------------------------------------------------------------------

  const DetachPrefix: string := "setsid "
  const DetachSuffix: string := " > /dev/null 2>&1 < /dev/null &"

  /** ExecDetached's wrapper: a new session, all three streams on /dev/null,
      in the background. */
  function DetachedCommand(command: string): (w: string)
    ensures |w| == |command| + |DetachPrefix| + |DetachSuffix|
  {
    DetachPrefix + command + DetachSuffix
  }

  /** The command a detached wrapper runs. */
  function DetachedInner(w: string): (c: Option<string>)
  {
    var n := |DetachPrefix| + |DetachSuffix|;
    if |w| >= n && w[..|DetachPrefix|] == DetachPrefix && w[|w| - |DetachSuffix|..] == DetachSuffix
    then Some(w[|DetachPrefix|..|w| - |DetachSuffix|])
    else None
  }

  lemma DetachedRoundTrip(command: string)
    ensures DetachedInner(DetachedCommand(command)) == Some(command)
  {
    var w := DetachedCommand(command);
    assert w[..|DetachPrefix|] == DetachPrefix;
    assert w[|w| - |DetachSuffix|..] == DetachSuffix;
    assert w[|DetachPrefix|..|w| - |DetachSuffix|] == command;
  }

  /** SendTar's command: write stdin to the path, enter it and unpack it. */
  function SendTarCommand(remotePath: string): (s: string)
    ensures |s| == 3 * |remotePath| + 25
  {
    "cat > " + remotePath + " && cd " + remotePath + " && tar -xf " + remotePath
  }

  /** The three places the path appears in SendTar's command. */
  function SendTarPaths(s: string): (ps: Option<seq<string>>)
  {
    if |s| < 25 || (|s| - 25) % 3 != 0 then None
    else
      var n := (|s| - 25) / 3;
      Some([s[6..6 + n], s[13 + n..13 + 2 * n], s[25 + 2 * n..]])
  }

  /** The same path fills all three positions. */
  lemma SendTarSamePath(remotePath: string)
    ensures SendTarPaths(SendTarCommand(remotePath)) == Some([remotePath, remotePath, remotePath])
  {
    var s := SendTarCommand(remotePath);
    var n := |remotePath|;
    assert (|s| - 25) / 3 == n;
    assert s[6..6 + n] == remotePath;
    assert s[13 + n..13 + 2 * n] == remotePath;
    assert s[25 + 2 * n..] == remotePath;
  }

  const TailPrefix: string := "tail -f "

  /** Tail's command. */
  function TailCommand(remotePath: string): (s: string)
    ensures |s| == |remotePath| + |TailPrefix|
  {
    TailPrefix + remotePath
  }

  lemma TailCommandInjective(a: string, b: string)
    requires TailCommand(a) == TailCommand(b)
    ensures a == b
  {
    assert a == TailCommand(a)[|TailPrefix|..];
    assert b == TailCommand(b)[|TailPrefix|..];
  }

  // ---------------------------------------------------------------------
  // Which result a session helper returns
  // ---------------------------------------------------------------------

  /** What the outer `select` sees first: the command's result, or the
      cancellation; after a cancellation, whether the command still ends
      within the two-second grace wait. */
  datatype Timing = CommandFirst | CancelFirst(endsInGrace: bool)

  datatype SshError =
    | SessionFailed(cause: string)
    | CommandFailed(cause: string)
    | Cancelled

  /** A helper's observable behaviour: the command it ran (if a session was
      opened), whether it sent SIGTERM, and the error it returned. */
  datatype Outcome = Outcome(ran: Option<string>, signalled: bool, err: Option<SshError>)

  /** Exec (and SendTar and Tail around it): open a session, run the
      command, and return its own result if it arrives first; on cancellation, signal SIGTERM,
      wait for the command at most the grace period and return the
      cancellation whatever the command did. `sessionError` is the error
      NewSession returned, None when the session opened. */
  function Exec(sessionError: Option<string>, command: string, result: Option<string>, timing: Timing): (o: Outcome)
    ensures sessionError.Some? ==> o == Outcome(None, false, Some(SessionFailed(sessionError.value)))
    ensures sessionError.None? ==> o.ran == Some(command)
    ensures o.signalled <==> sessionError.None? && timing.CancelFirst?
    ensures o.err == Some(Cancelled) <==> sessionError.None? && timing.CancelFirst?
    ensures sessionError.None? && timing == CommandFirst ==>
              o.err == (match result case None => None case Some(e) => Some(CommandFailed(e)))
  {
    match sessionError
    case Some(e) => Outcome(None, false, Some(SessionFailed(e)))
    case None =>
      match timing
      case CommandFirst =>
        Outcome(Some(command), false, match result case None => None case Some(e) => Some(CommandFailed(e)))
      case CancelFirst(_) => Outcome(Some(command), true, Some(Cancelled))
  }

  /** Once cancellation wins, neither the command's result nor whether it
      ends during the grace wait changes what the helper returns. */
  lemma CancelIgnoresCommand(sessionError: Option<string>, command: string, r1: Option<string>, r2: Option<string>,
                             g1: bool, g2: bool)
    ensures Exec(sessionError, command, r1, CancelFirst(g1)) == Exec(sessionError, command, r2, CancelFirst(g2))
  {
  }

  /** SendTar: the race of Exec around the unpacking command. */
  function SendTar(sessionError: Option<string>, remotePath: string, result: Option<string>, timing: Timing): (o: Outcome)
    ensures sessionError.None? ==> o.ran == Some(SendTarCommand(remotePath))
    ensures o.err == Some(Cancelled) <==> sessionError.None? && timing.CancelFirst?
  {
    Exec(sessionError, SendTarCommand(remotePath), result, timing)
  }

  /** Tail: the race of Exec around `tail -f`. */
  function Tail(sessionError: Option<string>, remotePath: string, result: Option<string>, timing: Timing): (o: Outcome)
    ensures sessionError.None? ==> o.ran == Some(TailCommand(remotePath))
    ensures o.err == Some(Cancelled) <==> sessionError.None? && timing.CancelFirst?
  {
    Exec(sessionError, TailCommand(remotePath), result, timing)
  }

  /** ExecDetached: runs the wrapped command; a cancellation that wins is
      returned without signalling the remote process. */
  function ExecDetached(sessionError: Option<string>, command: string, result: Option<string>, timing: Timing): (o: Outcome)
    ensures sessionError.Some? ==> o == Outcome(None, false, Some(SessionFailed(sessionError.value)))
    ensures sessionError.None? ==> o.ran == Some(DetachedCommand(command))
    ensures !o.signalled
    ensures o.err == Some(Cancelled) <==> sessionError.None? && timing.CancelFirst?
    ensures sessionError.None? && timing == CommandFirst ==>
              o.err == (match result case None => None case Some(e) => Some(CommandFailed(e)))
  {
    match sessionError
    case Some(e) => Outcome(None, false, Some(SessionFailed(e)))
    case None =>
      var wrapped := DetachedCommand(command);
      match timing
      case CommandFirst =>
        Outcome(Some(wrapped), false, match result case None => None case Some(e) => Some(CommandFailed(e)))
      case CancelFirst(_) => Outcome(Some(wrapped), false, Some(Cancelled))
  }

  /** RunCommandAndGetOutput: the whole combined output, or "" with the
      session or command error. */
  function RunCommandAndGetOutput(sessionError: Option<string>, combined: Result<string, string>)
    : (r: (string, Option<SshError>))
    ensures r.1.None? <==> sessionError.None? && combined.Ok?
    ensures r.1.None? ==> r.0 == combined.value
    ensures r.1.Some? ==> r.0 == ""
    ensures sessionError.Some? ==> r.1 == Some(SessionFailed(sessionError.value))
    ensures sessionError.None? && combined.Err? ==> r.1 == Some(CommandFailed(combined.error))
  {
    if sessionError.Some? then ("", Some(SessionFailed(sessionError.value)))
    else if combined.Err? then ("", Some(CommandFailed(combined.error)))
    else (combined.value, None)
  }
}
