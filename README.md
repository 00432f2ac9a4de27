# Mesh: a Dafny model of the fan-out core

Mesh runs one job on every host of a cluster over SSH. It ships the local
workspace as a tar stream, launches the job detached, follows the log of
host 0 with a per-host prefix, and tears everything down afterwards. This
project models the deterministic logic around that fan-out, one Dafny
module per Go file, and proves what that logic promises:

- `Output` (internal/ui/output.go): the prefixing writer that attributes
  output lines to a host.
- `Workspace`, `PrerunCopy`, `BuildCopy` (internal/prerun/copy.go,
  internal/build/copy.go): the ignore test, the pruning walk and the
  archive entry stream. There are two versions: the current one, which
  matches root-relative paths and fails fast, and the older one, which
  matches absolute paths and skips failures. `Workspace` holds the walk both
  files hand to `filepath.WalkDir`, and `shouldIgnore`, which is textually
  the same in both files.
- `Parse` (internal/parse/cluster.go): the cluster validation pass.
- `Tpu`, `Display`, `TpuInfo` (internal/watch/tpu.go,
  internal/watch/display.go, internal/cli/watch.go): the metrics
  aggregator, the table classifiers and host order, and the parser of the
  probe script's output. `Strconv` and `Strings` hold the pieces of
  `strconv` and `strings` that these use.
- `Ssh` (internal/ssh/client.go): the dialled address, the remote command
  strings, and which result each session helper returns.
- `PrerunSetup`, `CliSetup`, `Run` (internal/prerun/setup.go,
  internal/cli/setup.go, internal/cli/run.go): the early exits and failure
  counting of the fan-out, the ordered per-host command loop, and the
  run-then-cleanup pipeline.
- `Paths` (internal/config/paths.go): the configuration directory layout.

Effects become parameters:
- The file system is a tree value (`Workspace.Node`), plus an `Io` record of
  stat, open and write outcomes.
- The network is an `Ssh.Net` record.
- The outcome of each remote command is an oracle indexed by host and step.
- Which of "command finished" and "context cancelled" happens first is a
  `Timing` value.

Hosts run concurrently in the source, but no result depends on their order
(the failure counter sits behind a mutex). Each fan-out is therefore a
sequential loop over the host list that visits every host exactly once.

The prefixing writer keeps no state between writes. An incomplete trailing
line is not held back for the next write: it is emitted at once, followed
by a newline (`Output.PrefixWriter.Write`, `Output.PiecesJoin`).

Some call sites do not match their callees:
- internal/cli/run.go calls `prerun.ParseConfigs` and `prerun.RunOnAllHosts`,
  which neither internal/prerun/copy.go nor internal/prerun/setup.go defines.
- It calls `ExecDetached`, `SendTar` and `Tail` with argument lists that
  internal/ssh/client.go does not have.
- internal/cli/setup.go passes a file name to `parse.Mesh`, which takes
  none.

Each file is therefore modelled on its own terms.
- `Run` records each remote step as a call with the arguments run.go
  passes, and takes the step's outcome as a parameter.
- Configuration loading is an input `Result`.
- `prerun.RunOnAllHosts` is not part of this model. The run pass is a loop
  that hands each host its list index as its host id.

## Model

| member | source | states |
|---|---|---|
| Output.JoinSplit | internal/ui/output.go:33 | Joining the pieces of `strings.Split(p, "\n")` with "\n" gives `p` back. |
| Output.SplitCount | internal/ui/output.go:33 | Splitting on "\n" yields one more piece than there are newlines. |
| Output.SplitLastEmpty | internal/ui/output.go:33-35 | The last piece is empty exactly when the input is empty or ends with a newline. |
| Output.SplitJoin | internal/ui/output.go:33 | Splitting newline-free pieces joined with "\n" gives the pieces back. |
| Output.Pieces | internal/ui/output.go:33-37 | The lines Write emits are the split pieces in input order, minus at most one final piece, and only an empty one. |
| Output.PiecesCount | internal/ui/output.go:33-37 | The number of emitted lines is the number of newlines, plus one if `p` is non-empty and does not end in a newline. Empty input emits nothing. |
| Output.PiecesJoin | internal/ui/output.go:33-43 | The emitted bodies joined with "\n" give `p` back, less its final newline if it has one. A trailing fragment is emitted, not held back. |
| Output.PiecesNewlineFree | internal/ui/output.go:33-37 | No emitted body contains a newline. Interior empty pieces are kept. |
| Output.Sink.Fprint | internal/ui/output.go:39-41 | A write to the destination appends one entry to its log, or fails and leaves the log unchanged. |
| Output.PrefixWriter.constructor | internal/ui/output.go:24-30 | The writer keeps its prefix, destination and host id as given. |
| Output.PrefixWriter.Write | internal/ui/output.go:32-45 | Non-zero host id: nothing is written and `len(p)` is reported. Host 0: each piece goes out as prefix + body + Reset + "\n", in order, and `len(p)` is reported. If the destination fails part way, exactly the lines before the failure were written and the result is `(0, err)`. |
| Workspace.Rel | internal/prerun/copy.go:42 | A path under the root has a relative path, and root joined with it is the path again. |
| Workspace.ShouldIgnore | internal/prerun/copy.go:14-25 | True iff some pattern matches the path. Malformed patterns are skipped, not fatal. The function in internal/build/copy.go:14-25 is identical. |
| Workspace.CollectFiles | internal/prerun/copy.go:37-55 | The walk callback's appends leave exactly the walk's collected files after the ones already held, and report whether the walk finished without error. |
| Workspace.WalkSound | internal/prerun/copy.go:43-52 | Every collected path is a non-directory, is not ignored, and has no ignored ancestor directory. |
| Workspace.WalkComplete | internal/prerun/copy.go:43-52 | A walk without error collects every such file. |
| Workspace.VisibleUnpruned | internal/prerun/copy.go:43-48 | A visible file lies under the walk root, and no prefix of it from the root down is ignored. |
| Workspace.PrunedCollectsNothing | internal/prerun/copy.go:43-46 | Nothing below an ignored directory is collected. |
| Workspace.WalkErrorPrefix | internal/prerun/copy.go:37-40 | A walk that stops at an unreadable directory returns a prefix of the full walk's files, not an error. A walk without error returns the full list. |
| Workspace.RepairedWalksClean | internal/prerun/copy.go:37-40 | Walk errors come only from unreadable directories. |
| PrerunCopy.GetFilesToSend | internal/prerun/copy.go:27-63 | getFilesToSend returns nothing when the working directory cannot be resolved, and otherwise the walk's collected files, even when the walk stopped early. |
| PrerunCopy.FilesNotIgnored | internal/prerun/copy.go:42-52 | Every file sent lies under the root. Neither its root-relative path nor that of any directory above it matches a pattern. |
| PrerunCopy.FilesComplete | internal/prerun/copy.go:37-55 | With no walk error, a file is sent exactly when it is visible under the root-relative ignore test. |
| PrerunCopy.WriteToTar | internal/prerun/copy.go:65-90 | Succeeds iff the open, the header construction, the header write and (for a non-directory) the content copy all succeed. The entry's kind comes from the FileInfo. Its size is the file's size for a regular file and 0 for anything else, as `tar.FileInfoHeader` sets it. Its mode is the header mode derived from the FileInfo, and its name is the root-relative path. Content is copied only for non-directories. |
| PrerunCopy.HeaderMode | internal/prerun/copy.go:75 | The header mode of `tar.FileInfoHeader`: the nine permission bits of the os.FileMode, with setuid, setgid and sticky moved to 0o4000, 0o2000 and 0o1000. It is below 0o10000, so no type bit survives. |
| PrerunCopy.HeaderModeDropsDirBit | internal/prerun/copy.go:75 | Setting the directory type bit in a FileMode does not change the header mode. |
| PrerunCopy.StreamEntries | internal/prerun/copy.go:103-118 | Files are written in list order. The stream ends cleanly iff every file's stat and write succeed. Otherwise the first failure closes it with that error, and the entries are exactly those of the files before it (plus the failing file's header if it got out). |
| PrerunCopy.EntryNamedRelative | internal/prerun/copy.go:72-79 | The entry of a sent file is named by the file's root-relative path, which no pattern matches. |
| PrerunCopy.BuildTar | internal/prerun/copy.go:92-121 | No stream when the job file cannot be parsed. Otherwise the stream of the sent files keeps every promise of the producer loop. It ends cleanly iff every file's stat and write succeed, and then holds one entry per file. Entry j is file j's header. A failed stream carries the first failure's error after exactly the entries of the files before it, plus that file's header if it got out. Every entry is named by the root-relative path of the file at its position, which no pattern matches. |
| BuildCopy.GetFilesToSend | internal/build/copy.go:53-88 | The older getFilesToSend: nothing when the root cannot be resolved, otherwise the walk's files, even when the walk stopped early. |
| BuildCopy.FilesNotIgnored | internal/build/copy.go:63-77 | Every file sent lies under the root. Neither its absolute path nor that of any directory on the way down from the root matches a pattern. |
| BuildCopy.FilesComplete | internal/build/copy.go:63-80 | With no walk error, a file is sent exactly when it is visible under the absolute-path ignore test. |
| BuildCopy.WriteToTar | internal/build/copy.go:27-51 | Every error is dropped, and the header and copy go to the writer the files share. The header is written iff the writer has not failed, owes the previous entry nothing, and the write succeeds. It carries the root-relative name, the directory flag, the reported size and the whole os.FileMode (`int64(fi.Mode())`). A failed writer writes nothing more. Copied bytes come only from this file, and only if it opened. A file that cannot be opened leaves its entry owed its whole size. When the header is accepted and the file opens and is written, the result is its header then all of its bytes, and the writer is settled. |
| BuildCopy.MakeTarStream | internal/build/copy.go:90-103 | The loop writes exactly the blocks of the specification stream, threading one writer through the files in list order. The trailer is written iff the writer has not failed and owes nothing. The output is framed, and a written trailer means the last entry is complete. |
| BuildCopy.StreamFramed | internal/build/copy.go:90-101 | Whatever the outcomes, the archive is framed: a header only follows a complete entry, no entry gets more bytes than its header declares, and the bytes the writer still owes are what the last entry lacks. |
| BuildCopy.StreamAppend | internal/build/copy.go:94-101 | The stream of a concatenation is the stream of the first list followed by that of the second, started from the writer state the first left. Files are not independent of the ones before them. |
| BuildCopy.BrokenStaysBroken | internal/build/copy.go:94-101 | Once a write to mesh.tar fails, the writer keeps the error and nothing more is written for any file. |
| BuildCopy.StatFailureSkipped | internal/build/copy.go:96-99 | A file whose stat fails leaves the writer alone. From any writer state, the stream equals that of the list without it. |
| BuildCopy.StreamComplete | internal/build/copy.go:90-101 | When every stat, open and write succeeds, the archive is each file's header followed by all of its bytes, in list order, and the writer is settled, so the trailer is written. |
| BuildCopy.StreamFromFiles | internal/build/copy.go:94-101 | Every header is the one writeToTar builds for some listed file whose stat succeeded. Every data block comes from a listed file that opened. |
| BuildCopy.UnopenedFileAbsorbsNext | internal/build/copy.go:27-51 | A regular file that cannot be opened still gets its header. The entry then waits for bytes that never come. The next file's header is refused ("missed writing"), and that file's content fills the earlier entry instead: no entry for it, and it is owed the rest. |
| BuildCopy.BuildTarAsWritten | internal/build/copy.go:105-121 | As written, a parse failure is reported and then the nil configuration is dereferenced, so it panics. An uncreatable mesh.tar leaves no archive at all. Otherwise mesh.tar holds the stream of the selected files, with or without the trailer. |
| BuildCopy.BuildTar | internal/build/copy.go:105-121 | With the early return: never panics. No archive is written exactly when the job file fails to parse or mesh.tar cannot be created. Otherwise mesh.tar holds the stream of the selected files, framed, and a trailer only after a complete last entry. |
| Parse.ValidateClusters | internal/parse/cluster.go:38-63 | A cluster is kept iff it has a host and every host is an IP literal, so host names are rejected. Kept clusters are unchanged and nothing is added. The name list holds each surviving cluster once. |
| Parse.Clusters | internal/parse/cluster.go:22-66 | A load failure is returned with no map. Otherwise the validated map. |
| Tpu.MemoryUsageGB | internal/watch/tpu.go:23-29 | The chips' bytes in use, summed, over 10^9. |
| Tpu.TotalMemoryGB | internal/watch/tpu.go:32-38 | The chips' total bytes, summed, over 10^9. |
| Tpu.AvgUtilization | internal/watch/tpu.go:41-50 | 0 for a host without chips, otherwise the mean duty cycle. |
| Tpu.UsageWithinTotal | internal/watch/tpu.go:23-38 | When no chip uses more than it has, a host's usage lies between 0 and its total. |
| Tpu.DutySumBounded | internal/watch/tpu.go:45-49 | Duty cycles in [0, 100] sum to at most 100 per chip. |
| Tpu.HostAverageBounded | internal/watch/tpu.go:41-50 | A host's average duty cycle lies in [0, 100]. |
| Tpu.AddedOne | internal/watch/tpu.go:71-87 | One more host bumps exactly one of the active and error counts. Only a host without error adds its chip count, memory and duty cycles. The host is always recorded. |
| Tpu.CountsCoverCalls | internal/watch/tpu.go:74-79 | Active plus errored hosts equals the number of AddHost calls. |
| Tpu.HostMapKeys | internal/watch/tpu.go:72 | The recorded hosts are exactly the hosts added, errored or not. |
| Tpu.DistinctHostsAllKept | internal/watch/tpu.go:72 | With distinct host names, one entry is recorded per call. |
| Tpu.ClusterUsageWithinTotal | internal/watch/tpu.go:81-82 | Cluster memory in use lies between 0 and the cluster total. |
| Tpu.DutyTotalBounded | internal/watch/tpu.go:80-86 | The summed duty cycles are at most 100 per reported chip, when each host reports its chips. |
| Tpu.SumDuty | internal/watch/tpu.go:84-86 | The loop adds each chip's duty cycle to the running sum. |
| Tpu.FinalAverageBounded | internal/watch/tpu.go:90-94 | The finalized cluster average lies in [0, 100]. |
| Tpu.ClusterTPUMetrics.constructor | internal/watch/tpu.go:64-68 | A fresh aggregator has no hosts and every counter at zero. |
| Tpu.ClusterTPUMetrics.AddHost | internal/watch/tpu.go:71-87 | The host is recorded. An errored host only bumps the error count. Otherwise it bumps the active count and adds its reported chip count (not the number of chips listed), its memory and its duty cycles. |
| Tpu.ClusterTPUMetrics.Finalize | internal/watch/tpu.go:90-94 | With chips, the average becomes the duty sum over the chip count. Without chips it is left alone. Nothing else changes. |
| Tpu.ClusterTPUMetrics.MemoryUtilizationPct | internal/watch/tpu.go:97-102 | 0 when the total is 0, otherwise 100 × used / total, which lies in [0, 100] when used ≤ total. |
| Tpu.ClusterTPUMetrics.TotalHosts | internal/watch/tpu.go:105-107 | len(Hosts): the number of distinct hosts added. It equals active + errored hosts when names are distinct. |
| Display.UtilizationColor | internal/watch/display.go:99-110 | Red iff ≥ 90, yellow iff in [70, 90), green iff in [40, 70), cyan iff < 40. |
| Display.ColorsDistinct | internal/ui/output.go:11-14 | The four colour codes differ, so the bands can be told apart. |
| Display.StatusIcon | internal/watch/display.go:112-121 | "active" iff ≥ 80, "partial" iff in [10, 80), "idle" iff < 10. |
| Display.Plural | internal/watch/display.go:123-128 | "" exactly when n = 1, "s" otherwise. |
| Display.ErrorNote | internal/watch/display.go:43-46 | The error suffix of the summary is present only when some host errored. It ends in "s)" exactly when the count is not 1. |
| Display.ErrorNoteCount | internal/watch/display.go:43-46 | The number in the error suffix reads back as the error count. |
| Display.LexIrreflexive | internal/watch/display.go:61 | The byte-wise string order that sort.Strings uses is irreflexive. |
| Display.LexTransitive | internal/watch/display.go:61 | That order is transitive. |
| Display.LexTotal | internal/watch/display.go:61 | That order is total on distinct strings. |
| Display.Insert | internal/watch/display.go:61 | Insertion keeps the elements: a permutation of the input plus the new one. |
| Display.Sort | internal/watch/display.go:61 | Sorting is a permutation of its input. |
| Display.InsertStrict | internal/watch/display.go:61 | Inserting a new name into a strictly sorted list keeps it strictly sorted. |
| Display.SortStrict | internal/watch/display.go:56-61 | Distinct names come out strictly ascending, each exactly once. |
| Display.HostNames | internal/watch/display.go:57-60 | The key loop lists each recorded host exactly once. |
| Display.HostRow | internal/watch/display.go:70-97 | An errored host gets a dash row carrying its error, with no metric computed. Any other host gets its chip count and type, the mean duty cycle of its chips (0 without chips), and the memory used and in total in GB. The colour is red, yellow, green or cyan exactly in the bands from 90, 70 to 90, 40 to 70 and below 40. The status is active, partial or idle exactly from 80, 10 to 80 and below 10. |
| Display.HostRowBounded | internal/watch/display.go:82-96 | For chips with duty cycles in [0,100] and usage within total, a row's utilisation is in [0,100] and its memory used is between 0 and its total. A red row is labelled active, and a cyan row never is. |
| Display.DisplayHostRow | internal/watch/display.go:70-97 | displayHostRow returns before computing metrics for an errored host and produces the row above. |
| Display.Rows | internal/watch/display.go:63-67 | One row per name, in the given order. |
| Display.DisplayHostTable | internal/watch/display.go:50-68 | Rows appear in strictly ascending byte-wise host order, one per recorded host, each computed from that host's metrics. |
| Strconv.FormatInt | internal/watch/display.go:44 | `%d` prints a leading "-" exactly for negative numbers. |
| Strconv.Atoi | internal/cli/watch.go:133 | The empty string is a syntax error, and every parsed value lies in the 64-bit range. |
| Strconv.AtoiFormatInt | internal/cli/watch.go:133 | Atoi reads back what `%d` prints, for every 64-bit int. |
| Strconv.FormatIntInjective | internal/watch/display.go:44 | Distinct ints print differently. |
| Strings.ScanFields | internal/cli/watch.go:126 | strings.Fields yields only non-empty fields without whitespace. |
| Strings.FieldsJoinSpace | internal/cli/watch.go:126 | Splitting space-joined fields gives the fields back. |
| Strings.TrimSpaceField | internal/cli/watch.go:133 | Trimming a field changes nothing. |
| TpuInfo.GetInfo | internal/cli/watch.go:100-142 | A connect or remote-command failure is returned and nothing is parsed. Anything but exactly four fields is invalid output. The chip type is fields 1 and 2 joined by one space. The count is field 4 read as a decimal, and its parse error is returned. |
| TpuInfo.ThirdFieldIgnored | internal/cli/watch.go:131-141 | The third field never influences the result. |
| TpuInfo.GetInfoReadsReport | internal/cli/watch.go:126-141 | A well-formed four-field report reads back as its chip type and count. |
| Ssh.Address | internal/ssh/client.go:38 | The dialled address is the host followed by ":22". |
| Ssh.HostOf | internal/ssh/client.go:38 | An address names a host exactly when it ends in ":22". |
| Ssh.HostOfAddress | internal/ssh/client.go:38-44 | The host is recovered from the address Connect dials. |
| Ssh.Connect | internal/ssh/client.go:18-51 | Nothing is dialled unless the key file is read and parsed, and those failures are reported as such. The only address dialled is host:22. Connect succeeds iff the key, the dial and the handshake all succeed. |
| Ssh.DetachedCommand | internal/ssh/client.go:96 | The wrapper adds exactly the fixed prefix and suffix around the command. |
| Ssh.DetachedRoundTrip | internal/ssh/client.go:96 | The wrapped string is "setsid " + command + " > /dev/null 2>&1 < /dev/null &", and the command is recovered from it. |
| Ssh.SendTarCommand | internal/ssh/client.go:123 | The command is three copies of the path plus 25 fixed characters. |
| Ssh.SendTarSamePath | internal/ssh/client.go:123 | "cat > P && cd P && tar -xf P" holds the same path in all three places. |
| Ssh.TailCommand | internal/ssh/client.go:166 | The tail command is "tail -f " followed by the path. |
| Ssh.TailCommandInjective | internal/ssh/client.go:166 | Different paths give different tail commands. |
| Ssh.Exec | internal/ssh/client.go:58-86 | A session failure runs nothing. If the command finishes first, its own result is returned. On cancellation SIGTERM is sent and the cancellation is returned. |
| Ssh.CancelIgnoresCommand | internal/ssh/client.go:78-84 | Once cancellation wins, neither the command's result nor its finishing inside the grace wait changes what is returned. |
| Ssh.SendTar | internal/ssh/client.go:112-137 | SendTar runs the unpack command and returns the cancellation exactly when it wins. |
| Ssh.Tail | internal/ssh/client.go:155-181 | Tail runs "tail -f P" and returns the cancellation exactly when it wins. |
| Ssh.ExecDetached | internal/ssh/client.go:89-109 | Runs the wrapped command. It returns the cancellation when that wins, and never signals the remote process. |
| Ssh.RunCommandAndGetOutput | internal/ssh/client.go:139-152 | Any failure gives "" and an error. Otherwise the whole combined output. |
| PrerunSetup.NoFailures | internal/prerun/setup.go:86-91 | No failure is counted exactly when every host's function succeeded. |
| PrerunSetup.FailuresAtMostHosts | internal/prerun/setup.go:61-83 | At most one failure per host. All hosts count as failures exactly when all failed. |
| PrerunSetup.FanOut | internal/prerun/setup.go:61-84 | The function runs once per host, whatever the others returned, and the count is the number of hosts that failed. |
| PrerunSetup.RunPreRunSSH | internal/prerun/setup.go:24-92 | A cluster-file error, an unknown cluster or a job-file error is returned before any host is contacted. No commands returns nil with no host contacted. Otherwise every host is contacted once, and the result is an error iff some host failed, carrying their number. |
| CliSetup.FirstFailure | internal/cli/setup.go:115-119 | The index of the first command that fails. Every command before it succeeds. |
| CliSetup.HostFailsIff | internal/cli/setup.go:108-122 | setupHost fails iff the connection fails or some command fails. |
| CliSetup.SetupHost | internal/cli/setup.go:108-122 | A failed connection runs no command. Otherwise commands run in order up to and including the first failure, which the error names. Nil iff the connection and every command succeed. |
| CliSetup.RunSetup | internal/cli/setup.go:40-106 | The same early exits as the prerun fan-out. Then setupHost once per host, with the result an error iff some host failed, carrying the count. |
| Run.JobCommandFields | internal/cli/run.go:37 | The job command is the arguments after the cluster name joined by single spaces, so splitting it gives them back. |
| Run.ExitCode | internal/cli/run.go:39-43 | The exit code is 1 iff run returned an error, and 0 otherwise. |
| Run.HostLabel | internal/cli/run.go:57-62 | "host" exactly for one host, "hosts" otherwise. |
| Run.CallsMade | internal/cli/run.go:103-133 | All five steps are reached iff the connection, the prepare, the send and the launch all succeed. |
| Run.CopyPrerun | internal/cli/run.go:122-126 | The launch receives an element-for-element, in-order copy of the prerun list. |
| Run.RunHost | internal/cli/run.go:100-145 | Steps run in the order connect, "mkdir -p job && rm -rf job/*", send archive, detached launch, tail. The first failure returns its error and skips every later step. A tail failure counts as success once the run is cancelled. |
| Run.RunCleanupHost | internal/cli/run.go:85-96 | Only a connection failure is an error. After connecting, "pkill -9 python && rm -rf job" is sent and its result ignored. |
| Run.RunPass | internal/cli/run.go:65-68 | runHost once per host, with its index as host id. The count is the number of failing hosts. |
| Run.CleanupPass | internal/cli/run.go:73-76 | runCleanupHost once per host. The count is the number of unreachable hosts. |
| Run.RunJob | internal/cli/run.go:52-84 | A configuration error is returned before any host is contacted. Cleanup runs only after a run pass with zero failures. run returns nil iff both passes report zero failures. |
| Run.RunSucceedsIff | internal/cli/run.go:65-83 | run succeeds iff every host completes its run and is reachable for cleanup. |
| Paths.ConfigDir | internal/config/paths.go:9-23 | Elsewhere than Windows: ~/.config/mesh, and a panic when the home directory is unknown. On Windows: UserConfigDir/mesh, or failing that $APPDATA/mesh/mesh. The result always ends in "mesh". |
| Paths.DerivedUnderConfig | internal/config/paths.go:25-39 | The cache, jobs and logs directories and the config file exist exactly when configDir does not panic. The cache and jobs directories and the config file lie strictly below the config directory, and so does the logs directory of a job id that is a single path component. |
| Paths.LogsUnderJobs | internal/config/paths.go:29-35 | For a job id that is a single path component (non-empty, not "." or "..", no separator), the logs directory is JobsDir/<id>/logs. |
| Paths.LogsDirInjective | internal/config/paths.go:33-35 | Distinct single-component job ids have distinct logs directories. |
| Paths.ConfigFileOutsideCache | internal/config/paths.go:25-39 | The config file is neither the cache directory nor inside it. |
| Paths.WindowsFallbackNestsTwice | internal/config/paths.go:10-16 | On the Windows fallback, "mesh" is appended twice below $APPDATA. |

## Left out

- Concurrency: goroutines, channels, `select`, the two-second grace timer, the WaitGroup, the mutex, signal handling and the `io.Pipe` producer. Only their outcomes are modelled, as sequential loops and the `Timing` and `cancelled` parameters.
- SSH transport: key parsing, dialling, the handshake, sessions and `Close`. These are opaque steps that succeed or fail (`Ssh.Net`, session errors).
- Tar byte layout and header fields other than name, kind, size and mode. `ModTime`, the type flag, and the link, owner and device fields that `tar.FileInfoHeader` fills are not modelled.
- BuildCopy.WriteToTar: a file that opens yields exactly its stat size. A file that changes between stat and read, and a read error part-way through `io.Copy`, are not modelled. A header refused because the tar format cannot encode it, which leaves the writer usable, is not told apart from a failed write, which breaks it. The padding and trailer writes are taken to succeed.
- PrerunCopy.StreamEntries: each file's outcome is an independent input, and the writer's state is not threaded through. Under the assumption above this loses nothing: any failure ends the loop, so the next header is only written after a complete entry.
- BuildCopy.WriteToTar: the name of a path outside the root is not modelled. Go's `filepath.Rel` gives a "../" path there, and copy.go:39-41 falls back to the path only when Rel fails. The walk only produces paths under the root.
- The FileInfo's `isDir` and `regular` flags and its FileMode are independent inputs; that the mode's type bits agree with them is not stated.
- Paths.DerivedUnderConfig, Paths.LogsUnderJobs, Paths.LogsDirInjective: the logs-directory claims hold only for job ids that are one path component. For other ids `filepath.Join` cleans the path, for example "a/" gives the same directory as "a", and ".." leaves the jobs directory; that cleaning is not modelled, and no caller in the source restricts the id.
- `filepath.Match`, `filepath.Abs` and `net.ParseIP` are parameters. `filepath.Rel` is modelled only for a root that is an ancestor, and `filepath.Join` is concatenation without path cleaning.
- YAML decoding and internal/parse/mesh.go. Their outcome is an input `Result`. `config.ClusterFile` is not part of this model.
- internal/watch/executor.go: its aggregation is repeated `AddHost` followed by `Finalize`, which is modelled.
- Tpu.MemoryUsageGB: the byte sums are unbounded integers; int64 wrap-around is not modelled.
- Tpu.TotalMemoryGB: as above, no int64 wrap-around.
- Tpu.ClusterTPUMetrics.AddHost: `TotalChips` is unbounded, and the float64 sums are exact reals, without rounding or summation order.
- Tpu.ClusterTPUMetrics.Finalize: the division is exact; float64 rounding is not modelled.
- Every float64 quantity (Tpu.MemoryUsageGB, Tpu.TotalMemoryGB, Tpu.AvgUtilization, Tpu.ClusterTPUMetrics.MemoryUtilizationPct and the sums above) is an exact real; rounding is not modelled.
- `ClusterTPUMetrics.String`, `Display`, `displayHeader`, `displaySummary` (apart from the error note), `clearScreen` and the `%`-format column layout are terminal rendering and are not modelled. So are `ui.Success`, `ui.Error`, `ui.Warn`, `ui.Info`, `ui.Header`, `ui.Debug` and `ui.ErrorWrap`.
- Output.PrefixWriter.Write: a `string` holds one char per byte, so `len(p)` is the string's length. Multi-byte UTF-8 text is not modelled byte by byte.
- The embedded probe scripts, `runWatch` and the rest of internal/cli/watch.go apart from `get_info`.
- Cobra wiring, internal/cli/root.go, cmd/mesh/main.go and main.py (a training script).
- The empty `sendTar` in internal/build/copy.go has no behaviour to model.
- Run.RunHost: the prepare, send, launch and tail outcomes are parameters, because run.go calls `SendTar`, `ExecDetached` and `Tail` with signatures internal/ssh/client.go does not have. The strings those helpers would build for run.go's arguments are therefore not derived.
- Run.RunJob: `prerun.ParseConfigs` is defined by neither internal/prerun/copy.go nor internal/prerun/setup.go, so its outcome is the `configs` parameter.

## Findings

| source | as written | input that shows it | evidently intended | confidence | as-written member | corrected member |
|---|---|---|---|---|---|---|
| internal/build/copy.go:106-110 | After a parse failure of the job file, BuildTar reports the error and goes on to read `meshConfig.Ignore` from the nil configuration. | `parse.Mesh()` returns an error (for example, no mesh.yaml): `mesh = Err(_)` gives `Panicked` | Return early, as internal/prerun/copy.go:94-97 does, writing nothing. | high, not executed | BuildCopy.BuildTarAsWritten | BuildCopy.BuildTar |
