/** Where the tool keeps its files (internal/config/paths.go): the config
    directory and the cache, jobs, logs and config-file paths below it.

    Paths are component lists and filepath.Join is concatenation (path
    cleaning is not modelled). What the operating system reports is the
    parameter `Env`; configDir's panic, when no home directory is known,
    is `None`. */
module Paths {
  import opened Wrappers
  import opened Workspace

  const AppName: string := "mesh"

  /** What configDir asks the system: the platform, os.UserConfigDir,
      $APPDATA (empty when unset) and os.UserHomeDir. */
  datatype Env = Env(windows: bool, userConfigDir: Option<Path>, appData: Path, home: Option<Path>)

  predicate IsPrefix(p: Path, q: Path)
  {
    |p| <= |q| && q[..|p|] == p
  }

  /** configDir: on Windows the user config directory (or, failing that,
      $APPDATA/mesh) with "mesh" appended; elsewhere ~/.config/mesh, and a
      panic when the home directory is unknown. */
  function ConfigDir(env: Env): (dir: Option<Path>)
    ensures dir.None? <==> !env.windows && env.home.None?
    ensures dir.Some? ==> |dir.value| > 0 && dir.value[|dir.value| - 1] == AppName
    ensures !env.windows && env.home.Some? ==> dir == Some(env.home.value + [".config", AppName])
    ensures env.windows && env.userConfigDir.Some? ==> dir == Some(env.userConfigDir.value + [AppName])
    ensures env.windows && env.userConfigDir.None? ==> dir == Some(env.appData + [AppName, AppName])
  {
    if env.windows then
      match env.userConfigDir
      case Some(d) => Some(d + [AppName])
      case None =>
        var fallback := env.appData + [AppName];
        assert fallback + [AppName] == env.appData + [AppName, AppName];
        Some(fallback + [AppName])
    else if env.home.None? then None
    else Some(env.home.value + [".config", AppName])
  }

  function CacheDir(env: Env): (dir: Option<Path>)
  {
    match ConfigDir(env)
    case None => None
    case Some(c) => Some(c + ["cache"])
  }

  function JobsDir(env: Env): (dir: Option<Path>)
  {
    match CacheDir(env)
    case None => None
    case Some(c) => Some(c + ["jobs"])
  }

  function LogsDir(env: Env, jobId: string): (dir: Option<Path>)
  {
    match JobsDir(env)
    case None => None
    case Some(j) => Some(j + [jobId, "logs"])
  }

  function ConfigFile(env: Env): (file: Option<Path>)
  {
    match ConfigDir(env)
    case None => None
    case Some(c) => Some(c + ["mesh.yaml"])
  }

  /** A job id that filepath.Join keeps as a single path component: not
      empty, not "." or "..", and free of separators. Other ids are cleaned
      by Join into different paths, which this model does not compute. */
  predicate OneComponent(id: string)
  {
    id != "" && id != "." && id != ".." && '/' !in id && '\\' !in id
  }

  /** Every derived path exists exactly when configDir does not panic, and
      lies strictly below the config directory (the logs directory for a
      job id that is one path component). */
  lemma DerivedUnderConfig(env: Env, jobId: string)
    ensures CacheDir(env).Some? == JobsDir(env).Some? == LogsDir(env, jobId).Some? == ConfigFile(env).Some?
              == ConfigDir(env).Some?
    ensures ConfigDir(env).Some? ==>
              var c := ConfigDir(env).value;
              && IsPrefix(c, CacheDir(env).value) && |CacheDir(env).value| == |c| + 1
              && IsPrefix(c, JobsDir(env).value) && |JobsDir(env).value| == |c| + 2
              && (OneComponent(jobId) ==>
                    IsPrefix(c, LogsDir(env, jobId).value) && |LogsDir(env, jobId).value| == |c| + 4)
              && IsPrefix(c, ConfigFile(env).value) && |ConfigFile(env).value| == |c| + 1
  {
    if ConfigDir(env).Some? {
      var c := ConfigDir(env).value;
      assert CacheDir(env).value[..|c|] == c;
      assert JobsDir(env).value[..|c|] == c;
      assert LogsDir(env, jobId).value[..|c|] == c;
      assert ConfigFile(env).value[..|c|] == c;
    }
  }

  /** The logs directory of a single-component job id lies two levels below
      the jobs directory, in a directory named by the job. */
  lemma LogsUnderJobs(env: Env, jobId: string)
    requires ConfigDir(env).Some? && OneComponent(jobId)
    ensures var j := JobsDir(env).value;
            var l := LogsDir(env, jobId).value;
            IsPrefix(j, l) && |l| == |j| + 2 && l[|j|] == jobId && l[|j| + 1] == "logs"
  {
    var j := JobsDir(env).value;
    assert LogsDir(env, jobId).value[..|j|] == j;
  }

  /** Distinct single-component job ids log to distinct directories. */
  lemma LogsDirInjective(env: Env, a: string, b: string)
    requires ConfigDir(env).Some? && OneComponent(a) && OneComponent(b)
    requires LogsDir(env, a) == LogsDir(env, b)
    ensures a == b
  {
    LogsUnderJobs(env, a);
    LogsUnderJobs(env, b);
  }

  /** The config file is neither the cache directory nor inside it. */
  lemma ConfigFileOutsideCache(env: Env)
    requires ConfigDir(env).Some?
    ensures !IsPrefix(CacheDir(env).value, ConfigFile(env).value)
  {
    var c := ConfigDir(env).value;
    assert ConfigFile(env).value[|c|] == "mesh.yaml";
    assert CacheDir(env).value[|c|] == "cache";
  }

  /** On Windows, when the user config directory is unknown, "mesh" is
      appended twice. */
  lemma WindowsFallbackNestsTwice(env: Env)
    requires env.windows && env.userConfigDir.None?
    ensures var d := ConfigDir(env).value;
            |d| >= 2 && d[|d| - 2] == AppName && d[|d| - 1] == AppName && IsPrefix(env.appData, d)
  {
    var d := ConfigDir(env).value;
    assert d[..|env.appData|] == env.appData;
  }
}
