/**
 * Start-up validation of the manual jellyfin-spotify run: the environment
 * variables, the two status files, the fixed directories, the spotipy and
 * librespot caches, the librespot binary, and the spotify cache validator.
 *
 * The checks form one ordered list; the run stops at the first check that
 * fails and reports that check's error, and nothing later is looked at.
 * Probes of the file system and of external programs are answers of a
 * `Host`, given as input.
 */
module Startup {

  datatype Result<+T, +E> = Success(value: T) | Failure(error: E)

  /** The exception each check raises, with what it names. */
  datatype StartupError =
    | MissingEnvar(name: string)                  // KeyError from the environment lookup
    | EmptyEnvar(name: string)                    // ValueError: the variable is set to ""
    | CannotOpen(path: string)                    // OSError from opening a status file "r+"
    | MissingDirectory(path: string)
    | MissingSpotipyCache(path: string)
    | MissingLibrespotCredentials(path: string)
    | MissingLibrespotBinary(path: string)
    | LaunchFailed(argv: seq<string>)             // the binary could not be started
    | NotWritable(path: string)                   // no temporary file can be created there
    | InvalidSpotifyCache(username: string)       // raised by the cache validator

  /** Answers of the operating system and of the cache validator. */
  datatype Host = Host(
    isDir: string -> bool,
    isFile: string -> bool,
    opensReadWrite: string -> bool,
    launches: seq<string> -> bool,
    createsTempFileIn: string -> bool,
    spotifyCacheValid: string -> bool)

  const ImportDir := "/import"
  const LibraryDir := "/jellyfin"
  const LibrespotCacheDir := "/librespot_cache_dir"
  const LibrespotCredentials := "/librespot_cache_dir/credentials.json"
  const LibrespotBinary := "/usr/bin/librespot"

  /** The spotipy authentication cache of a spotify user. */
  function SpotipyCachePath(username: string): string
  {
    "/.cache-" + username
  }

  const LinksPathVar := "SPOTIFY_URIS_FILE_PATH"
  const FailedLookupsPathVar := "FAILED_JELLYFIN_LOOKUPS_PATH"
  const UsernameVar := "SPOTIFY_USERNAME"

  /** The environment variables read at start-up, in the order they are read. */
  const RequiredEnvars: seq<string> := [
    "SPOTIPY_CLIENT_ID", "SPOTIPY_CLIENT_SECRET", "SPOTIPY_REDIRECT_URI", UsernameVar,
    "JELLYFIN_USERNAME", "JELLYFIN_PASSWORD", "JELLYFIN_SERVER", "JELLYFIN_LIBRARY_ID",
    LinksPathVar, FailedLookupsPathVar]

  /** `get_envar`: the variable's value, unless it is absent or empty. */
  function GetEnvar(env: map<string, string>, name: string): (r: Result<string, StartupError>)
    ensures name !in env ==> r == Failure(MissingEnvar(name))
    ensures name in env && env[name] == "" ==> r == Failure(EmptyEnvar(name))
    ensures r.Success? <==> name in env && env[name] != ""
    ensures r.Success? ==> r.value == env[name]
  {
    if name !in env then Failure(MissingEnvar(name))
    else if env[name] == "" then Failure(EmptyEnvar(name))
    else Success(env[name])
  }

  /** The value of a variable that an earlier check has already read. */
  function EnvValue(env: map<string, string>, name: string): string
  {
    if name in env then env[name] else ""
  }

  /** One start-up check. Paths that come from the environment are named by
      their variable; the others are fixed. */
  datatype Check =
    | EnvSet(name: string)
    | StatusFileOpens(pathVar: string)
    | DirExists(dir: string)
    | SpotipyCacheExists
    | LibrespotCredentialsExist
    | LibrespotBinaryExists
    | LibrespotLaunches
    | DirWritable(dir: string)
    | SpotifyCacheValidated

  datatype Verdict = Pass | Fail(error: StartupError)

  /** All start-up checks, in the order the run performs them. */
  function StartupChecks(): seq<Check>
  {
    EnvChecks() + HostChecks()
  }

  function EnvChecks(): seq<Check>
  {
    seq(|RequiredEnvars|, i requires 0 <= i < |RequiredEnvars| => EnvSet(RequiredEnvars[i]))
  }

  function HostChecks(): seq<Check>
  {
    [StatusFileOpens(LinksPathVar), StatusFileOpens(FailedLookupsPathVar),
     DirExists(ImportDir), DirExists(LibraryDir),
     SpotipyCacheExists, LibrespotCredentialsExist, LibrespotBinaryExists, LibrespotLaunches,
     DirWritable(LibraryDir), DirWritable(ImportDir),
     SpotifyCacheValidated]
  }

  /** The outcome of performing one check. */
  function Evaluate(c: Check, env: map<string, string>, host: Host): Verdict
  {
    match c
    case EnvSet(name) =>
      (match GetEnvar(env, name)
       case Success(_) => Pass
       case Failure(e) => Fail(e))
    case StatusFileOpens(pathVar) =>
      var path := EnvValue(env, pathVar);
      if host.opensReadWrite(path) then Pass else Fail(CannotOpen(path))
    case DirExists(dir) =>
      if host.isDir(dir) then Pass else Fail(MissingDirectory(dir))
    case SpotipyCacheExists =>
      var path := SpotipyCachePath(EnvValue(env, UsernameVar));
      if host.isFile(path) then Pass else Fail(MissingSpotipyCache(path))
    case LibrespotCredentialsExist =>
      if host.isFile(LibrespotCredentials) then Pass
      else Fail(MissingLibrespotCredentials(LibrespotCredentials))
    case LibrespotBinaryExists =>
      if host.isFile(LibrespotBinary) then Pass else Fail(MissingLibrespotBinary(LibrespotBinary))
    case LibrespotLaunches =>
      var argv := [LibrespotBinary, "--help"];
      if host.launches(argv) then Pass else Fail(LaunchFailed(argv))
    case DirWritable(dir) =>
      if host.createsTempFileIn(dir) then Pass else Fail(NotWritable(dir))
    case SpotifyCacheValidated =>
      var username := EnvValue(env, UsernameVar);
      if host.spotifyCacheValid(username) then Pass else Fail(InvalidSpotifyCache(username))
  }

  /** Perform the checks in order, stopping at the first that fails. */
  function FirstFailure(checks: seq<Check>, env: map<string, string>, host: Host): (v: Verdict)
    ensures v.Pass? <==> forall i :: 0 <= i < |checks| ==> Evaluate(checks[i], env, host).Pass?
    ensures v.Fail? ==> exists i :: 0 <= i < |checks| && Evaluate(checks[i], env, host) == v &&
                                    forall j :: 0 <= j < i ==> Evaluate(checks[j], env, host).Pass?
  {
    if checks == [] then Pass
    else
      var first := Evaluate(checks[0], env, host);
      if first.Fail? then first
      else
        var v := FirstFailure(checks[1..], env, host);
        assert forall i :: 0 < i < |checks| ==> checks[i] == checks[1..][i - 1];
        if v.Fail? then
          var i :| 0 <= i < |checks| - 1 && Evaluate(checks[1..][i], env, host) == v &&
                   forall j :: 0 <= j < i ==> Evaluate(checks[1..][j], env, host).Pass?;
          assert Evaluate(checks[i + 1], env, host) == v;
          v
        else v
  }

  /** Running two lists of checks one after the other stops in the first
      list when it fails there, and only otherwise runs the second. */
  lemma {:induction false} FirstFailureAppend(a: seq<Check>, b: seq<Check>, env: map<string, string>, host: Host)
    ensures FirstFailure(a + b, env, host) ==
            if FirstFailure(a, env, host).Fail? then FirstFailure(a, env, host) else FirstFailure(b, env, host)
  {
    if a != [] {
      assert (a + b)[1..] == a[1..] + b;
      FirstFailureAppend(a[1..], b, env, host);
    } else {
      assert a + b == b;
    }
  }

  /** The settings read from the environment, used for the rest of the run. */
  datatype Config = Config(
    spotipyClientId: string,
    spotipyClientSecret: string,
    spotipyRedirectUri: string,
    spotifyUsername: string,
    jellyfinUsername: string,
    jellyfinPassword: string,
    jellyfinServer: string,
    jellyfinLibraryId: string,
    linksPath: string,
    failedLookupsPath: string)

  /** The whole start-up validation. It succeeds exactly when every check
      passes, and otherwise reports the first failing check's error; the
      settings it returns are the environment's values, unchanged. */
  function Validate(env: map<string, string>, host: Host): (r: Result<Config, StartupError>)
    ensures r.Success? <==> forall i :: 0 <= i < |StartupChecks()| ==> Evaluate(StartupChecks()[i], env, host).Pass?
    ensures r.Failure? ==> exists i :: 0 <= i < |StartupChecks()| &&
                                       Evaluate(StartupChecks()[i], env, host) == Fail(r.error) &&
                                       forall j :: 0 <= j < i ==> Evaluate(StartupChecks()[j], env, host).Pass?
    ensures r.Success? ==> forall name :: name in RequiredEnvars ==> name in env && env[name] != ""
    ensures r.Success? ==> r.value == Config(
      env[RequiredEnvars[0]], env[RequiredEnvars[1]], env[RequiredEnvars[2]], env[UsernameVar],
      env[RequiredEnvars[4]], env[RequiredEnvars[5]], env[RequiredEnvars[6]], env[RequiredEnvars[7]],
      env[LinksPathVar], env[FailedLookupsPathVar])
  {
    match FirstFailure(StartupChecks(), env, host)
    case Fail(e) => Failure(e)
    case Pass =>
      RequiredEnvarsChecked(env, host);
      Success(Config(
        env[RequiredEnvars[0]], env[RequiredEnvars[1]], env[RequiredEnvars[2]], env[UsernameVar],
        env[RequiredEnvars[4]], env[RequiredEnvars[5]], env[RequiredEnvars[6]], env[RequiredEnvars[7]],
        env[LinksPathVar], env[FailedLookupsPathVar]))
  }

  /** The first checks are those of the required variables, one each, in order. */
  lemma EnvChecksFirst()
    ensures |StartupChecks()| == |RequiredEnvars| + |HostChecks()|
    ensures forall k :: 0 <= k < |RequiredEnvars| ==> StartupChecks()[k] == EnvChecks()[k] == EnvSet(RequiredEnvars[k])
  {
  }

  /** When every check passes, every required variable is set and non-empty. */
  lemma RequiredEnvarsChecked(env: map<string, string>, host: Host)
    requires forall i :: 0 <= i < |StartupChecks()| ==> Evaluate(StartupChecks()[i], env, host).Pass?
    ensures forall name :: name in RequiredEnvars ==> name in env && env[name] != ""
  {
    EnvChecksFirst();
    forall name | name in RequiredEnvars
      ensures name in env && env[name] != ""
    {
      var k :| 0 <= k < |RequiredEnvars| && RequiredEnvars[k] == name;
      assert Evaluate(StartupChecks()[k], env, host).Pass?;
    }
  }

  /** Configuration errors are reported before anything else: when the k-th
      required variable is the first one missing or empty, validation fails
      naming it, whatever the state of files, directories and binaries. */
  lemma ConfigurationErrorsFirst(env: map<string, string>, host: Host, k: nat)
    requires k < |RequiredEnvars|
    requires GetEnvar(env, RequiredEnvars[k]).Failure?
    requires forall j :: 0 <= j < k ==> GetEnvar(env, RequiredEnvars[j]).Success?
    ensures Validate(env, host) == Failure(GetEnvar(env, RequiredEnvars[k]).error)
  {
    var checks := EnvChecks();
    EnvChecksFirst();
    FirstFailureAppend(checks, HostChecks(), env, host);
    var v := FirstFailure(checks, env, host);
    assert Evaluate(checks[k], env, host).Fail?;
    var i :| 0 <= i < |checks| && Evaluate(checks[i], env, host) == v &&
             forall j :: 0 <= j < i ==> Evaluate(checks[j], env, host).Pass?;
    assert i == k;
  }
}
