/**
 * How `QueryDb.__init__` (query/core.py) settles the connection
 * parameters before it builds the engine URL: demo mode first, then the
 * environment variables, then the password; and the display name it
 * derives from the database name.
 */
module Connection {
  import opened Wrappers
  import opened Text
  import opened Environment

  /** A port is whatever the caller passed (normally a number), or the text of QUERY_DB_PORT. */
  datatype Port = PortNumber(number: int) | PortText(text: string)

  /** The password handed to the URL; `NeedsPrompt` stands for the interactive `getpass`. */
  datatype Password = Known(secret: string) | NoPassword | NeedsPrompt

  /** The constructor's keyword arguments. */
  datatype Arguments = Arguments(
    driver: Option<string>,
    database: Option<string>,
    host: Option<string>,
    port: Option<Port>,
    password: Option<string>,
    username: Option<string>,
    useEnvVars: bool,
    demo: bool)

  /** `QueryDb()` with every keyword left at its default. */
  function DefaultArguments(): (r: Arguments)
    ensures r.useEnvVars && !r.demo
    ensures r.driver.None? && r.database.None? && r.host.None? && r.port.None?
    ensures r.password.None? && r.username.None?
  {
    Arguments(None, None, None, None, None, None, true, false)
  }

  /** What goes into the engine URL. */
  datatype Parameters = Parameters(
    driver: Option<string>,
    database: Option<string>,
    host: Option<string>,
    port: Option<Port>,
    username: Option<string>,
    password: Password)

  /**
   * `os.path.join(packageDir, SampleDatabase)`; the second part is relative,
   * so it is appended to the directory, with a '/' in between unless the
   * directory is empty or already ends in one.
   */
  function DemoDatabasePath(packageDir: string): (r: string)
    ensures |packageDir| <= |r| && r[..|packageDir|] == packageDir
    ensures |r| >= |SampleDatabase| && r[|r| - |SampleDatabase|..] == SampleDatabase
    ensures var separated := packageDir != [] && packageDir[|packageDir| - 1] != '/';
      && |r| == |packageDir| + (if separated then 1 else 0) + |SampleDatabase|
      && (separated ==> r[|packageDir|] == '/')
  {
    if packageDir == [] || packageDir[|packageDir| - 1] == '/' then packageDir + SampleDatabase
    else packageDir + "/" + SampleDatabase
  }

  /** Demo mode: the sqlite driver, the bundled database, and no environment lookup. */
  function ApplyDemo(args: Arguments, packageDir: string): Arguments {
    if args.demo then
      args.(driver := Some("sqlite"), database := Some(DemoDatabasePath(packageDir)), useEnvVars := false)
    else args
  }

  /** An environment variable replaces an argument when present and enabled. */
  function Override(arg: Option<string>, env: Env, key: string, enabled: bool): Option<string> {
    if enabled && key in env then Some(env[key]) else arg
  }

  function ApplyEnvironment(args: Arguments, env: Env): Arguments {
    args.(
      driver := Override(args.driver, env, DriverVar, args.useEnvVars),
      host := Override(args.host, env, HostVar, args.useEnvVars),
      port := if args.useEnvVars && PortVar in env then Some(PortText(env[PortVar])) else args.port,
      database := Override(args.database, env, NameVar, args.useEnvVars))
  }

  /** sqlite takes no password; other drivers fall back to QUERY_DB_PASS, then to a prompt. */
  function ResolvePassword(password: Option<string>, driver: Option<string>, env: Env): Password {
    if password.Some? then Known(password.value)
    else if driver == Some("sqlite") then NoPassword
    else if PassVar in env then Known(env[PassVar])
    else NeedsPrompt
  }

  /**
   * The resolved parameters, as a composition of the three stages. The
   * environment wins over an explicit argument whenever `useEnvVars` is set
   * and the variable is present; demo mode switches the environment off.
   */
  function ResolvedParams(args: Arguments, env: Env, packageDir: string): (p: Parameters)
    // demo mode
    ensures args.demo ==> p.driver == Some("sqlite") && p.database == Some(DemoDatabasePath(packageDir))
    ensures args.demo ==> p.host == args.host && p.port == args.port
    // environment variables, only when enabled
    ensures !args.demo && args.useEnvVars ==>
      && p.driver == (if DriverVar in env then Some(env[DriverVar]) else args.driver)
      && p.host == (if HostVar in env then Some(env[HostVar]) else args.host)
      && p.port == (if PortVar in env then Some(PortText(env[PortVar])) else args.port)
      && p.database == (if NameVar in env then Some(env[NameVar]) else args.database)
    ensures !args.demo && !args.useEnvVars ==>
      p.driver == args.driver && p.host == args.host && p.port == args.port && p.database == args.database
    ensures p.username == args.username
    // password
    ensures args.password.Some? ==> p.password == Known(args.password.value)
    ensures args.password.None? && p.driver == Some("sqlite") ==> p.password == NoPassword
    ensures args.password.None? && p.driver != Some("sqlite") && PassVar in env ==>
      p.password == Known(env[PassVar])
    ensures p.password == NeedsPrompt <==>
      args.password.None? && p.driver != Some("sqlite") && PassVar !in env
  {
    var a := ApplyEnvironment(ApplyDemo(args, packageDir), env);
    Parameters(a.driver, a.database, a.host, a.port, a.username,
               ResolvePassword(a.password, a.driver, env))
  }

  /** Demo mode settles every parameter without looking at the environment. */
  lemma DemoIgnoresEnvironment(args: Arguments, env1: Env, env2: Env, packageDir: string)
    requires args.demo
    ensures ResolvedParams(args, env1, packageDir) == ResolvedParams(args, env2, packageDir)
    ensures ResolvedParams(args, env1, packageDir).password != NeedsPrompt
  {
  }

  /**
   * The constructor's own sequence of reassignments, from the demo switch to
   * the password lookup.
   */
  method ResolveConnection(args: Arguments, env: Env, packageDir: string) returns (p: Parameters)
    ensures p == ResolvedParams(args, env, packageDir)
  {
    var drivername, database, host, port := args.driver, args.database, args.host, args.port;
    var useEnvVars := args.useEnvVars;
    if args.demo {
      drivername := Some("sqlite");
      database := Some(DemoDatabasePath(packageDir));
      useEnvVars := false;
    }
    var environDriver := Get(env, DriverVar);
    var environHost := Get(env, HostVar);
    var environPort := Get(env, PortVar);
    var environName := Get(env, NameVar);
    if environDriver.Some? && useEnvVars {
      drivername := environDriver;
    }
    if environHost.Some? && useEnvVars {
      host := environHost;
    }
    if environPort.Some? && useEnvVars {
      port := Some(PortText(environPort.value));
    }
    if environName.Some? && useEnvVars {
      database := environName;
    }
    var password: Password;
    if args.password.None? && drivername != Some("sqlite") {
      var fromEnv := Get(env, PassVar);
      password := if fromEnv.Some? then Known(fromEnv.value) else NeedsPrompt;
    } else {
      password := if args.password.Some? then Known(args.password.value) else NoPassword;
    }
    p := Parameters(drivername, database, host, port, args.username, password);
  }

  /**
   * `r` is the piece of `s` that starts right after the last '/' (or at the
   * start) and stops right before the first ':' after it (or at the end).
   */
  ghost predicate IsDisplaySegment(s: string, i: int, r: string) {
    && 0 <= i && i + |r| <= |s| && s[i..i + |r|] == r
    && (i == 0 || s[i - 1] == '/')
    && '/' !in s[i..]
    && (i + |r| == |s| || s[i + |r|] == ':')
  }

  /** `database.split("/")[-1].split(":")[0]`. */
  function DisplayName(database: string): (r: string)
    ensures '/' !in r && ':' !in r
    ensures exists i :: IsDisplaySegment(database, i, r)
  {
    var pieces := Split(database, '/');
    var file := pieces[|pieces| - 1];
    LastPieceIsSuffix(database, '/');
    FirstPieceIsPrefix(file, ':');
    var r := Split(file, ':')[0];
    var i := |database| - |file|;
    assert database[i..i + |r|] == file[..|r|];
    assert database[i..] == file;
    assert IsDisplaySegment(database, i, r);
    r
  }

  /** A name holding neither '/' nor ':' is displayed as it is. */
  lemma DisplayNameOfPlainName(database: string)
    requires '/' !in database && ':' !in database
    ensures DisplayName(database) == database
  {
    SplitNoSeparator(database, '/');
    SplitNoSeparator(database, ':');
  }

  /** Only the text after the last '/' takes part in the display name. */
  lemma DisplayNameAfterLastSlash(dir: string, file: string)
    requires '/' !in file
    ensures DisplayName(dir + ['/'] + file) == Split(file, ':')[0]
  {
    LastPieceAfterSeparator(dir, '/', file);
    SplitNoSeparator(file, '/');
  }

  /** The demo database's file name, wherever its directory, is displayed as it is. */
  lemma DisplayNameOfSampleFile(dir: string)
    ensures DisplayName(dir + ['/'] + SampleFile) == SampleFile
  {
    assert '/' !in SampleFile && ':' !in SampleFile;
    DisplayNameAfterLastSlash(dir, SampleFile);
    SplitNoSeparator(SampleFile, ':');
  }

  /** Whatever directory the package lives in, the demo database displays as its file name. */
  lemma DemoDisplayName(packageDir: string)
    ensures DisplayName(DemoDatabasePath(packageDir)) == SampleFile
  {
    var before := if packageDir == [] || packageDir[|packageDir| - 1] == '/' then packageDir + SampleDirectory
                  else packageDir + "/" + SampleDirectory;
    assert DemoDatabasePath(packageDir) == before + ['/'] + SampleFile;
    DisplayNameOfSampleFile(before);
  }
}
