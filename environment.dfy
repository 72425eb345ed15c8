/**
 * The process environment (`os.environ`) as a map from variable names to
 * values, and the variable names the package reads and writes.
 */
module Environment {
  import opened Wrappers

  type Env = map<string, string>

  const DriverVar := "QUERY_DB_DRIVER"
  const HostVar := "QUERY_DB_HOST"
  const PortVar := "QUERY_DB_PORT"
  const NameVar := "QUERY_DB_NAME"
  const PassVar := "QUERY_DB_PASS"

  /** The bundled Chinook sample database, relative to the package directory. */
  const SampleDatabase := SampleDirectory + "/" + SampleFile
  const SampleDirectory := "sample_data"
  const SampleFile := "Chinook_Sqlite.sqlite"

  /** `os.environ.get(key)`. */
  function Get(env: Env, key: string): (r: Option<string>)
    ensures r.Some? <==> key in env
    ensures r.Some? ==> r.value == env[key]
  {
    if key in env then Some(env[key]) else None
  }
}
