/**
 * `setup_demo_env` (query/helpers.py): points the environment variables at
 * the bundled sqlite database and removes any host and port.
 */
module Helpers {
  import opened Environment

  /**
   * The environment after `setup_demo_env`: driver and database name set,
   * host and port removed, every other variable as it was.
   */
  function DemoEnv(env: Env): (r: Env)
    ensures DriverVar in r && r[DriverVar] == "sqlite"
    ensures NameVar in r && r[NameVar] == SampleDatabase
    ensures HostVar !in r && PortVar !in r
    ensures forall k :: k != DriverVar && k != NameVar && k != HostVar && k != PortVar ==>
      (k in r <==> k in env) && (k in r ==> r[k] == env[k])
  {
    env[DriverVar := "sqlite"][NameVar := SampleDatabase] - {HostVar, PortVar}
  }

  /** Setting the demo environment a second time changes nothing. */
  lemma DemoEnvIdempotent(env: Env)
    ensures DemoEnv(DemoEnv(env)) == DemoEnv(env)
  {
    var once := DemoEnv(env);
    var twice := DemoEnv(once);
    assert twice.Keys == once.Keys;
    forall k | k in once ensures twice[k] == once[k] {
    }
  }

  /** The process environment, which the source changes in place. */
  class Environ {
    var vars: Env

    constructor (initial: Env)
      ensures vars == initial
    {
      vars := initial;
    }

    /** Two assignments and two conditional removals, in the source's order. */
    method SetupDemoEnv()
      modifies this
      ensures vars == DemoEnv(old(vars))
    {
      vars := vars[DriverVar := "sqlite"];
      vars := vars[NameVar := SampleDatabase];
      if Get(vars, HostVar).Some? {
        vars := vars - {HostVar};
      }
      if Get(vars, PortVar).Some? {
        vars := vars - {PortVar};
      }
    }
  }
}
