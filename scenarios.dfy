/**
 * The situations the repository's tests set up (tests/core_test.py,
 * tests/helpers_test.py), stated over the model.
 */
module Scenarios {
  import opened Wrappers
  import opened Text
  import opened Environment
  import opened Schema
  import opened Orm
  import opened Connection
  import opened Helpers

  /**
   * After `setup_demo_env`, `QueryDb()` with no arguments connects to the
   * sample database with the sqlite driver, no host, no port and no
   * password prompt, and displays the database as "Chinook_Sqlite.sqlite".
   */
  lemma DefaultConnectionAfterDemoSetup(env: Env, packageDir: string)
    ensures var p := ResolvedParams(DefaultArguments(), DemoEnv(env), packageDir);
      && p == Parameters(Some("sqlite"), Some(SampleDatabase), None, None, None, NoPassword)
      && DisplayName(p.database.value) == SampleFile
  {
    DisplayNameOfSampleFile(SampleDirectory);
  }

  /**
   * Passing the sqlite driver and the sample database explicitly, under the
   * demo environment, gives the same parameters.
   */
  lemma ExplicitSqliteConnection(env: Env, packageDir: string)
    ensures ResolvedParams(DefaultArguments().(driver := Some("sqlite"), database := Some(SampleDatabase)),
                           DemoEnv(env), packageDir)
         == ResolvedParams(DefaultArguments(), DemoEnv(env), packageDir)
  {
  }

  /** `QueryDb(demo=True)` needs no environment at all and never prompts. */
  lemma DemoConnectionWithoutEnvironment(packageDir: string)
    ensures var p := ResolvedParams(DefaultArguments().(demo := true), map[], packageDir);
      && p.driver == Some("sqlite")
      && p.password == NoPassword
      && DisplayName(p.database.value) == SampleFile
  {
    DemoDisplayName(packageDir);
  }

  /**
   * A host and port left in the environment are gone after the demo setup,
   * so they cannot reach the connection parameters.
   */
  lemma DemoSetupDropsStaleHostAndPort(env: Env, packageDir: string)
    requires HostVar in env && PortVar in env
    ensures var p := ResolvedParams(DefaultArguments(), DemoEnv(env), packageDir);
      p.host == None && p.port == None
  {
  }

  /** `last()` and `tail()` on a column accessor build the same statement. */
  lemma LastEqualsTailOnColumn(t: Table, c: Column, n: int, orderBy: Option<string>)
    ensures Last(Accessor(t, Some(c)), n, orderBy) == Tail(Accessor(t, Some(c)), n, orderBy)
  {
  }

  /**
   * `head()`, `tail()` and `last()` with no arguments, on a table with one
   * primary key: ten rows ordered by that key, with no warning.
   */
  lemma DefaultsOnSingleKeyTable(t: Table, key: string)
    requires t.primaryKeys == [key]
    ensures var prefix := "SELECT * FROM " + t.name + " ORDER BY " + key;
      && Head(Accessor(t, None)) == Ok(Select(prefix + " ASC LIMIT 10", false))
      && Tail(Accessor(t, None)) == Ok(Select(prefix + " DESC LIMIT 10", false))
      && Last(Accessor(t, None)) == Tail(Accessor(t, None))
  {
    assert Decimal(10) == "10" by {
      assert Digits(1) == "1" && Digits(0) == "0";
    }
    var prefix := "SELECT * FROM " + t.name + " ORDER BY " + key;
    assert OrderedSelect(Accessor(t, None), None) == prefix;
    assert prefix + " ASC LIMIT " + Decimal(10) == prefix + " ASC LIMIT 10";
    assert prefix + " DESC LIMIT " + Decimal(10) == prefix + " DESC LIMIT 10";
  }

  /** The comparison `composer == 'Philip Glass'` is used verbatim as the WHERE clause. */
  lemma WhereWithComparisonIsVerbatim(a: Accessor)
    requires |a.table.primaryKeys| > 0
    ensures var r := Where(a, ByteFragment("composer == 'Philip Glass'"));
      r.Ok? && r.value.sql == "SELECT " + SelectedColumns(a) + " FROM " + a.table.name
        + " WHERE " + "composer == 'Philip Glass'"
  {
    var s := "composer == 'Philip Glass'";
    assert s[9..10] == "=";
    ContainsAt(s, "=", 9);
    assert HasOperator(s) by { assert Contains(s, WhereOperators[0]); }
  }
}
