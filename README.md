# query: a Dafny model of the decision and string-building logic

`query` is a small Python package for exploring a SQL database from a
notebook. `QueryDb` opens a connection and reflects the schema.
`QueryDbOrm` row accessors build `SELECT` statements for one table or one
column: `head`, `tail`, `first`, `last` and `where`. `setup_demo_env`
points the environment at the bundled Chinook sqlite database.

The model covers the pure logic on top of the SQL toolkit and the
dataframe library:

- **Orm** (`orm.dfy`): the ORDER BY choice of `_query_helper`, and the
  statements built by `head`, `tail`, `first`, `last` and `where`. Each
  builder except `first` yields either the SQL text with a warning flag,
  or the exception it raises (`NoPrimaryKeyException`, or for `where` also
  `UnicodeEncodeError`). `first` yields nothing. The defaults `n=10` and
  `by=None` are default arguments.
- **Connection** (`connection.dfy`): how `QueryDb.__init__` settles its
  parameters. There are two forms.
  - `ResolvedParams` composes three stages: demo, environment, password.
  - `ResolveConnection` is the constructor's own step-by-step
    reassignment, proved equal to `ResolvedParams`.
  - `DisplayName` is the database display name.
- **Dispatch** (`dispatch.dfy`): the argument checks and the result-mode
  choice of `QueryDb.query`.
- **Metadata** (`metadata.dfy`): the loop of `_set_metadata`. It gives each
  table an accessor and each column an accessor, kept in an explicit map,
  and builds one summary row per table.
- **Helpers** (`helpers.dfy`): `setup_demo_env`. It is a method on an
  `Environ` object whose map field stands for `os.environ`. It is proved
  against the function `DemoEnv`.
- **Text** (`text.dfy`): the Python string operations these rely on.
  - substring containment
  - `split`, with its inverse `join`
  - ASCII `upper()`
  - `%d`, with its inverse parser
- **Environment**, **Schema** and **Wrappers**: variable names, the
  reflected table and column values, and `Option`.
- **Scenarios** (`scenarios.dfy`): the situations set up by the tests.

Inputs the source reads from outside are parameters:

- the environment, as `map<string, string>`
- the package directory, which the source takes from `query.__file__`
- the reflected tables, as a sequence of `Table` values

The model follows the code on two points:

- An environment variable replaces an explicit argument whenever
  `use_env_vars` is set (query/core.py:220-227). The code does not let the
  explicit argument win.
- `QUERY_DB_PASS` is read for any non-sqlite driver with no password, even
  when `use_env_vars` is false (query/core.py:232-233).

`query()` is modelled with Python 2 strings, the string model the source
is written for (`unicode` at query/core.py:321).

## Model

| member | source | states |
|---|---|---|
| Orm.SelectedColumns | query/core.py:94-97 | a table accessor selects `*`; a column accessor selects that column's name |
| Orm.QueryHelper | query/core.py:72-99 | an explicit `by` is used with no warning. Otherwise: no primary key gives `NoPrimaryKeyException` for that table; with keys, the first one is used, with a warning exactly when there are several |
| Orm.OrderingColumnIsKeyOrBy | query/core.py:76-92 | the ORDER BY column is always either the explicit `by` or one of the table's primary keys |
| Orm.Head | query/core.py:101-113 | fails exactly when `by` is absent and there is no primary key. Warns exactly when `by` is absent and there are several keys. Otherwise the statement is `SELECT col FROM table ORDER BY key ASC LIMIT n` |
| Orm.Tail | query/core.py:115-127 | the same outcomes as `head`, with `DESC` |
| Orm.First | query/core.py:129-132 | as written, `first` yields nothing for every input and never raises |
| Orm.FirstIsNoAliasOfHead | query/core.py:129-132 | wherever `head` builds a statement, `first` as written does not return it, despite its docstring |
| Orm.FirstAsDocumented | query/core.py:129-132 | the documented alias: the same outcome as `head` on every input, including the error |
| Orm.Last | query/core.py:134-138 | fails, warns and builds statements exactly as `tail`: descending order, same key choice, same warning, same error |
| Orm.HeadTailMirror | query/core.py:108-125 | `head` and `tail` succeed together and warn together. Their statements share everything before ` ASC`/` DESC LIMIT n` |
| Orm.HeadLimitReadsBack | query/core.py:110-111 | the numeral after LIMIT in a `head` statement reads back as `n`, negative values included |
| Orm.Where | query/core.py:140-170 | a table with no primary key fails with `NoPrimaryKeyException`, whatever the fragment. Otherwise a unicode fragment with a non-ASCII character fails in `str()` with `UnicodeEncodeError`. A fragment with `=`, `>`, `<`, `LIKE` or `like` is the WHERE clause verbatim; any other fragment becomes `pk = fragment`. The warning is raised exactly when there are several keys |
| Orm.WhereBareValueIsKeyEquality | query/core.py:159-168 | `where(v)` for a bare byte-string value `v` gives the same outcome as `where("pk = v")` |
| Connection.DefaultArguments | query/core.py:177-180 | by default driver, database, host, port, password and username are all `None`, environment variables are used and demo mode is off |
| Connection.DemoDatabasePath | query/core.py:209-211 | the demo database path starts with the package directory and ends in `sample_data/Chinook_Sqlite.sqlite`. A `/` separates the two unless the directory is empty or already ends in `/`; nothing else is in between |
| Connection.ResolvedParams | query/core.py:207-243 | demo forces driver `sqlite` and the bundled path and ignores the environment. With `use_env_vars`, each present variable among driver, host, port and name replaces its argument; absent ones, or the flag off, leave the arguments. Username passes through. Password: a supplied one is kept; sqlite with none stays passwordless; otherwise `QUERY_DB_PASS`. A prompt is needed exactly when none of these gives a password |
| Connection.DemoIgnoresEnvironment | query/core.py:207-233 | in demo mode the parameters are the same for every environment, and no prompt is needed |
| Connection.ResolveConnection | query/core.py:207-243 | the step-by-step reassignment of driver, database, host, port and password yields exactly `ResolvedParams` |
| Connection.DisplayName | query/core.py:266 | the display name has no `/` and no `:`. It is the text right after the last `/` (or from the start), cut right before the next `:` (or at the end) |
| Connection.DisplayNameOfPlainName | query/core.py:266 | a name with neither `/` nor `:` is displayed unchanged |
| Connection.DisplayNameAfterLastSlash | query/core.py:266 | only the text after the last `/` takes part in the display name |
| Connection.DisplayNameOfSampleFile | query/core.py:266 | `<dir>/Chinook_Sqlite.sqlite` displays as `Chinook_Sqlite.sqlite` for every directory |
| Connection.DemoDisplayName | query/core.py:207-266 | the demo database displays as `Chinook_Sqlite.sqlite` wherever the package is installed |
| Dispatch.Query | query/core.py:319-335 | a non-string argument gives `QueryDbError` with its message whatever the mode; unicode with a non-ASCII character fails in `str()`. For an accepted argument, the upper-cased mode `DF`/`DATAFRAME` gives dataframe mode and `RESULT`/`RESULTPROXY` result mode, each on the given text; anything else is `QueryDbError` with the message "Other return types not implemented." |
| Dispatch.ModeIsCaseInsensitive | query/core.py:328-330 | two modes that agree after upper-casing give the same outcome |
| Dispatch.ArgumentCheckedBeforeMode | query/core.py:319-324 | a non-string argument is refused identically under every mode |
| Dispatch.DefaultModeIsDataFrame | query/core.py:298-329 | the default mode `dataframe` selects dataframe mode |
| Dispatch.ResultModeByName | query/core.py:330-333 | `result` selects the raw result mode |
| Dispatch.JunkModeRejected | query/core.py:334-335 | `junk` is refused with `QueryDbError` |
| Metadata.ColumnAccessorsShape | query/core.py:358-360 | the column map has one key per column name; each accessor is bound to the owning table and to a column of that name |
| Metadata.ColumnAccessorsLookup | query/core.py:358-360 | with distinct column names, each column's accessor is bound to exactly that column and its table |
| Metadata.InspectShape | query/core.py:351-353 | one entry per table name, each the entry of a reflected table of that name |
| Metadata.InspectLookup | query/core.py:351-360 | with distinct table names, each table's entry holds its table accessor (column `None`) and its column accessors |
| Metadata.TypeClasses | query/core.py:372 | the distinct type classes are exactly those of the columns; there are at most as many as columns, and at least one when there are columns |
| Metadata.SummaryOf | query/core.py:367-373 | the row holds the table name and the column count. The key cell is a scalar exactly when there is one primary key, and the whole list otherwise, empty included. The type count is the number of distinct type classes among the columns. It is at most the column count and at least 1 for a table with columns |
| Metadata.SetColumnAccessors | query/core.py:358-360 | the inner loop yields exactly `ColumnAccessors` of the table's columns: one accessor per column, set in order |
| Metadata.SetMetadata | query/core.py:351-373 | the loop yields exactly `Inspect(tables)` and one summary row per table, in order |
| Helpers.DemoEnv | query/helpers.py:4-10 | afterwards the driver is `sqlite`, the name is the sample database, and host and port are absent. Every other variable keeps its presence and value |
| Helpers.DemoEnvIdempotent | query/helpers.py:4-10 | setting up the demo environment twice equals doing it once |
| Helpers.Environ.SetupDemoEnv | query/helpers.py:4-10 | the in-place update leaves the environment equal to `DemoEnv` of the old one |
| Text.ContainsIff | query/core.py:163 | substring containment holds exactly when the word occurs at some position |
| Text.Split | query/core.py:266 | `split` yields at least one piece, and no piece holds the separator |
| Text.JoinSplit | query/core.py:266 | joining the pieces of a split with the separator gives back the string |
| Text.SplitJoin | query/core.py:266 | splitting a join of separator-free pieces gives back the pieces |
| Text.FirstPieceIsPrefix | query/core.py:266 | `split(c)[0]` is the prefix up to the first `c`, or the whole string |
| Text.LastPieceIsSuffix | query/core.py:266 | `split(c)[-1]` is the suffix after the last `c`, or the whole string |
| Text.LastPieceAfterSeparator | query/core.py:266 | `split(c)[-1]` of `p + c + q` depends on `q` only |
| Text.Upper | query/core.py:328 | upper-casing keeps the length and maps each character through ASCII upper-casing |
| Text.UpperIdempotent | query/core.py:328 | upper-casing twice equals upper-casing once |
| Text.Digits | query/core.py:110-111 | the digits of a number form a non-empty run of decimal digits, with a leading `0` only for zero |
| Text.DecimalRoundTrip | query/core.py:110-111 | the `%d` rendering of every integer parses back to it, and apart from a minus sign it is all digits |
| Scenarios.DefaultConnectionAfterDemoSetup | tests/core_test.py:11-32 | after the demo environment setup, `QueryDb()` resolves to sqlite on the sample database: no host, no port, no prompt. It displays as `Chinook_Sqlite.sqlite` |
| Scenarios.ExplicitSqliteConnection | tests/core_test.py:24-25 | passing sqlite and the sample database explicitly resolves to the same parameters |
| Scenarios.DemoConnectionWithoutEnvironment | tests/core_test.py:36-38 | `QueryDb(demo=True)` with an empty environment uses sqlite, needs no password, and displays the file name |
| Scenarios.DemoSetupDropsStaleHostAndPort | tests/helpers_test.py:13-17 | a stale host and port removed by the demo setup do not reach the parameters |
| Scenarios.LastEqualsTailOnColumn | tests/core_test.py:85-86 | `last()` and `tail()` on a column accessor build the same statement |
| Scenarios.DefaultsOnSingleKeyTable | tests/core_test.py:84-90 | with no arguments on a single-key table, `head()` and `tail()` build `... ORDER BY key ASC LIMIT 10` and `... DESC LIMIT 10` with no warning. `last()` equals `tail()` |
| Scenarios.WhereWithComparisonIsVerbatim | tests/core_test.py:96 | `composer == 'Philip Glass'` becomes the WHERE clause as it is |

## Findings

| source | as written | input that shows it | evidently intended | confidence | as-written member | corrected member |
|---|---|---|---|---|---|---|
| query/core.py:129-132 | `first` has only a docstring, so it returns `None` and builds no query | `first(10)` on any table with a primary key, where `head(10)` builds a query | an alias for `head`, as its docstring says | not executed | Orm.First, Orm.FirstIsNoAliasOfHead | Orm.FirstAsDocumented |

## Left out

- Engine creation, the `engine.begin()` liveness check, `test_connection` and `QueryDb.__repr__`: these are I/O against the database engine.
- Schema reflection (`meta.reflect()`): it is I/O. The reflected tables are an input sequence.
- Running the SQL: `read_sql`, the DataFrame, the `ResultProxy` and its closed-resource error, and the rows the tests look at. These are foreign calls plus database contents. `Dispatch.Query` ends at the mode chosen.
- Chaining a builder's statement into `query(select, **kwargs)`: the builders return the statement, and `Dispatch.Query` handles a statement separately.
- `getpass` prompting and the notebook warning: interactive I/O, reduced to the `NeedsPrompt` outcome.
- `warnings.warn`: reduced to the `warned` flag. Exception message texts are reduced to the table name, except the two `QueryDbError` messages.
- HTML: `_repr_html_`, `df_to_html`, the column data frame of a table accessor, `query/html.py`. This is presentation only.
- Dynamic `setattr` browsing: replaced by an explicit map.
- Metadata.SetMetadata: does not model the failure caused by a column named `table`. In the source, `setattr` at query/core.py:359 replaces the table accessor's `table` attribute with that column's accessor. query/core.py:367 then raises `AttributeError`, because an accessor has no `primary_key`, so building `QueryDb` fails. `Metadata.SetMetadata` succeeds on such a table. Other columns named like accessor attributes (`column`, `head`, ...) also shadow them in the source; the map does not model this.
- The display name when the database name is `None`: the source then raises `AttributeError` at `split`. `Connection.DisplayName` is defined for strings only.
- `query()` under Python 3, where the `unicode` check raises `NameError`: not modelled. A mode that is not a string is not modelled either, since the source fails on `.upper()`. `upper()` is ASCII only.
- Orm.Where: table and column names are treated as byte strings. The SQL toolkit's reflected names are unicode strings under Python 2. So the `%` formatting at query/core.py:164-168 ASCII-decodes a byte-string fragment and raises `UnicodeDecodeError` when the fragment has a non-ASCII character. The model returns the statement instead.
- Orm.Head: the same `UnicodeDecodeError` is not modelled for a byte-string `by` with a non-ASCII character, formatted against the unicode names at query/core.py:110-111.
- Orm.Tail: the same `UnicodeDecodeError` is not modelled for a non-ASCII byte-string `by` at query/core.py:124-125.
- Orm.Last: through `tail` (query/core.py:138), the same `UnicodeDecodeError` is not modelled.
- `str(where_string)` on non-string fragments: fragments are byte or unicode strings.
- Orm.Where: when a fragment fails in `str()` on a table with several primary keys, the outcome is the error alone. The warning that `_query_helper` raised just before is not recorded.
- `%d` applied to floats or booleans: `n` is an integer.
- The reflected tables are a name-keyed dictionary in the source, so their names are distinct. `Metadata.Inspect` is last-writer-wins for repeated names, and the one-entry-per-table lemmas assume distinct names.
- `db.i` and `db.q`, used by tests/core_test.py:58-61: they are not defined in query/core.py.
- setup.py packaging and the `QueryDB` alias in query/__init__.py: no behaviour to model.
