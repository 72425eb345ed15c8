/**
 * The row accessor's query builders (`QueryDbOrm` in query/core.py). Each
 * builder except `first` returns the SQL text it would hand to
 * `QueryDb.query`, together with the flag standing for the "more than one
 * primary key" warning, or the exception it would raise. `first` returns
 * nothing. The defaults `n=10, by=None` are kept as default arguments.
 */
module Orm {
  import opened Wrappers
  import opened Text
  import opened Schema

  /**
   * `NoPrimaryKeyException` from `_query_helper`; `UnicodeEncodeError` from the
   * `str()` coercion of a `where` fragment.
   */
  datatype Error = NoPrimaryKeyException(table: string) | UnicodeEncodeError

  datatype Result<T> = Ok(value: T) | Failure(error: Error)

  /** What `_query_helper` returns: the selected columns and the ORDER BY column. */
  datatype Ordering = Ordering(col: string, idCol: string, warned: bool)

  /** A statement ready for `QueryDb.query`, and whether a warning was raised building it. */
  datatype Select = Select(sql: string, warned: bool)

  /** `*` for a table accessor, the column's own name for a column accessor. */
  function SelectedColumns(a: Accessor): (r: string)
    ensures a.column.None? ==> r == "*"
    ensures a.column.Some? ==> r == a.column.value.name
  {
    match a.column
    case None => "*"
    case Some(c) => c.name
  }

  /**
   * `_query_helper(orderBy)`: an explicit `by` is taken as it is; otherwise the
   * first primary key, with a warning when there are several, and an error
   * when there are none.
   */
  function QueryHelper(a: Accessor, orderBy: Option<string>): (r: Result<Ordering>)
    ensures orderBy.Some? ==> r == Ok(Ordering(SelectedColumns(a), orderBy.value, false))
    ensures orderBy.None? ==> (r.Failure? <==> |a.table.primaryKeys| == 0)
    ensures r.Failure? ==> r.error == NoPrimaryKeyException(a.table.name)
    ensures orderBy.None? && r.Ok? ==>
      r.value.idCol == a.table.primaryKeys[0] && (r.value.warned <==> |a.table.primaryKeys| > 1)
    ensures r.Ok? ==> r.value.col == SelectedColumns(a)
  {
    if orderBy.None? then
      var primaryKeys := a.table.primaryKeys;
      var warned := |primaryKeys| > 1;
      if |primaryKeys| == 0 then Failure(NoPrimaryKeyException(a.table.name))
      else Ok(Ordering(SelectedColumns(a), primaryKeys[0], warned))
    else
      Ok(Ordering(SelectedColumns(a), orderBy.value, false))
  }

  /** The ORDER BY column chosen is the explicit one, or else a primary key of the table. */
  lemma OrderingColumnIsKeyOrBy(a: Accessor, orderBy: Option<string>)
    requires QueryHelper(a, orderBy).Ok?
    ensures var o := QueryHelper(a, orderBy).value;
      (orderBy.Some? && o.idCol == orderBy.value) || (orderBy.None? && o.idCol in a.table.primaryKeys)
  {
  }

  /** The ORDER BY column: the explicit one, or else the table's first primary key. */
  function OrderKey(a: Accessor, orderBy: Option<string>): string
    requires orderBy.Some? || |a.table.primaryKeys| > 0
  {
    if orderBy.Some? then orderBy.value else a.table.primaryKeys[0]
  }

  /** `SELECT col FROM table ORDER BY key`, the part `head` and `tail` share. */
  function OrderedSelect(a: Accessor, orderBy: Option<string>): string
    requires orderBy.Some? || |a.table.primaryKeys| > 0
  {
    "SELECT " + SelectedColumns(a) + " FROM " + a.table.name + " ORDER BY " + OrderKey(a, orderBy)
  }

  /** `head(n, orderBy)`: the first `n` rows in ascending order of the ORDER BY column. */
  function Head(a: Accessor, n: int := 10, orderBy: Option<string> := None): (r: Result<Select>)
    ensures r.Failure? <==> orderBy.None? && |a.table.primaryKeys| == 0
    ensures r.Failure? ==> r.error == NoPrimaryKeyException(a.table.name)
    ensures r.Ok? ==> (r.value.warned <==> orderBy.None? && |a.table.primaryKeys| > 1)
    ensures r.Ok? ==> r.value.sql == OrderedSelect(a, orderBy) + " ASC LIMIT " + Decimal(n)
  {
    match QueryHelper(a, orderBy)
    case Failure(e) => Failure(e)
    case Ok(o) =>
      Ok(Select("SELECT " + o.col + " FROM " + a.table.name + " ORDER BY " + o.idCol
                + " ASC LIMIT " + Decimal(n), o.warned))
  }

  /** `tail(n, orderBy)`: the same statement as `head`, in descending order. */
  function Tail(a: Accessor, n: int := 10, orderBy: Option<string> := None): (r: Result<Select>)
    ensures r.Failure? <==> orderBy.None? && |a.table.primaryKeys| == 0
    ensures r.Failure? ==> r.error == NoPrimaryKeyException(a.table.name)
    ensures r.Ok? ==> (r.value.warned <==> orderBy.None? && |a.table.primaryKeys| > 1)
    ensures r.Ok? ==> r.value.sql == OrderedSelect(a, orderBy) + " DESC LIMIT " + Decimal(n)
  {
    match QueryHelper(a, orderBy)
    case Failure(e) => Failure(e)
    case Ok(o) =>
      Ok(Select("SELECT " + o.col + " FROM " + a.table.name + " ORDER BY " + o.idCol
                + " DESC LIMIT " + Decimal(n), o.warned))
  }

  /**
   * `first(n, orderBy)` as written: its body is only a docstring, so it returns
   * `None` for every accessor and argument, and never raises.
   */
  function First(a: Accessor, n: int := 10, orderBy: Option<string> := None): (r: Option<Select>)
    ensures r == None
  {
    None
  }

  /**
   * Wherever `head` would build a statement, `first` as written yields
   * nothing instead, so it is not the alias its docstring announces.
   */
  lemma FirstIsNoAliasOfHead(a: Accessor, n: int, orderBy: Option<string>)
    requires orderBy.Some? || |a.table.primaryKeys| > 0
    ensures Head(a, n, orderBy).Ok? && First(a, n, orderBy) != Some(Head(a, n, orderBy).value)
  {
  }

  /** `first` as its docstring describes it: an alias for `head`. */
  function FirstAsDocumented(a: Accessor, n: int := 10, orderBy: Option<string> := None): (r: Result<Select>)
    ensures r == Head(a, n, orderBy)
  {
    Head(a, n, orderBy)
  }

  /** `last(n, orderBy)`: delegates to `tail` with the same arguments. */
  function Last(a: Accessor, n: int := 10, orderBy: Option<string> := None): (r: Result<Select>)
    ensures r.Failure? <==> orderBy.None? && |a.table.primaryKeys| == 0
    ensures r.Failure? ==> r.error == NoPrimaryKeyException(a.table.name)
    ensures r.Ok? ==> (r.value.warned <==> orderBy.None? && |a.table.primaryKeys| > 1)
    ensures r.Ok? ==> r.value.sql == OrderedSelect(a, orderBy) + " DESC LIMIT " + Decimal(n)
  {
    Tail(a, n, orderBy)
  }

  /**
   * `head` and `tail` succeed and fail together, warn together, and their
   * statements differ only in the sort direction in front of the LIMIT.
   */
  lemma HeadTailMirror(a: Accessor, n: int, orderBy: Option<string>)
    ensures Head(a, n, orderBy).Ok? <==> Tail(a, n, orderBy).Ok?
    ensures Head(a, n, orderBy).Ok? ==>
      var h := Head(a, n, orderBy).value; var t := Tail(a, n, orderBy).value;
      var k := |h.sql| - |Decimal(n)| - |" ASC LIMIT "|;
      && h.warned == t.warned
      && 0 <= k
      && h.sql == h.sql[..k] + " ASC LIMIT " + Decimal(n)
      && t.sql == h.sql[..k] + " DESC LIMIT " + Decimal(n)
  {
    if Head(a, n, orderBy).Ok? {
      var prefix := OrderedSelect(a, orderBy);
      var asc := " ASC LIMIT " + Decimal(n);
      assert Head(a, n, orderBy).value.sql == prefix + asc;
      PrefixOfConcat(prefix, asc);
    }
  }

  /** The LIMIT numeral at the end of a `head` statement reads back as `n`. */
  lemma HeadLimitReadsBack(a: Accessor, n: int, orderBy: Option<string>)
    requires Head(a, n, orderBy).Ok?
    ensures var sql := Head(a, n, orderBy).value.sql; var k := |Decimal(n)|;
      k <= |sql| && ParseDecimal(sql[|sql| - k..]) == n
  {
    var sql := Head(a, n, orderBy).value.sql;
    var k := |Decimal(n)|;
    assert sql[|sql| - k..] == Decimal(n);
    DecimalRoundTrip(n);
  }

  /** The comparison tokens whose presence makes `where` use its argument verbatim. */
  const WhereOperators: seq<string> := ["=", ">", "<", "LIKE", "like"]

  predicate HasOperator(s: string) {
    exists k :: 0 <= k < |WhereOperators| && Contains(s, WhereOperators[k])
  }

  /** A `where` fragment under Python 2: a byte string, or a unicode string. */
  datatype Fragment = ByteFragment(text: string) | UnicodeFragment(text: string)

  /** `str(fragment)`: a byte string is kept; a unicode one must be all ASCII. */
  predicate Coerces(f: Fragment) {
    f.ByteFragment? || IsAscii(f.text)
  }

  /**
   * `where(f)`: the primary-key lookup runs first, so a table without a
   * primary key always fails, whatever the fragment; then `str()` coerces the
   * fragment. A fragment holding a comparison token is the WHERE clause;
   * anything else is compared for equality with the first primary key.
   */
  function Where(a: Accessor, f: Fragment): (r: Result<Select>)
    ensures r.Failure? <==> |a.table.primaryKeys| == 0 || !Coerces(f)
    ensures |a.table.primaryKeys| == 0 ==> r == Failure(NoPrimaryKeyException(a.table.name))
    ensures |a.table.primaryKeys| > 0 && !Coerces(f) ==> r == Failure(UnicodeEncodeError)
    ensures r.Ok? ==> (r.value.warned <==> |a.table.primaryKeys| > 1)
    ensures r.Ok? && HasOperator(f.text) ==>
      r.value.sql == "SELECT " + SelectedColumns(a) + " FROM " + a.table.name + " WHERE " + f.text
    ensures r.Ok? && !HasOperator(f.text) ==>
      r.value.sql == "SELECT " + SelectedColumns(a) + " FROM " + a.table.name
        + " WHERE " + a.table.primaryKeys[0] + " = " + f.text
  {
    match QueryHelper(a, None)
    case Failure(e) => Failure(e)
    case Ok(o) =>
      if !Coerces(f) then Failure(UnicodeEncodeError)
      else
        var s := f.text;
        if HasOperator(s) then
          Ok(Select("SELECT " + o.col + " FROM " + a.table.name + " WHERE " + s, o.warned))
        else
          Ok(Select("SELECT " + o.col + " FROM " + a.table.name + " WHERE " + o.idCol + " = " + s, o.warned))
  }

  /** A bare value is the same request as the explicit equality on the primary key. */
  lemma WhereBareValueIsKeyEquality(a: Accessor, s: string)
    requires |a.table.primaryKeys| > 0
    requires !HasOperator(s)
    ensures Where(a, ByteFragment(s)) == Where(a, ByteFragment(a.table.primaryKeys[0] + " = " + s))
  {
    var clause := a.table.primaryKeys[0] + " = " + s;
    var pre := a.table.primaryKeys[0] + " ";
    assert clause == pre + ("=" + " " + s);
    ContainsAt("=" + " " + s, "=", 0);
    ContainsInConcat(pre, "=" + " " + s, "=");
    assert HasOperator(clause) by { assert Contains(clause, WhereOperators[0]); }
    var head := "SELECT " + SelectedColumns(a) + " FROM " + a.table.name + " WHERE ";
    assert head + clause == head + a.table.primaryKeys[0] + " = " + s;
  }
}
