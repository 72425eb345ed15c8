/**
 * The argument checks and the result-mode choice of `QueryDb.query`
 * (query/core.py), under the Python 2 string model the source is written
 * for: a byte string is taken as it is, a unicode string goes through
 * `str()`, anything else is refused. The statement itself is not executed.
 */
module Dispatch {
  import opened Text

  datatype SqlArgument = ByteString(text: string) | UnicodeString(text: string) | NotAString

  /**
   * Which way the statement would be run, or the error raised before it is:
   * `QueryDbError` for a bad argument or mode, `UnicodeEncodeError` when
   * `str()` of a unicode string meets a non-ASCII character.
   */
  datatype QueryOutcome =
    | DataFrameMode(sql: string)
    | ResultMode(sql: string)
    | QueryDbError(message: string)
    | UnicodeEncodeError

  const NotAStringMessage := "query() requires a str or unicode input."
  const UnknownModeMessage := "Other return types not implemented."

  const DataFrameModes: seq<string> := ["DF", "DATAFRAME"]
  const ResultModes: seq<string> := ["RESULT", "RESULTPROXY"]

  /** The argument reaches `sqlalchemy.sql.text` without raising. */
  predicate Accepted(q: SqlArgument) {
    q.ByteString? || (q.UnicodeString? && IsAscii(q.text))
  }

  /** `query(sql_query, return_as)`, up to the point where the engine is called. */
  function Query(q: SqlArgument, returnAs: string): (r: QueryOutcome)
    ensures q.NotAString? ==> r == QueryDbError(NotAStringMessage)
    ensures q.UnicodeString? && !IsAscii(q.text) ==> r == UnicodeEncodeError
    ensures Accepted(q) ==>
      && (r.DataFrameMode? <==> Upper(returnAs) in DataFrameModes)
      && (r.ResultMode? <==> Upper(returnAs) in ResultModes)
      && (r.QueryDbError? <==> Upper(returnAs) !in DataFrameModes + ResultModes)
    ensures r.DataFrameMode? || r.ResultMode? ==> Accepted(q) && r.sql == q.text
    ensures Accepted(q) && r.QueryDbError? ==> r.message == UnknownModeMessage
  {
    if q.NotAString? then QueryDbError(NotAStringMessage)
    else if q.UnicodeString? && !IsAscii(q.text) then UnicodeEncodeError
    else
      var mode := Upper(returnAs);
      if mode in DataFrameModes then DataFrameMode(q.text)
      else if mode in ResultModes then ResultMode(q.text)
      else QueryDbError(UnknownModeMessage)
  }

  /** The result mode is matched without regard to letter case. */
  lemma ModeIsCaseInsensitive(q: SqlArgument, mode1: string, mode2: string)
    requires Upper(mode1) == Upper(mode2)
    ensures Query(q, mode1) == Query(q, mode2)
  {
  }

  /** A bad argument is refused whatever the mode, even a mode that would itself be refused. */
  lemma ArgumentCheckedBeforeMode(mode1: string, mode2: string)
    ensures Query(NotAString, mode1) == Query(NotAString, mode2) == QueryDbError(NotAStringMessage)
  {
  }

  /** The default mode, "dataframe", runs a byte-string statement into a data frame. */
  lemma DefaultModeIsDataFrame(sql: string)
    ensures Query(ByteString(sql), "dataframe") == DataFrameMode(sql)
  {
    assert Upper("dataframe") == "DATAFRAME";
  }

  /** "result" asks for the raw result handle. */
  lemma ResultModeByName(sql: string)
    ensures Query(ByteString(sql), "result") == ResultMode(sql)
  {
    assert Upper("result") == "RESULT";
  }

  /** An unknown mode such as "junk" is refused before anything is executed. */
  lemma JunkModeRejected(sql: string)
    ensures Query(ByteString(sql), "junk") == QueryDbError(UnknownModeMessage)
  {
    assert |Upper("junk")| == 4;
  }
}
