/**
 * What `QueryDb._set_metadata` (query/core.py) builds from the reflected
 * tables: the browsable accessors (here an explicit map from table name to
 * the table's accessor and its column accessors, in place of the attributes
 * the source sets dynamically) and one summary row per table.
 */
module Metadata {
  import opened Wrappers
  import opened Schema

  /** A table's accessor and, by column name, the accessors of its columns. */
  datatype TableEntry = TableEntry(accessor: Accessor, columns: map<string, Accessor>)

  /** The "Primary Key(s)" cell: the key itself when there is exactly one, the list otherwise. */
  datatype KeyCell = SingleKey(key: string) | KeyList(keys: seq<string>)

  datatype SummaryRow = SummaryRow(table: string, primaryKeys: KeyCell, columnCount: nat, typeCount: nat)

  /** The column accessors set one after another: a later column of the same name wins. */
  function ColumnAccessors(t: Table, cols: seq<Column>): map<string, Accessor>
    decreases |cols|
  {
    if |cols| == 0 then map[]
    else
      var c := cols[|cols| - 1];
      ColumnAccessors(t, cols[..|cols| - 1])[c.name := Accessor(t, Some(c))]
  }

  /**
   * The column map has one key per column name, and each accessor is bound
   * to the owning table and to a column of that name.
   */
  lemma {:induction false} ColumnAccessorsShape(t: Table, cols: seq<Column>)
    ensures var m := ColumnAccessors(t, cols);
      && (forall i :: 0 <= i < |cols| ==> cols[i].name in m)
      && (forall k :: k in m ==>
            m[k].table == t && m[k].column.Some? && m[k].column.value.name == k &&
            exists i :: 0 <= i < |cols| && m[k].column.value == cols[i])
    decreases |cols|
  {
    if |cols| > 0 {
      var init := cols[..|cols| - 1];
      ColumnAccessorsShape(t, init);
      forall i | 0 <= i < |init| ensures init[i] == cols[i] { }
    }
  }

  function EntryOf(t: Table): TableEntry {
    TableEntry(Accessor(t, None), ColumnAccessors(t, t.columns))
  }

  /** The table entries set one after another: a later table of the same name wins. */
  function Inspect(tables: seq<Table>): map<string, TableEntry>
    decreases |tables|
  {
    if |tables| == 0 then map[]
    else
      var t := tables[|tables| - 1];
      Inspect(tables[..|tables| - 1])[t.name := EntryOf(t)]
  }

  /** One entry per table name, each the entry of a reflected table of that name. */
  lemma {:induction false} InspectShape(tables: seq<Table>)
    ensures var m := Inspect(tables);
      && (forall i :: 0 <= i < |tables| ==> tables[i].name in m)
      && (forall k :: k in m ==> exists i :: 0 <= i < |tables| && tables[i].name == k && m[k] == EntryOf(tables[i]))
    decreases |tables|
  {
    if |tables| > 0 {
      var init := tables[..|tables| - 1];
      InspectShape(init);
      forall i | 0 <= i < |init| ensures init[i] == tables[i] { }
    }
  }

  predicate DistinctColumnNames(cols: seq<Column>) {
    forall i, j :: 0 <= i < j < |cols| ==> cols[i].name != cols[j].name
  }

  predicate DistinctTableNames(tables: seq<Table>) {
    forall i, j :: 0 <= i < j < |tables| ==> tables[i].name != tables[j].name
  }

  /** With distinct column names, each column has an accessor bound to exactly it. */
  lemma {:induction false} ColumnAccessorsLookup(t: Table, cols: seq<Column>, i: nat)
    requires DistinctColumnNames(cols) && i < |cols|
    ensures cols[i].name in ColumnAccessors(t, cols)
    ensures ColumnAccessors(t, cols)[cols[i].name] == Accessor(t, Some(cols[i]))
    decreases |cols|
  {
    ColumnAccessorsShape(t, cols);
    if i < |cols| - 1 {
      var init := cols[..|cols| - 1];
      assert init[i] == cols[i];
      ColumnAccessorsLookup(t, init, i);
    }
  }

  /**
   * With distinct table names (the reflected tables are keyed by name), each
   * table has its own entry: a table accessor with no column, and an
   * accessor for every column of the table bound to that column and table.
   */
  lemma {:induction false} InspectLookup(tables: seq<Table>, i: nat)
    requires DistinctTableNames(tables) && i < |tables|
    ensures tables[i].name in Inspect(tables)
    ensures Inspect(tables)[tables[i].name] == EntryOf(tables[i])
    ensures Inspect(tables)[tables[i].name].accessor == Accessor(tables[i], None)
    decreases |tables|
  {
    InspectShape(tables);
    if i < |tables| - 1 {
      var init := tables[..|tables| - 1];
      assert init[i] == tables[i];
      InspectLookup(init, i);
    }
  }

  /** The distinct type classes of the columns (`set(x.type.__class__ ...)`). */
  function TypeClasses(cols: seq<Column>): (r: set<nat>)
    ensures forall i :: 0 <= i < |cols| ==> cols[i].typeClass in r
    ensures forall x :: x in r ==> exists i :: 0 <= i < |cols| && cols[i].typeClass == x
    ensures |r| <= |cols|
    ensures |cols| > 0 ==> |r| >= 1
    decreases |cols|
  {
    if |cols| == 0 then {}
    else
      var rest := TypeClasses(cols[1..]);
      forall i | 1 <= i < |cols| ensures cols[i].typeClass in rest {
        assert cols[1..][i - 1] == cols[i];
      }
      forall x | x in rest ensures exists i :: 0 <= i < |cols| && cols[i].typeClass == x {
        var j :| 0 <= j < |cols[1..]| && cols[1..][j].typeClass == x;
        assert cols[j + 1].typeClass == x;
      }
      {cols[0].typeClass} + rest
  }

  /** The summary row of one table. */
  function SummaryOf(t: Table): (r: SummaryRow)
    ensures r.table == t.name && r.columnCount == |t.columns|
    ensures r.primaryKeys.SingleKey? <==> |t.primaryKeys| == 1
    ensures r.primaryKeys.SingleKey? ==> r.primaryKeys.key == t.primaryKeys[0]
    ensures r.primaryKeys.KeyList? ==> r.primaryKeys.keys == t.primaryKeys
    ensures r.typeCount == |set i | 0 <= i < |t.columns| :: t.columns[i].typeClass|
    ensures r.typeCount <= r.columnCount
    ensures r.columnCount > 0 ==> r.typeCount >= 1
  {
    var keys := t.primaryKeys;
    assert TypeClasses(t.columns) == set i | 0 <= i < |t.columns| :: t.columns[i].typeClass;
    SummaryRow(t.name, if |keys| == 1 then SingleKey(keys[0]) else KeyList(keys),
               |t.columns|, |TypeClasses(t.columns)|)
  }

  /** The inner loop of `_set_metadata`: one accessor per column of the table. */
  method SetColumnAccessors(table: Table) returns (columns: map<string, Accessor>)
    ensures columns == ColumnAccessors(table, table.columns)
  {
    columns := map[];
    var j := 0;
    while j < |table.columns|
      invariant 0 <= j <= |table.columns|
      invariant columns == ColumnAccessors(table, table.columns[..j])
    {
      var col := table.columns[j];
      ghost var done := table.columns[..j + 1];
      assert done[..|done| - 1] == table.columns[..j] && done[|done| - 1] == col;
      columns := columns[col.name := Accessor(table, Some(col))];
      j := j + 1;
    }
    assert table.columns[..j] == table.columns;
  }

  /** Setting the entry of one more table extends the map of the tables before it. */
  lemma InspectStep(tables: seq<Table>, i: nat)
    requires i < |tables|
    ensures Inspect(tables[..i + 1]) == Inspect(tables[..i])[tables[i].name := EntryOf(tables[i])]
  {
    var seen := tables[..i + 1];
    assert seen[..|seen| - 1] == tables[..i] && seen[|seen| - 1] == tables[i];
  }

  /**
   * The outer loop of `_set_metadata`: for every table, its accessor, then
   * its column accessors, then its summary row appended.
   */
  method SetMetadata(tables: seq<Table>) returns (inspect: map<string, TableEntry>, summary: seq<SummaryRow>)
    ensures inspect == Inspect(tables)
    ensures |summary| == |tables|
    ensures forall i :: 0 <= i < |tables| ==> summary[i] == SummaryOf(tables[i])
  {
    inspect := map[];
    summary := [];
    var i := 0;
    while i < |tables|
      invariant 0 <= i <= |tables|
      invariant inspect == Inspect(tables[..i])
      invariant |summary| == i
      invariant forall k :: 0 <= k < i ==> summary[k] == SummaryOf(tables[k])
    {
      var table := tables[i];
      var tableAttr := Accessor(table, None);
      var columns := SetColumnAccessors(table);
      InspectStep(tables, i);
      inspect := inspect[table.name := TableEntry(tableAttr, columns)];
      summary := summary + [SummaryOf(table)];
      i := i + 1;
    }
    assert tables[..i] == tables;
  }
}
