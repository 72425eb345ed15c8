/**
 * The reflected schema, as the SQL toolkit hands it over: a table has a
 * name, its columns in reflected order and the names of its primary-key
 * columns in reflected order. A column's declared type is reduced to the
 * identity of its type class, so that NVARCHAR(20) and NVARCHAR(30) agree.
 */
module Schema {
  import opened Wrappers

  /**
   * `isPrimaryKey` is the column's own reflected flag, shown only in the
   * table accessor's column listing; the ORDER BY choice reads the table's
   * `primaryKeys` (the primary-key constraint, in its own order) instead.
   */
  datatype Column = Column(name: string, typeClass: nat, isPrimaryKey: bool)

  datatype Table = Table(name: string, columns: seq<Column>, primaryKeys: seq<string>)

  /**
   * A row accessor (`QueryDbOrm`): bound to a whole table when `column` is
   * `None`, otherwise to one column of `table`.
   */
  datatype Accessor = Accessor(table: Table, column: Option<Column>)
}
