/** The recipient table: column names and the `(name, email)` of each row, in file order. */
module Recipients {

  /** One recipient row: the cells of its `name` and `email` columns. */
  datatype Row = Row(name: string, email: string)

  /** A parsed table: its header and its rows. */
  datatype Table = Table(columns: seq<string>, rows: seq<Row>)

  /** The table has both columns the campaign reads. */
  predicate HasRequiredColumns(t: Table) {
    "email" in t.columns && "name" in t.columns
  }

  /** A table with no rows or no columns, as a data frame reports emptiness. */
  predicate IsEmpty(t: Table) {
    |t.rows| == 0 || |t.columns| == 0
  }
}
