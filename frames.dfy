/** The tabular data the detector consumes (a pandas DataFrame): named
    columns, each numeric or not, and rows of cells. */
module Frames {

  /** A cell: a missing value (NaN/None), a number, or a non-numeric value. */
  datatype Cell = Missing | Num(value: real) | Text(text: string)

  datatype Column = Column(name: string, numeric: bool)

  datatype Frame = Frame(columns: seq<Column>, rows: seq<seq<Cell>>)

  /** A row has one cell per column, and a numeric column's cell is a number
      or missing. */
  predicate RowFits(row: seq<Cell>, columns: seq<Column>)
  {
    && |row| == |columns|
    && forall j :: 0 <= j < |columns| && columns[j].numeric ==> !row[j].Text?
  }

  /** What pandas guarantees of every DataFrame: all rows fit the columns. */
  predicate WellFormed(f: Frame)
  {
    forall i :: 0 <= i < |f.rows| ==> RowFits(f.rows[i], f.columns)
  }

  type DataFrame = f: Frame | WellFormed(f) witness Frame([], [])

  /** A purely numeric table: column names and rows of reals. */
  datatype Matrix = Matrix(names: seq<string>, rows: seq<seq<real>>)
}
