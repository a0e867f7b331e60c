/**
 * A pandas DataFrame as the pipeline uses it: an ordered list of column
 * labels and a list of rows, each row mapping every label to a numeric cell.
 */
module Frames {
  import opened Outcomes
  import opened Seqs

  type Row = map<string, real>

  datatype Table = Table(columns: seq<string>, rows: seq<Row>)

  function ColumnSet(columns: seq<string>): set<string> {
    set c | c in columns
  }

  /** Every row carries exactly the frame's columns, as a CSV file read by pandas does. */
  predicate Rectangular(t: Table) {
    forall i :: 0 <= i < |t.rows| ==> t.rows[i].Keys == ColumnSet(t.columns)
  }

  type Frame = t: Table | Rectangular(t) witness Table([], [])

  /** The file system as `pd.read_csv` sees it: a path that cannot be read maps to `None`. */
  type Reader = string -> Option<Frame>

  function ReadCsv(read: Reader, path: string): (r: Result<Frame>)
    ensures r.Ok? <==> read(path).Some?
    ensures r.Err? ==> r.error == FileNotFound(path)
  {
    match read(path)
    case Some(f) => Ok(f)
    case None => Err(FileNotFound(path))
  }

  /** `df.drop(columns=names, errors="ignore")`: absent labels are skipped silently. */
  function DropColumns(f: Frame, names: seq<string>): (r: Frame)
    ensures r.columns == Filter(f.columns, c => c !in names)
    ensures forall c :: c in r.columns <==> c in f.columns && c !in names
    ensures |r.rows| == |f.rows|
    ensures forall i :: 0 <= i < |r.rows| ==> r.rows[i] == f.rows[i] - ColumnSet(names)
  {
    var dropped := ColumnSet(names);
    var columns := Filter(f.columns, c => c !in names);
    FilterMembers(f.columns, c => c !in names);
    var rows := seq(|f.rows|, i requires 0 <= i < |f.rows| => f.rows[i] - dropped);
    assert ColumnSet(columns) == ColumnSet(f.columns) - dropped;
    assert forall i :: 0 <= i < |rows| ==> f.rows[i] in f.rows;
    Table(columns, rows)
  }

  /** `df.drop(columns=[name])`: an absent label raises `KeyError`. */
  function DropColumn(f: Frame, name: string): (r: Result<Frame>)
    ensures r.Err? <==> name !in f.columns
    ensures r.Err? ==> r.error == KeyError(name)
    ensures r.Ok? ==> r.value.columns == Filter(f.columns, c => c !in [name])
    ensures r.Ok? ==> (forall c :: c in r.value.columns <==> c in f.columns && c != name)
    ensures r.Ok? ==> |r.value.rows| == |f.rows|
    ensures r.Ok? ==> forall i :: 0 <= i < |f.rows| ==> r.value.rows[i] == f.rows[i] - {name}
  {
    if name in f.columns then
      assert ColumnSet([name]) == {name};
      Ok(DropColumns(f, [name]))
    else Err(KeyError(name))
  }

  /** `df[name]`: the column's cells in row order; an absent label raises `KeyError`. */
  function Column(f: Frame, name: string): (r: Result<seq<real>>)
    ensures r.Err? <==> name !in f.columns
    ensures r.Ok? ==> |r.value| == |f.rows|
    ensures r.Ok? ==> forall i :: 0 <= i < |f.rows| ==> name in f.rows[i] && r.value[i] == f.rows[i][name]
  {
    if name in f.columns then
      assert forall i :: 0 <= i < |f.rows| ==> f.rows[i] in f.rows;
      Ok(seq(|f.rows|, i requires 0 <= i < |f.rows| => f.rows[i][name]))
    else Err(KeyError(name))
  }

  /**
   * `df[name] = value(row)` for every row: an existing column keeps its
   * position and is overwritten, a new one is appended at the right.
   */
  function AssignColumn(f: Frame, name: string, value: Row -> real): (r: Frame)
    ensures r.columns == if name in f.columns then f.columns else f.columns + [name]
    ensures |r.rows| == |f.rows|
    ensures forall i :: 0 <= i < |r.rows| ==> r.rows[i] == f.rows[i][name := value(f.rows[i])]
  {
    var columns := if name in f.columns then f.columns else f.columns + [name];
    var rows := seq(|f.rows|, i requires 0 <= i < |f.rows| => f.rows[i][name := value(f.rows[i])]);
    assert ColumnSet(columns) == ColumnSet(f.columns) + {name};
    assert forall i :: 0 <= i < |rows| ==> f.rows[i] in f.rows;
    Table(columns, rows)
  }

  /** `df[keep(df)]` for a row mask: the rows that pass, in their original order. */
  function FilterRows(f: Frame, keep: Row -> bool): (r: Frame)
    ensures r.columns == f.columns
    ensures r.rows == Filter(f.rows, keep)
  {
    var rows := Filter(f.rows, keep);
    FilterMembers(f.rows, keep);
    assert forall i :: 0 <= i < |rows| ==> rows[i] in rows;
    assert forall r :: r in f.rows ==> r.Keys == ColumnSet(f.columns);
    Table(f.columns, rows)
  }
}
