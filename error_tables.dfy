/**
  The error table that the clustering wrapper (ver_1/app/core/clustering.py) and the chart
  helpers (vizualization/ver_1/app/visual/charts.py) work on: a pandas frame of which only
  four columns matter, each of which may be absent.
*/
module ErrorTables {
  import opened Wrappers

  /**
    A raw export_time cell: a timestamp pandas can parse (in minutes since 1970-01-01), an
    empty cell (read as NaT, which to_datetime accepts) or text to_datetime rejects.
  */
  datatype ExportCell = Stamp(minutes: int) | Blank | Garbled

  /** The columns of the frame; None is a column the frame does not have. */
  datatype ErrorTable = ErrorTable(
    rowCount: nat,
    exportTime: Option<seq<ExportCell>>,
    errorCode: Option<seq<string>>,
    parameterValue: Option<seq<real>>,
    cluster: Option<seq<int>>)

  predicate ColumnFits<T>(col: Option<seq<T>>, n: nat) {
    col.None? || |col.value| == n
  }

  /** Every column present has one cell per row. */
  predicate WellFormed(t: ErrorTable) {
    && ColumnFits(t.exportTime, t.rowCount)
    && ColumnFits(t.errorCode, t.rowCount)
    && ColumnFits(t.parameterValue, t.rowCount)
    && ColumnFits(t.cluster, t.rowCount)
  }

  /** A column of n zeros, as df['parameter_value'] = 0 writes it. */
  function Zeros(n: nat): (z: seq<real>)
    ensures |z| == n
    ensures forall i :: 0 <= i < n ==> z[i] == 0.0
  {
    seq(n, i => 0.0)
  }

  /** A frame the caller owns: the functions that take it as an argument write into it. */
  class ErrorFrame {
    var rowCount: nat
    var exportTime: Option<seq<ExportCell>>
    var errorCode: Option<seq<string>>
    var parameterValue: Option<seq<real>>
    var cluster: Option<seq<int>>

    constructor (t: ErrorTable)
      ensures Contents() == t
      ensures Valid() <==> WellFormed(t)
    {
      rowCount, exportTime, errorCode, parameterValue, cluster :=
        t.rowCount, t.exportTime, t.errorCode, t.parameterValue, t.cluster;
    }

    /** The frame's current contents as a value: what df.copy() hands to the pure chart code. */
    function Contents(): ErrorTable
      reads this
    {
      ErrorTable(rowCount, exportTime, errorCode, parameterValue, cluster)
    }

    predicate Valid()
      reads this
    {
      WellFormed(Contents())
    }
  }
}
