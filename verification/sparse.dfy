/** Sparse matrices keyed by (row, column) positions, and their product with a
    row of possibly-missing values. */
module Sparse {
  import opened Wrappers

  /** A `rows` x `cols` matrix; positions absent from `entries` hold 0. */
  datatype SparseMatrix = SparseMatrix(rows: nat, cols: nat, entries: map<(nat, nat), real>)
  {
    /** Every stored position lies inside the shape. */
    predicate WellFormed()
    {
      forall key :: key in entries ==> key.0 < rows && key.1 < cols
    }

    function Entry(i: nat, j: nat): real
    {
      if (i, j) in entries then entries[(i, j)] else 0.0
    }
  }

  /** Addition in which a missing operand makes the sum missing, as NaN does. */
  function AddOpt(a: Option<real>, b: Option<real>): Option<real>
  {
    if a.Some? && b.Some? then Some(a.value + b.value) else None
  }

  /** Sum of a sequence of cells; missing as soon as one cell is. */
  function SumSeq(xs: seq<Option<real>>): Option<real>
  {
    if |xs| == 0 then Some(0.0) else AddOpt(xs[0], SumSeq(xs[1..]))
  }

  /** One term of a sparse product: an unstored weight contributes nothing,
      a stored weight times a missing value is missing. */
  function Term(w: Option<real>, x: Option<real>): Option<real>
  {
    if w.None? then Some(0.0)
    else if x.None? then None
    else Some(w.value * x.value)
  }

  /** Sparse dot product of stored weights `ws` with values `xs`. */
  function Dot(ws: seq<Option<real>>, xs: seq<Option<real>>): Option<real>
    requires |ws| == |xs|
  {
    if |ws| == 0 then Some(0.0) else AddOpt(Term(ws[0], xs[0]), Dot(ws[1..], xs[1..]))
  }

  /** The stored weights of row `i`. */
  function RowWeights(m: SparseMatrix, i: nat): (ws: seq<Option<real>>)
    ensures |ws| == m.cols
    ensures forall j :: 0 <= j < m.cols ==> (ws[j].Some? <==> (i, j) in m.entries)
  {
    seq(m.cols, j => if (i, j) in m.entries then Some(m.entries[(i, j)]) else None)
  }

  /** The matrix applied to one row of values (one timestamp). */
  function MatVec(m: SparseMatrix, xs: seq<Option<real>>): (r: seq<Option<real>>)
    requires |xs| == m.cols
    ensures |r| == m.rows
  {
    seq(m.rows, (i: int) requires 0 <= i < m.rows => Dot(RowWeights(m, i), xs))
  }
}
