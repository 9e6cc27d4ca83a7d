/** The routines every normal generator inherits. getNormalVector and getNormalMatrix are
    written once, in the base class, in terms of the variant hook getNormal alone. Here a getNormal
    call is an abstract step: from the position of the next uniform draw and the member Z it
    yields the value returned and the new position and Z, or None when the call does not return a
    real number. Everything proved in this module holds whichever generator supplies the step. */
module NormalRuns {

  datatype Option<T> = None | Some(value: T)

  /** The outcome of one getNormal call: the value returned, the position of the next uniform
      draw, and the member Z afterwards. */
  datatype Draw = Draw(value: real, next: nat, z: real)

  /** One getNormal call, as the base-class routines see it. */
  type Step = (nat, real) -> Option<Draw>

  /** The outcome of several getNormal calls in a row. */
  datatype Run = Run(values: seq<real>, next: nat, z: real)

  /** The outcome of filling a matrix, row after row. */
  datatype MatrixRun = MatrixRun(rows: seq<seq<real>>, next: nat, z: real)

  /** n calls in a row from position d and Z = z, or None if one of them does not return a real
      number. */
  function Normals(step: Step, d: nat, z: real, n: nat): (r: Option<Run>)
    ensures r.Some? ==> |r.value.values| == n
  {
    if n == 0 then Some(Run([], d, z))
    else
      match Normals(step, d, z, n - 1)
      case None => None
      case Some(p) =>
        match step(p.next, p.z)
        case None => None
        case Some(dr) => Some(Run(p.values + [dr.value], dr.next, dr.z))
  }

  /** n rows of m calls each, all columns of a row before the next row. */
  function NormalRows(step: Step, d: nat, z: real, n: nat, m: nat): (r: Option<MatrixRun>)
    ensures r.Some? ==> |r.value.rows| == n && forall p :: 0 <= p < n ==> |r.value.rows[p]| == m
  {
    if n == 0 then Some(MatrixRun([], d, z))
    else
      match NormalRows(step, d, z, n - 1, m)
      case None => None
      case Some(p) =>
        match Normals(step, p.next, p.z, m)
        case None => None
        case Some(row) => Some(MatrixRun(p.rows + [row.values], row.next, row.z))
  }

  /** The calls of a longer run begin with those of a shorter one. */
  lemma {:induction false} NormalsPrefix(step: Step, d: nat, z: real, k: nat, n: nat)
    requires k <= n && Normals(step, d, z, n).Some?
    ensures Normals(step, d, z, k).Some?
    ensures Normals(step, d, z, k).value.values == Normals(step, d, z, n).value.values[..k]
    decreases n
  {
    if k < n {
      NormalsPrefix(step, d, z, k, n - 1);
      var p := Normals(step, d, z, n - 1).value;
      assert Normals(step, d, z, n).value.values[..n - 1] == p.values;
    }
  }

  /** Running a + b calls is running a calls and then b more from where they left off. */
  lemma {:induction false} NormalsSplit(step: Step, d: nat, z: real, a: nat, b: nat)
    ensures Normals(step, d, z, a + b) ==
      match Normals(step, d, z, a)
      case None => None
      case Some(p) =>
        match Normals(step, p.next, p.z, b)
        case None => None
        case Some(q) => Some(Run(p.values + q.values, q.next, q.z))
    decreases b
  {
    if b > 0 {
      NormalsSplit(step, d, z, a, b - 1);
      match Normals(step, d, z, a)
      case None =>
      case Some(p) =>
        match Normals(step, p.next, p.z, b - 1)
        case None =>
        case Some(q) =>
          match step(q.next, q.z)
          case None =>
          case Some(dr) =>
            assert (p.values + q.values) + [dr.value] == p.values + (q.values + [dr.value]);
    } else if Normals(step, d, z, a).Some? {
      var p := Normals(step, d, z, a).value;
      assert p.values + [] == p.values;
    }
  }

  /** The rows of a taller matrix begin with those of a shorter one. */
  lemma {:induction false} RowsPrefix(step: Step, d: nat, z: real, k: nat, n: nat, m: nat)
    requires k <= n && NormalRows(step, d, z, n, m).Some?
    ensures NormalRows(step, d, z, k, m).Some?
    ensures NormalRows(step, d, z, k, m).value.rows == NormalRows(step, d, z, n, m).value.rows[..k]
    decreases n
  {
    if k < n {
      RowsPrefix(step, d, z, k, n - 1, m);
      var p := NormalRows(step, d, z, n - 1, m).value;
      assert NormalRows(step, d, z, n, m).value.rows[..n - 1] == p.rows;
    }
  }

  /** The rows laid end to end. */
  function Concat(rows: seq<seq<real>>): seq<real> {
    if rows == [] then [] else Concat(rows[..|rows| - 1]) + rows[|rows| - 1]
  }

  lemma MulSucc(k: nat, m: nat)
    ensures (k + 1) * m == k * m + m
  {
  }

  lemma MulMonotone(a: nat, b: nat, m: nat)
    requires a <= b
    ensures a * m <= b * m
  {
  }

  /** Row p, column c of an n-by-m matrix sits at p*m + c, inside the n*m entries. */
  lemma RowMajorBound(p: nat, c: nat, n: nat, m: nat)
    requires p < n && c < m
    ensures p * m + c < n * m
  {
    MulSucc(p, m);
    MulMonotone(p + 1, n, m);
  }

  lemma {:induction false} ConcatLength(rows: seq<seq<real>>, m: nat)
    requires forall q :: 0 <= q < |rows| ==> |rows[q]| == m
    ensures |Concat(rows)| == |rows| * m
    decreases |rows|
  {
    if rows != [] {
      ConcatLength(rows[..|rows| - 1], m);
      MulSucc(|rows| - 1, m);
    }
  }

  /** Entry c of row p is element p*m + c of the rows laid end to end. */
  lemma {:induction false} ConcatIndex(rows: seq<seq<real>>, m: nat, p: nat, c: nat)
    requires forall q :: 0 <= q < |rows| ==> |rows[q]| == m
    requires p < |rows| && c < m
    ensures p * m + c < |Concat(rows)| && Concat(rows)[p * m + c] == rows[p][c]
    decreases |rows|
  {
    var n := |rows|;
    var front := rows[..n - 1];
    ConcatLength(front, m);
    ConcatLength(rows, m);
    if p < n - 1 {
      ConcatIndex(front, m, p, c);
      RowMajorBound(p, c, n - 1, m);
    }
  }

  /** Filling n rows of m uses exactly the n*m values that n*m calls in a row return, laid out
      row after row, and leaves the generator in the same state. */
  lemma {:induction false} RowsAreConsecutiveNormals(step: Step, d: nat, z: real, n: nat, m: nat)
    ensures NormalRows(step, d, z, n, m).Some? <==> Normals(step, d, z, n * m).Some?
    ensures NormalRows(step, d, z, n, m).Some? ==>
      var r := NormalRows(step, d, z, n, m).value;
      var s := Normals(step, d, z, n * m).value;
      Concat(r.rows) == s.values && r.next == s.next && r.z == s.z
    decreases n
  {
    if n > 0 {
      RowsAreConsecutiveNormals(step, d, z, n - 1, m);
      MulSucc(n - 1, m);
      NormalsSplit(step, d, z, (n - 1) * m, m);
      match NormalRows(step, d, z, n - 1, m)
      case None =>
      case Some(p) =>
        var rows := NormalRows(step, d, z, n, m);
        if rows.Some? {
          assert rows.value.rows[..n - 1] == p.rows;
        }
    }
  }

  /** getNormalMatrix fills row-major: entry (p, c) of an n-by-m fill is the (p*m + c)-th of n*m
      consecutive normals. */
  lemma MatrixIsRowMajor(step: Step, d: nat, z: real, n: nat, m: nat, p: nat, c: nat)
    requires NormalRows(step, d, z, n, m).Some? && p < n && c < m
    ensures Normals(step, d, z, n * m).Some? && p * m + c < n * m
    ensures NormalRows(step, d, z, n, m).value.rows[p][c] == Normals(step, d, z, n * m).value.values[p * m + c]
  {
    RowsAreConsecutiveNormals(step, d, z, n, m);
    ConcatIndex(NormalRows(step, d, z, n, m).value.rows, m, p, c);
    RowMajorBound(p, c, n, m);
  }
}
