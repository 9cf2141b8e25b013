/**
  The numpy side of the postprocessing: rectangular matrices, the raw network output (a 2-D or
  3-D array), transposition and the two reductions the code uses, `np.max` and `np.argmax`.
  Values are reals: float32 rounding, NaN and infinities are not modelled.
 */
module Tensors {

  /** A numpy matrix of `height` rows of `width` values each. The shape is kept apart from the
      cells so that a matrix of shape (0, k) still knows its width. */
  datatype Matrix = Matrix(height: nat, width: nat, cells: seq<seq<real>>) {
    predicate Valid() {
      |cells| == height && forall i :: 0 <= i < |cells| ==> |cells[i]| == width
    }
  }

  /** The first output of the inference session: a 2-D array, or a 3-D array whose first axis is
      the batch (a sequence of equally shaped matrices). */
  datatype Tensor = Rank2(matrix: Matrix) | Rank3(batch: seq<Matrix>) {
    predicate Valid() {
      match this
      case Rank2(m) => m.Valid()
      case Rank3(b) =>
        forall k :: 0 <= k < |b| ==>
          b[k].Valid() && b[k].height == b[0].height && b[k].width == b[0].width
    }
  }

  /** `np.transpose(m, (1, 0))`. */
  function Transpose(m: Matrix): (t: Matrix)
    requires m.Valid()
    ensures t.Valid() && t.height == m.width && t.width == m.height
    ensures forall i, j :: 0 <= i < t.height && 0 <= j < t.width ==> t.cells[i][j] == m.cells[j][i]
  {
    Matrix(m.width, m.height,
      seq(m.width, i requires 0 <= i < m.width =>
        seq(m.height, j requires 0 <= j < m.height => m.cells[j][i])))
  }

  /** Transposing twice gives the matrix back, so no information is lost by normalising. */
  lemma TransposeInvolution(m: Matrix)
    requires m.Valid()
    ensures Transpose(Transpose(m)) == m
  {
    var t := Transpose(Transpose(m));
    forall i | 0 <= i < m.height
      ensures t.cells[i] == m.cells[i]
    {
    }
    assert t.cells == m.cells;
  }

  /** `np.max` of a non-empty vector: an element that no element exceeds. */
  function MaxOf(s: seq<real>): (r: real)
    requires |s| > 0
    ensures r in s
    ensures forall k :: 0 <= k < |s| ==> s[k] <= r
  {
    if |s| == 1 then s[0]
    else
      var m := MaxOf(s[..|s| - 1]);
      if s[|s| - 1] > m then s[|s| - 1] else m
  }

  /** `np.argmax` of a non-empty vector: the FIRST index holding the maximum. */
  function ArgMax(s: seq<real>): (k: nat)
    requires |s| > 0
    ensures k < |s|
    ensures forall j :: 0 <= j < |s| ==> s[j] <= s[k]
    ensures forall j :: 0 <= j < k ==> s[j] < s[k]
  {
    if |s| == 1 then 0
    else
      var k := ArgMax(s[..|s| - 1]);
      if s[|s| - 1] > s[k] then |s| - 1 else k
  }
}
