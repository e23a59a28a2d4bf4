/**
 * The index-arithmetic linear algebra of engine/util/UtilMath.h and the
 * box-sphere test of engine/util/UtilMath.cpp.  The templates are
 * instantiated over `real`, so arithmetic is exact; matrices are row-major
 * arrays, entry (r, c) of a `dim`-square matrix at `r * dim + c`.
 */
module UtilMath {

  /** `r * dim`, the position where row `r` of a `dim`-square matrix starts, by repeated addition. */
  function Offset(r: nat, dim: nat): nat {
    if r == 0 then 0 else Offset(r - 1, dim) + dim
  }

  /** The position of entry (r, c) of a row-major `dim`-square matrix. */
  function Idx(r: nat, c: nat, dim: nat): (k: nat)
    requires r < dim && c < dim
    ensures k < dim * dim
  {
    OffsetBelowSquare(r, dim);
    Offset(r, dim) + c
  }

  /** `u[0] * v[0] + ... + u[n-1] * v[n-1]`. */
  function Dot(u: seq<real>, v: seq<real>, n: nat): real
    requires n <= |u| && n <= |v|
  {
    if n == 0 then 0.0 else Dot(u, v, n - 1) + u[n - 1] * v[n - 1]
  }

  /** The first `n` products of row `r` of the `dim`-square `m` with `v`. */
  function RowTimes(m: seq<real>, v: seq<real>, dim: nat, r: nat, n: nat): real
    requires r < dim && n <= dim && dim * dim <= |m| && n <= |v|
  {
    if n == 0 then 0.0 else RowTimes(m, v, dim, r, n - 1) + m[Idx(r, n - 1, dim)] * v[n - 1]
  }

  /** The first `n` products of row `r` of `a` with column `c` of `b`, both `dim`-square. */
  function Entry(a: seq<real>, b: seq<real>, dim: nat, r: nat, c: nat, n: nat): real
    requires r < dim && c < dim && n <= dim && dim * dim <= |a| && dim * dim <= |b|
  {
    if n == 0 then 0.0 else Entry(a, b, dim, r, c, n - 1) + a[Idx(r, n - 1, dim)] * b[Idx(n - 1, c, dim)]
  }

  // ---------------------------------------------------------------------------
  // Index arithmetic
  // ---------------------------------------------------------------------------

  lemma {:induction false} OffsetIsProduct(r: nat, dim: nat)
    ensures Offset(r, dim) == r * dim
  {
    if r > 0 {
      OffsetIsProduct(r - 1, dim);
    }
  }

  lemma OffsetBelowSquare(r: nat, dim: nat)
    requires r < dim
    ensures Offset(r, dim) + dim <= dim * dim
  {
    OffsetIsProduct(r, dim);
    MulLe(r + 1, dim, dim);
  }

  lemma MulLe(a: nat, b: nat, m: nat)
    requires a <= b
    ensures a * m <= b * m
  {
  }

  /** A later row starts at least a whole row further on. */
  lemma {:induction false} OffsetGrows(r: nat, r2: nat, dim: nat)
    requires r < r2
    ensures Offset(r, dim) + dim <= Offset(r2, dim)
  {
    if r + 1 < r2 {
      OffsetGrows(r, r2 - 1, dim);
    }
  }

  /** `r * dim + c`, as the templates compute it, is the position of cell (r, c). */
  lemma RowMajor(r: nat, c: nat, dim: nat, k: int)
    requires r < dim && c < dim && k == r * dim + c
    ensures k == Idx(r, c, dim)
  {
    OffsetIsProduct(r, dim);
  }

  /** Distinct cells of the square have distinct positions. */
  lemma IdxInjective(r: nat, c: nat, r2: nat, c2: nat, dim: nat)
    requires r < dim && c < dim && r2 < dim && c2 < dim
    requires Idx(r, c, dim) == Idx(r2, c2, dim)
    ensures r == r2 && c == c2
  {
    if r < r2 {
      OffsetGrows(r, r2, dim);
    } else if r2 < r {
      OffsetGrows(r2, r, dim);
    }
  }

  /** Every position below `dim * dim` is the cell (k / dim, k % dim). */
  lemma CellOf(k: nat, dim: nat)
    requires k < dim * dim
    ensures 0 < dim && k / dim < dim && k % dim < dim
    ensures Idx(k / dim, k % dim, dim) == k
  {
    RowOfPosition(k, dim);
    OffsetIsProduct(k / dim, dim);
  }

  /** A position below `dim * dim` lies in one of the `dim` rows. */
  lemma RowOfPosition(k: nat, dim: nat)
    requires k < dim * dim
    ensures 0 < dim && k / dim < dim && k % dim < dim
  {
    if k / dim >= dim {
      MulLe(dim, k / dim, dim);
    }
  }

  /** The cell (r, c) is found again by division and remainder. */
  lemma RowColOfIdx(r: nat, c: nat, dim: nat)
    requires r < dim && c < dim
    ensures Idx(r, c, dim) / dim == r && Idx(r, c, dim) % dim == c
  {
    var k := Idx(r, c, dim);
    CellOf(k, dim);
    IdxInjective(r, c, k / dim, k % dim, dim);
  }

  // ---------------------------------------------------------------------------
  // The templates of UtilMath.h
  // ---------------------------------------------------------------------------

  /** `MatrixMul4x4`: `resMat` becomes the product of the 4x4 matrices `mat1` and `mat2`. */
  method MatrixMul4x4(mat1: array<real>, mat2: array<real>, resMat: array<real>)
    requires mat1.Length >= 16 && mat2.Length >= 16 && resMat.Length >= 16
    requires resMat != mat1 && resMat != mat2
    modifies resMat
    ensures forall r, c :: 0 <= r < 4 && 0 <= c < 4 ==> resMat[Idx(r, c, 4)] == Entry(mat1[..], mat2[..], 4, r, c, 4)
    ensures forall k :: 16 <= k < resMat.Length ==> resMat[k] == old(resMat[k])
  {
    ghost var a, b := mat1[..], mat2[..];
    for row := 0 to 4
      invariant forall r, c :: 0 <= r < row && 0 <= c < 4 ==> resMat[4 * r + c] == Entry(a, b, 4, r, c, 4)
      invariant forall k :: 16 <= k < resMat.Length ==> resMat[k] == old(resMat[k])
    {
      for col := 0 to 4
        invariant forall r, c :: 0 <= r < row && 0 <= c < 4 ==> resMat[4 * r + c] == Entry(a, b, 4, r, c, 4)
        invariant forall c :: 0 <= c < col ==> resMat[4 * row + c] == Entry(a, b, 4, row, c, 4)
        invariant forall k :: 16 <= k < resMat.Length ==> resMat[k] == old(resMat[k])
      {
        var idx := 4 * row + col;
        resMat[idx] := ProductCell(mat1, mat2, row, col);
      }
    }
    CellsOfFour();
  }

  /** The value `MatrixMul4x4` writes at row `row`, column `col`: four products summed. */
  method ProductCell(mat1: array<real>, mat2: array<real>, row: nat, col: nat) returns (v: real)
    requires mat1.Length >= 16 && mat2.Length >= 16 && row < 4 && col < 4
    ensures v == Entry(mat1[..], mat2[..], 4, row, col, 4)
  {
    v := mat1[4 * row] * mat2[col] +
      mat1[4 * row + 1] * mat2[4 + col] +
      mat1[4 * row + 2] * mat2[8 + col] +
      mat1[4 * row + 3] * mat2[12 + col];
    EntryOfFour(mat1[..], mat2[..], row, col);
  }

  /** The sixteen cells of a 4x4 matrix lie at `4 * r + c`. */
  lemma CellsOfFour()
    ensures forall r, c :: 0 <= r < 4 && 0 <= c < 4 ==> Idx(r, c, 4) == 4 * r + c
  {
    forall r, c | 0 <= r < 4 && 0 <= c < 4
      ensures Idx(r, c, 4) == 4 * r + c
    {
      OffsetIsProduct(r, 4);
    }
  }

  /** A 4x4 product entry written out term by term, as `MatrixMul4x4` computes it. */
  lemma EntryOfFour(a: seq<real>, b: seq<real>, r: nat, c: nat)
    requires r < 4 && c < 4 && 16 <= |a| && 16 <= |b|
    ensures Entry(a, b, 4, r, c, 4) ==
      a[4 * r] * b[c] + a[4 * r + 1] * b[4 + c] + a[4 * r + 2] * b[8 + c] + a[4 * r + 3] * b[12 + c]
  {
    CellsOfFour();
    assert Entry(a, b, 4, r, c, 1) == a[4 * r] * b[c];
    assert Entry(a, b, 4, r, c, 2) == Entry(a, b, 4, r, c, 1) + a[4 * r + 1] * b[4 + c];
    assert Entry(a, b, 4, r, c, 3) == Entry(a, b, 4, r, c, 2) + a[4 * r + 2] * b[8 + c];
  }

  /** `DotProduct`: the sum of the first `dim` pairwise products. */
  method DotProduct(vec1: array<real>, vec2: array<real>, dim: nat) returns (res: real)
    requires dim <= vec1.Length && dim <= vec2.Length
    ensures res == Dot(vec1[..], vec2[..], dim)
  {
    res := 0.0;
    for i := 0 to dim
      invariant res == Dot(vec1[..], vec2[..], i)
    {
      res := res + vec1[i] * vec2[i];
    }
  }

  /** `ScalarMul`: the first `dim` entries are scaled in place; the rest are untouched. */
  method ScalarMul(scalar: real, vec: array<real>, dim: nat)
    requires dim <= vec.Length
    modifies vec
    ensures vec[..] == Scaled(old(vec[..]), scalar, dim)
  {
    for i := 0 to dim
      invariant vec[..] == Scaled(old(vec[..]), scalar, i)
    {
      ghost var before := vec[..];
      var scaled := vec[i] * scalar;
      vec[i] := scaled;
      ScaledStep(old(vec[..]), scalar, i, before, scaled, vec[..]);
    }
  }

  /** Scaling one more entry of a partly scaled sequence. */
  lemma ScaledStep(s: seq<real>, k: real, i: nat, cur: seq<real>, x: real, next: seq<real>)
    requires i < |s| && cur == Scaled(s, k, i)
    requires x == cur[i] * k && next == cur[i := x]
    ensures next == Scaled(s, k, i + 1)
  {
    var t := Scaled(s, k, i + 1);
    assert |next| == |t|;
    forall j | 0 <= j < |t|
      ensures next[j] == t[j]
    {
      if j != i {
        assert next[j] == cur[j];
      }
    }
  }

  /** `s` with its first `n` entries multiplied by `k`. */
  function Scaled(s: seq<real>, k: real, n: nat): (r: seq<real>)
    requires n <= |s|
    ensures |r| == |s|
    ensures forall i :: 0 <= i < n ==> r[i] == s[i] * k
    ensures forall i :: n <= i < |s| ==> r[i] == s[i]
  {
    seq(|s|, i requires 0 <= i < |s| => if i < n then s[i] * k else s[i])
  }

  /** `MatMulVec`: `res[r]` becomes row `r` of `mat` times `vec`. */
  method MatMulVec(mat: array<real>, vec: array<real>, dim: nat, res: array<real>)
    requires dim * dim <= mat.Length && dim <= vec.Length && dim <= res.Length
    requires res != mat && res != vec
    modifies res
    ensures forall r :: 0 <= r < dim ==> res[r] == RowTimes(mat[..], vec[..], dim, r, dim)
    ensures forall k :: dim <= k < res.Length ==> res[k] == old(res[k])
  {
    ghost var m, v := mat[..], vec[..];
    for row := 0 to dim
      invariant forall r :: 0 <= r < row ==> res[r] == RowTimes(m, v, dim, r, dim)
      invariant forall k :: dim <= k < res.Length ==> res[k] == old(res[k])
    {
      var ele := 0.0;
      for col := 0 to dim
        invariant ele == RowTimes(m, v, dim, row, col)
        invariant forall r :: 0 <= r < row ==> res[r] == RowTimes(m, v, dim, r, dim)
        invariant forall k :: dim <= k < res.Length ==> res[k] == old(res[k])
      {
        var idx := row * dim + col;
        RowMajor(row, col, dim, idx);
        ele := ele + mat[idx] * vec[col];
      }
      res[row] := ele;
    }
  }

  /** `VecAdd`: the first `dim` entries of `res` become the sums; `res` may be one of the inputs. */
  method VecAdd(vec1: array<real>, vec2: array<real>, dim: nat, res: array<real>)
    requires dim <= vec1.Length && dim <= vec2.Length && dim <= res.Length
    modifies res
    ensures res[..] == Added(old(vec1[..]), old(vec2[..]), old(res[..]), dim)
  {
    for i := 0 to dim
      invariant res[..] == Added(old(vec1[..]), old(vec2[..]), old(res[..]), i)
      invariant forall j :: i <= j < vec1.Length ==> vec1[j] == old(vec1[j])
      invariant forall j :: i <= j < vec2.Length ==> vec2[j] == old(vec2[j])
    {
      res[i] := vec1[i] + vec2[i];
    }
  }

  /** `rest` with its first `n` entries replaced by `u[i] + v[i]`. */
  function Added(u: seq<real>, v: seq<real>, rest: seq<real>, n: nat): (r: seq<real>)
    requires n <= |u| && n <= |v| && n <= |rest|
    ensures |r| == |rest|
    ensures forall i :: 0 <= i < n ==> r[i] == u[i] + v[i]
    ensures forall i :: n <= i < |rest| ==> r[i] == rest[i]
  {
    seq(|rest|, i requires 0 <= i < |rest| => if i < n then u[i] + v[i] else rest[i])
  }

  /** The cross product of two 3-vectors. */
  function Cross(a: seq<real>, b: seq<real>): (r: seq<real>)
    requires |a| >= 3 && |b| >= 3
    ensures |r| == 3
  {
    [a[1] * b[2] - a[2] * b[1], a[2] * b[0] - a[0] * b[2], a[0] * b[1] - a[1] * b[0]]
  }

  /** `CrossProductVec3`: the first three entries of `resVec` become `vec1 x vec2`. */
  method CrossProductVec3(vec1: array<real>, vec2: array<real>, resVec: array<real>)
    requires vec1.Length >= 3 && vec2.Length >= 3 && resVec.Length >= 3
    requires resVec != vec1 && resVec != vec2
    modifies resVec
    ensures resVec[..3] == Cross(vec1[..], vec2[..])
    ensures resVec[3..] == old(resVec[3..])
  {
    resVec[0] := vec1[1] * vec2[2] - vec1[2] * vec2[1];
    resVec[1] := vec1[2] * vec2[0] - vec1[0] * vec2[2];
    resVec[2] := vec1[0] * vec2[1] - vec1[1] * vec2[0];
    ghost var x := Cross(vec1[..], vec2[..]);
    assert x[0] == resVec[0] && x[1] == resVec[1] && x[2] == resVec[2];
    assert resVec[..3] == [resVec[0], resVec[1], resVec[2]];
  }

  /** The position of the mirror image of position `k` across the diagonal. */
  function Mirror(k: nat, dim: nat): (j: nat)
    requires k < dim * dim
    ensures j < dim * dim
  {
    CellOf(k, dim);
    Idx(k % dim, k / dim, dim)
  }

  /** `s` with its leading `dim`-square block transposed. */
  function Transposed(s: seq<real>, dim: nat): (t: seq<real>)
    requires dim * dim <= |s|
    ensures |t| == |s|
  {
    seq(|s|, k requires 0 <= k < |s| => if k < dim * dim then s[Mirror(k, dim)] else s[k])
  }

  /** Whether the pass that has reached (`row`, `col`) has already exchanged cell (r, c) with its mirror. */
  predicate Exchanged(r: nat, c: nat, row: nat, col: nat) {
    if r < c then r < row || (r == row && c < col)
    else c < r && (c < row || (c == row && r < col))
  }

  /** The matrix `cur`, partly transposed from `before`: exchanged cells hold their mirror's old value. */
  ghost predicate PartlyTransposed(cur: seq<real>, before: seq<real>, dim: nat, row: nat, col: nat)
    requires |cur| == |before| && dim * dim <= |before|
  {
    (forall r, c :: 0 <= r < dim && 0 <= c < dim ==>
      cur[Idx(r, c, dim)] == if Exchanged(r, c, row, col) then before[Idx(c, r, dim)] else before[Idx(r, c, dim)]) &&
    (forall k :: dim * dim <= k < |cur| ==> cur[k] == before[k])
  }

  /**
   * `MatTranspose`: the leading `dim`-square block is transposed in place by
   * exchanging each cell above the diagonal with its mirror; entries past
   * `dim * dim` are untouched.
   */
  method MatTranspose(mat: array<real>, dim: nat)
    requires dim * dim <= mat.Length
    modifies mat
    ensures mat[..] == Transposed(old(mat[..]), dim)
  {
    for row := 0 to dim
      invariant PartlyTransposed(mat[..], old(mat[..]), dim, row, row + 1)
    {
      for col := row + 1 to dim
        invariant PartlyTransposed(mat[..], old(mat[..]), dim, row, col)
      {
        ghost var cur := mat[..];
        ExchangeCells(mat, dim, row, col);
        ExchangeAdvances(cur, mat[..], old(mat[..]), dim, row, col);
      }
      RowFinished(mat[..], old(mat[..]), dim, row);
    }
    TransposedFromCells(mat[..], old(mat[..]), dim);
  }

  /** One exchange of the inner loop of `MatTranspose`. */
  method ExchangeCells(mat: array<real>, dim: nat, row: nat, col: nat)
    requires row < col < dim && dim * dim <= mat.Length
    modifies mat
    ensures mat[..] == old(mat[..])[Idx(col, row, dim) := old(mat[Idx(row, col, dim)])][Idx(row, col, dim) := old(mat[Idx(col, row, dim)])]
  {
    var rowMajIdx := row * dim + col;
    var colMajIdx := col * dim + row;
    RowMajor(row, col, dim, rowMajIdx);
    RowMajor(col, row, dim, colMajIdx);
    var rowMajEle := mat[rowMajIdx];
    var colMajEle := mat[colMajIdx];
    mat[colMajIdx] := rowMajEle;
    mat[rowMajIdx] := colMajEle;
  }

  lemma ExchangeAdvances(cur: seq<real>, next: seq<real>, before: seq<real>, dim: nat, row: nat, col: nat)
    requires row < col < dim && |cur| == |before| && dim * dim <= |before|
    requires PartlyTransposed(cur, before, dim, row, col)
    requires next == cur[Idx(col, row, dim) := cur[Idx(row, col, dim)]][Idx(row, col, dim) := cur[Idx(col, row, dim)]]
    ensures PartlyTransposed(next, before, dim, row, col + 1)
  {
    forall r, c | 0 <= r < dim && 0 <= c < dim
      ensures next[Idx(r, c, dim)] == if Exchanged(r, c, row, col + 1) then before[Idx(c, r, dim)] else before[Idx(r, c, dim)]
    {
      if Idx(r, c, dim) == Idx(row, col, dim) {
        IdxInjective(r, c, row, col, dim);
      } else if Idx(r, c, dim) == Idx(col, row, dim) {
        IdxInjective(r, c, col, row, dim);
      } else {
        assert (r, c) != (row, col) && (r, c) != (col, row);
      }
    }
  }

  lemma RowFinished(cur: seq<real>, before: seq<real>, dim: nat, row: nat)
    requires row < dim && |cur| == |before| && dim * dim <= |before|
    requires PartlyTransposed(cur, before, dim, row, dim)
    ensures PartlyTransposed(cur, before, dim, row + 1, row + 2)
  {
    forall r, c | 0 <= r < dim && 0 <= c < dim
      ensures Exchanged(r, c, row, dim) == Exchanged(r, c, row + 1, row + 2)
    {
    }
  }

  /** Cell-wise mirror images, with everything past the block kept, make the transposed sequence. */
  lemma TransposedFromCells(cur: seq<real>, before: seq<real>, dim: nat)
    requires |cur| == |before| && dim * dim <= |before|
    requires PartlyTransposed(cur, before, dim, dim, dim + 1)
    ensures cur == Transposed(before, dim)
  {
    forall k | 0 <= k < dim * dim
      ensures cur[k] == before[Mirror(k, dim)]
    {
      MirrorAfterPass(cur, before, dim, k);
    }
    assert forall k :: 0 <= k < |cur| ==> cur[k] == Transposed(before, dim)[k];
  }

  /** After the whole pass, position `k` of the block holds its mirror's old value. */
  lemma MirrorAfterPass(cur: seq<real>, before: seq<real>, dim: nat, k: nat)
    requires |cur| == |before| && dim * dim <= |before|
    requires PartlyTransposed(cur, before, dim, dim, dim + 1)
    requires k < dim * dim
    ensures cur[k] == before[Mirror(k, dim)]
  {
    CellOf(k, dim);
    var r, c := k / dim, k % dim;
    assert cur[Idx(r, c, dim)] == before[Idx(c, r, dim)];
  }

  // ---------------------------------------------------------------------------
  // Properties of the templates
  // ---------------------------------------------------------------------------

  /** Transposing twice restores the matrix: row-major and column-major order convert both ways. */
  lemma TransposeTwice(s: seq<real>, dim: nat)
    requires dim * dim <= |s|
    ensures Transposed(Transposed(s, dim), dim) == s
  {
    forall k | 0 <= k < dim * dim
      ensures Mirror(Mirror(k, dim), dim) == k
    {
      CellOf(k, dim);
      RowColOfIdx(k % dim, k / dim, dim);
    }
  }

  /** Transposition keeps the diagonal. */
  lemma TransposeKeepsDiagonal(s: seq<real>, dim: nat, i: nat)
    requires dim * dim <= |s| && i < dim
    ensures Transposed(s, dim)[Idx(i, i, dim)] == s[Idx(i, i, dim)]
  {
    RowColOfIdx(i, i, dim);
  }

  /** The dot product is symmetric. */
  lemma {:induction false} DotSymmetric(u: seq<real>, v: seq<real>, n: nat)
    requires n <= |u| && n <= |v|
    ensures Dot(u, v, n) == Dot(v, u, n)
  {
    if n > 0 {
      DotSymmetric(u, v, n - 1);
    }
  }

  /** `ScalarMul` then `DotProduct` equals `DotProduct` then scaling. */
  lemma {:induction false} DotOfScaled(u: seq<real>, k: real, v: seq<real>, n: nat)
    requires n <= |u| && n <= |v|
    ensures Dot(Scaled(u, k, n), v, n) == k * Dot(u, v, n)
  {
    if n > 0 {
      var su := Scaled(u, k, n);
      DotOfScaled(u, k, v, n - 1);
      DotPrefixOnly(su, Scaled(u, k, n - 1), v, n - 1);
      DotStep(su, v, n, su[n - 1], v[n - 1]);
      DotStep(u, v, n, u[n - 1], v[n - 1]);
      ScaleStep(Dot(u, v, n - 1), Dot(su, v, n - 1), u[n - 1], su[n - 1], v[n - 1], k);
    }
  }

  /** The last term of a dot product, with the entries named. */
  lemma DotStep(u: seq<real>, v: seq<real>, n: nat, x: real, y: real)
    requires 0 < n <= |u| && n <= |v| && u[n - 1] == x && v[n - 1] == y
    ensures Dot(u, v, n) == Dot(u, v, n - 1) + x * y
  {
  }

  /** Scaling distributes over one more product. */
  lemma ScaleStep(d: real, dk: real, x: real, xk: real, y: real, k: real)
    requires dk == k * d && xk == x * k
    ensures dk + xk * y == k * (d + x * y)
  {
  }

  /** `VecAdd` then `DotProduct` equals the sum of the two dot products. */
  lemma {:induction false} DotOfAdded(u: seq<real>, v: seq<real>, rest: seq<real>, w: seq<real>, n: nat)
    requires n <= |u| && n <= |v| && n <= |rest| && n <= |w|
    ensures Dot(Added(u, v, rest, n), w, n) == Dot(u, w, n) + Dot(v, w, n)
  {
    if n > 0 {
      DotOfAdded(u, v, rest, w, n - 1);
      DotPrefixOnly(Added(u, v, rest, n), Added(u, v, rest, n - 1), w, n - 1);
    }
  }

  /** A dot product over `n` entries reads only the first `n` entries of its first argument. */
  lemma {:induction false} DotPrefixOnly(u: seq<real>, u2: seq<real>, v: seq<real>, n: nat)
    requires n <= |u| && n <= |u2| && n <= |v|
    requires forall i :: 0 <= i < n ==> u[i] == u2[i]
    ensures Dot(u, v, n) == Dot(u2, v, n)
  {
    if n > 0 {
      DotPrefixOnly(u, u2, v, n - 1);
    }
  }

  /** Each entry `MatMulVec` writes is the `DotProduct` of that matrix row with the vector. */
  lemma {:induction false} RowTimesIsDot(m: seq<real>, v: seq<real>, dim: nat, r: nat, n: nat)
    requires r < dim && n <= dim && dim * dim <= |m| && dim <= |v|
    ensures Offset(r, dim) + dim <= |m| && RowTimes(m, v, dim, r, n) == Dot(m[Offset(r, dim)..], v, n)
  {
    OffsetBelowSquare(r, dim);
    if n > 0 {
      RowTimesIsDot(m, v, dim, r, n - 1);
    }
  }

  /** The 4x4 identity. */
  const Identity4: seq<real> := [1.0, 0.0, 0.0, 0.0, 0.0, 1.0, 0.0, 0.0, 0.0, 0.0, 1.0, 0.0, 0.0, 0.0, 0.0, 1.0]

  /** `MatrixMul4x4` with the identity on the left leaves the other matrix as it is. */
  lemma IdentityTimes(b: seq<real>, r: nat, c: nat)
    requires 16 <= |b| && r < 4 && c < 4
    ensures Entry(Identity4, b, 4, r, c, 4) == b[Idx(r, c, 4)]
  {
    EntryOfFour(Identity4, b, r, c);
    CellsOfFour();
  }

  /** The cross product is anti-commutative. */
  lemma CrossAntiCommutes(a: seq<real>, b: seq<real>)
    requires |a| >= 3 && |b| >= 3
    ensures forall i :: 0 <= i < 3 ==> Cross(a, b)[i] == -Cross(b, a)[i]
  {
  }

  /** The cross product is orthogonal to its first factor. */
  lemma CrossOrthogonalToFirst(a: seq<real>, b: seq<real>)
    requires |a| >= 3 && |b| >= 3
    ensures Dot(Cross(a, b), a, 3) == 0.0
  {
    var x := Cross(a, b);
    CrossAt(a, b, x);
    DotOfThree(x, a);
    FirstTripleVanishes(x[0], x[1], x[2], a[0], a[1], a[2], b[0], b[1], b[2]);
  }

  /** The cross product is orthogonal to its second factor. */
  lemma CrossOrthogonalToSecond(a: seq<real>, b: seq<real>)
    requires |a| >= 3 && |b| >= 3
    ensures Dot(Cross(a, b), b, 3) == 0.0
  {
    var x := Cross(a, b);
    CrossAt(a, b, x);
    DotOfThree(x, b);
    SecondTripleVanishes(x[0], x[1], x[2], a[0], a[1], a[2], b[0], b[1], b[2]);
  }

  /** The three components of a cross product. */
  lemma CrossAt(a: seq<real>, b: seq<real>, x: seq<real>)
    requires |a| >= 3 && |b| >= 3 && x == Cross(a, b)
    ensures x[0] == a[1] * b[2] - a[2] * b[1]
    ensures x[1] == a[2] * b[0] - a[0] * b[2]
    ensures x[2] == a[0] * b[1] - a[1] * b[0]
  {
  }

  lemma FirstTripleVanishes(x0: real, x1: real, x2: real, a0: real, a1: real, a2: real, b0: real, b1: real, b2: real)
    requires x0 == a1 * b2 - a2 * b1 && x1 == a2 * b0 - a0 * b2 && x2 == a0 * b1 - a1 * b0
    ensures x0 * a0 + x1 * a1 + x2 * a2 == 0.0
  {
  }

  lemma SecondTripleVanishes(x0: real, x1: real, x2: real, a0: real, a1: real, a2: real, b0: real, b1: real, b2: real)
    requires x0 == a1 * b2 - a2 * b1 && x1 == a2 * b0 - a0 * b2 && x2 == a0 * b1 - a1 * b0
    ensures x0 * b0 + x1 * b1 + x2 * b2 == 0.0
  {
  }

  lemma DotOfThree(u: seq<real>, v: seq<real>)
    requires |u| >= 3 && |v| >= 3
    ensures Dot(u, v, 3) == u[0] * v[0] + u[1] * v[1] + u[2] * v[2]
  {
    assert Dot(u, v, 1) == u[0] * v[0];
    assert Dot(u, v, 2) == Dot(u, v, 1) + u[1] * v[1];
  }

  // ---------------------------------------------------------------------------
  // AABBCubeSphereIntersection of UtilMath.cpp
  // ---------------------------------------------------------------------------

  /** The point of `[lo, hi]` that the test picks on one axis: the centre clamped into the slab. */
  function NearCoord(center: real, lo: real, hi: real): real {
    if center < lo then lo else if center > hi then hi else center
  }

  /** The nearest point of the box, axis by axis, for the first `n` axes. */
  function NearPoint(cubeMin: seq<real>, cubeMax: seq<real>, center: seq<real>, n: nat): (p: seq<real>)
    requires n <= |cubeMin| && n <= |cubeMax| && n <= |center|
    ensures |p| == n
    ensures forall i :: 0 <= i < n ==> p[i] == NearCoord(center[i], cubeMin[i], cubeMax[i])
  {
    seq(n, i requires 0 <= i < n => NearCoord(center[i], cubeMin[i], cubeMax[i]))
  }

  /** The squared distance between the first `n` coordinates of `p` and `q`. */
  function SqDist(p: seq<real>, q: seq<real>, n: nat): (d: real)
    requires n <= |p| && n <= |q|
    ensures d >= 0.0
  {
    if n == 0 then 0.0 else SqDist(p, q, n - 1) + (p[n - 1] - q[n - 1]) * (p[n - 1] - q[n - 1])
  }

  /**
   * `AABBCubeSphereIntersection`: `nearPoint` receives the box point nearest
   * the sphere centre, and the answer is whether its squared distance to the
   * centre is at most the squared radius.
   */
  method AABBCubeSphereIntersection(cubeMin: array<real>, cubeMax: array<real>, sphereCenter: array<real>,
                                     sphereRadius: real, nearPoint: array<real>) returns (intersects: bool)
    requires cubeMin.Length >= 3 && cubeMax.Length >= 3 && sphereCenter.Length >= 3 && nearPoint.Length >= 3
    requires nearPoint != cubeMin && nearPoint != cubeMax && nearPoint != sphereCenter
    modifies nearPoint
    ensures nearPoint[..3] == NearPoint(cubeMin[..], cubeMax[..], sphereCenter[..], 3)
    ensures nearPoint[3..] == old(nearPoint[3..])
    ensures intersects <==> SqDist(sphereCenter[..], nearPoint[..], 3) <= sphereRadius * sphereRadius
  {
    var dmin := 0.0;
    for i := 0 to 3
      invariant nearPoint[..i] == NearPoint(cubeMin[..], cubeMax[..], sphereCenter[..], i)
      invariant nearPoint[3..] == old(nearPoint[3..])
      invariant dmin == SqDist(sphereCenter[..], nearPoint[..], i)
    {
      ghost var before, d0 := nearPoint[..], dmin;
      if sphereCenter[i] < cubeMin[i] {
        dmin := dmin + (sphereCenter[i] - cubeMin[i]) * (sphereCenter[i] - cubeMin[i]);
        nearPoint[i] := cubeMin[i];
        AxisStep(cubeMin[..], cubeMax[..], sphereCenter[..], before, nearPoint[..], i, sphereCenter[i], cubeMin[i], d0, dmin);
      } else if sphereCenter[i] > cubeMax[i] {
        dmin := dmin + (sphereCenter[i] - cubeMax[i]) * (sphereCenter[i] - cubeMax[i]);
        nearPoint[i] := cubeMax[i];
        AxisStep(cubeMin[..], cubeMax[..], sphereCenter[..], before, nearPoint[..], i, sphereCenter[i], cubeMax[i], d0, dmin);
      } else {
        nearPoint[i] := sphereCenter[i];
        AxisStep(cubeMin[..], cubeMax[..], sphereCenter[..], before, nearPoint[..], i, sphereCenter[i], sphereCenter[i], d0, dmin);
      }
    }
    if dmin <= sphereRadius * sphereRadius {
      return true;
    }
    return false;
  }

  /** One axis of the test: the picked coordinate is written and its squared gap to the centre added. */
  lemma AxisStep(cubeMin: seq<real>, cubeMax: seq<real>, center: seq<real>, before: seq<real>, after: seq<real>,
                 i: nat, c: real, v: real, d0: real, d1: real)
    requires i < |cubeMin| && i < |cubeMax| && i < |center| && i < |before|
    requires before[..i] == NearPoint(cubeMin, cubeMax, center, i)
    requires d0 == SqDist(center, before, i)
    requires c == center[i] && v == NearCoord(c, cubeMin[i], cubeMax[i])
    requires after == before[i := v]
    requires d1 == d0 + (c - v) * (c - v)
    ensures after[..i + 1] == NearPoint(cubeMin, cubeMax, center, i + 1)
    ensures d1 == SqDist(center, after, i + 1)
  {
    assert after[..i] == before[..i];
    assert after[..i + 1] == after[..i] + [v];
    SqDistFrame(center, before, after, i);
    SqDistStepAt(center, after, i + 1, c, v);
  }

  /** `SqDistStep` with the last coordinates named. */
  lemma SqDistStepAt(p: seq<real>, q: seq<real>, n: nat, a: real, b: real)
    requires 0 < n <= |p| && n <= |q| && p[n - 1] == a && q[n - 1] == b
    ensures SqDist(p, q, n) == SqDist(p, q, n - 1) + (a - b) * (a - b)
  {
    SqDistStep(p, q, n);
  }

  /** The squared distance over the first `n` axes depends only on those coordinates. */
  lemma {:induction false} SqDistFrame(p: seq<real>, q: seq<real>, q2: seq<real>, n: nat)
    requires n <= |p| && n <= |q| && n <= |q2|
    requires q[..n] == q2[..n]
    ensures SqDist(p, q, n) == SqDist(p, q2, n)
  {
    if n > 0 {
      assert q[..n - 1] == q[..n][..n - 1];
      assert q2[..n - 1] == q2[..n][..n - 1];
      assert q[n - 1] == q[..n][n - 1];
      assert q2[n - 1] == q2[..n][n - 1];
      SqDistFrame(p, q, q2, n - 1);
    }
  }

  /** Whether `q` lies in the box on each of the first `n` axes. */
  predicate InBox(cubeMin: seq<real>, cubeMax: seq<real>, q: seq<real>, n: nat)
    requires n <= |cubeMin| && n <= |cubeMax| && n <= |q|
  {
    forall i :: 0 <= i < n ==> cubeMin[i] <= q[i] <= cubeMax[i]
  }

  /** For a non-empty box the point the test picks lies in the box. */
  lemma NearPointInBox(cubeMin: seq<real>, cubeMax: seq<real>, center: seq<real>, n: nat)
    requires n <= |cubeMin| && n <= |cubeMax| && n <= |center|
    requires forall i :: 0 <= i < n ==> cubeMin[i] <= cubeMax[i]
    ensures InBox(cubeMin, cubeMax, NearPoint(cubeMin, cubeMax, center, n), n)
  {
  }

  /** A centre inside the box is its own nearest point, so the sphere meets the box whatever its radius. */
  lemma CenterInsideIsNearest(cubeMin: seq<real>, cubeMax: seq<real>, center: seq<real>, n: nat)
    requires n <= |cubeMin| && n <= |cubeMax| && n <= |center|
    requires InBox(cubeMin, cubeMax, center, n)
    ensures NearPoint(cubeMin, cubeMax, center, n) == center[..n]
    ensures SqDist(center, NearPoint(cubeMin, cubeMax, center, n), n) == 0.0
  {
    SqDistToSelf(center, NearPoint(cubeMin, cubeMax, center, n), n);
  }

  lemma SqDistStep(p: seq<real>, q: seq<real>, n: nat)
    requires 0 < n <= |p| && n <= |q|
    ensures SqDist(p, q, n) == SqDist(p, q, n - 1) + (p[n - 1] - q[n - 1]) * (p[n - 1] - q[n - 1])
  {
  }

  lemma {:induction false} SqDistToSelf(p: seq<real>, q: seq<real>, n: nat)
    requires n <= |p| && n <= |q| && p[..n] == q[..n]
    ensures SqDist(p, q, n) == 0.0
  {
    if n > 0 {
      assert p[n - 1] == p[..n][n - 1] && q[n - 1] == q[..n][n - 1];
      assert p[..n - 1] == p[..n][..n - 1] && q[..n - 1] == q[..n][..n - 1];
      SqDistToSelf(p, q, n - 1);
    }
  }

  /** Clamping picks the coordinate of the slab nearest the centre. */
  lemma NearCoordIsNearest(c: real, lo: real, hi: real, near: real, x: real)
    requires near == NearCoord(c, lo, hi) && lo <= x <= hi
    ensures (c - near) * (c - near) <= (c - x) * (c - x)
  {
    if c < lo {
      SquareGrows(lo - c, x - c);
      assert (c - lo) * (c - lo) == (lo - c) * (lo - c);
      assert (c - x) * (c - x) == (x - c) * (x - c);
    } else if c > hi {
      SquareGrows(c - hi, c - x);
    }
  }

  lemma SquareGrows(p: real, q: real)
    requires 0.0 <= p <= q
    ensures p * p <= q * q
  {
  }

  /** The picked point is at least as close to the centre as every point of the box. */
  lemma {:induction false} NearPointIsNearest(cubeMin: seq<real>, cubeMax: seq<real>, center: seq<real>, q: seq<real>, n: nat)
    requires n <= |cubeMin| && n <= |cubeMax| && n <= |center| && n <= |q|
    requires InBox(cubeMin, cubeMax, q, n)
    ensures SqDist(center, NearPoint(cubeMin, cubeMax, center, n), n) <= SqDist(center, q, n)
  {
    if n > 0 {
      var p := NearPoint(cubeMin, cubeMax, center, n);
      var p' := NearPoint(cubeMin, cubeMax, center, n - 1);
      NearPointIsNearest(cubeMin, cubeMax, center, q, n - 1);
      assert p[..n - 1] == p';
      SqDistFrame(center, p, p', n - 1);
      NearCoordIsNearest(center[n - 1], cubeMin[n - 1], cubeMax[n - 1], p[n - 1], q[n - 1]);
      SqDistStep(center, p, n);
      SqDistStep(center, q, n);
    }
  }

  /**
   * The test is exact: the sphere reaches the picked point if and only if it
   * reaches some point of the (non-empty) box.
   */
  lemma IntersectionIsExact(cubeMin: seq<real>, cubeMax: seq<real>, center: seq<real>, radius: real)
    requires |cubeMin| >= 3 && |cubeMax| >= 3 && |center| >= 3
    requires forall i :: 0 <= i < 3 ==> cubeMin[i] <= cubeMax[i]
    ensures var p := NearPoint(cubeMin, cubeMax, center, 3);
      InBox(cubeMin, cubeMax, p, 3) &&
      (SqDist(center, p, 3) <= radius * radius <==>
       exists q :: |q| == 3 && InBox(cubeMin, cubeMax, q, 3) && SqDist(center, q, 3) <= radius * radius)
  {
    var p := NearPoint(cubeMin, cubeMax, center, 3);
    NearPointInBox(cubeMin, cubeMax, center, 3);
    forall q | |q| == 3 && InBox(cubeMin, cubeMax, q, 3)
      ensures SqDist(center, p, 3) <= SqDist(center, q, 3)
    {
      NearPointIsNearest(cubeMin, cubeMax, center, q, 3);
    }
  }
}
