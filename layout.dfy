/** Row-major index arithmetic. The caller's 2-D arrays and the scratch buffers share it:
    element (row, col) of a matrix with `ncols` columns lives at `row * ncols + col`, so the
    scratch-buffer slot of variable `v` in SIMD lane `j` is `Flat(v, j, W)`. */
module Layout {

  /** Position of element (row, col) of a row-major matrix with `ncols` columns. */
  function Flat(row: nat, col: nat, ncols: nat): nat
  {
    row * ncols + col
  }

  lemma MulMonotone(a: nat, b: nat, n: nat)
    requires a <= b
    ensures a * n <= b * n
  {
  }

  /** Every element of an nrows x ncols matrix lies inside its nrows * ncols storage. */
  lemma FlatBelow(row: nat, col: nat, nrows: nat, ncols: nat)
    requires row < nrows && col < ncols
    ensures Flat(row, col, ncols) < nrows * ncols
  {
    MulMonotone(row + 1, nrows, ncols);
  }

  /** Distinct elements of a matrix occupy distinct positions. */
  lemma FlatInjective(r1: nat, c1: nat, r2: nat, c2: nat, n: nat)
    requires c1 < n && c2 < n && Flat(r1, c1, n) == Flat(r2, c2, n)
    ensures r1 == r2 && c1 == c2
  {
    if r1 < r2 {
      MulMonotone(r1 + 1, r2, n);
    } else if r2 < r1 {
      MulMonotone(r2 + 1, r1, n);
    }
  }

  lemma FlatInjectiveAll()
    ensures forall r1: nat, c1: nat, r2: nat, c2: nat, n: nat
              {:trigger Flat(r1, c1, n), Flat(r2, c2, n)} ::
              c1 < n && c2 < n && Flat(r1, c1, n) == Flat(r2, c2, n) ==> r1 == r2 && c1 == c2
  {
    forall r1: nat, c1: nat, r2: nat, c2: nat, n: nat
      | c1 < n && c2 < n && Flat(r1, c1, n) == Flat(r2, c2, n)
      ensures r1 == r2 && c1 == c2
    {
      FlatInjective(r1, c1, r2, c2, n);
    }
  }

  /** A buffer of n rows and w >= 1 lanes holds at least one full lane. */
  lemma LaneFits(n: nat, w: nat)
    requires w >= 1
    ensures n <= n * w
  {
    MulMonotone(1, w, n);
  }

  lemma ColumnBelow(nrows: nat, ncols: nat, col: nat)
    requires col < ncols
    ensures forall r :: 0 <= r < nrows ==> Flat(r, col, ncols) < nrows * ncols
  {
    forall r | 0 <= r < nrows
      ensures Flat(r, col, ncols) < nrows * ncols
    {
      FlatBelow(r, col, nrows, ncols);
    }
  }

  /** Column `col` of the row-major nrows x ncols matrix stored in `data`. */
  function Column<T>(data: seq<T>, nrows: nat, ncols: nat, col: nat): (c: seq<T>)
    requires col < ncols && nrows * ncols <= |data|
    ensures |c| == nrows
    ensures forall r {:trigger c[r]} :: 0 <= r < nrows ==> Flat(r, col, ncols) < |data| && c[r] == data[Flat(r, col, ncols)]
  {
    ColumnBelow(nrows, ncols, col);
    seq(nrows, r requires 0 <= r < nrows => data[Flat(r, col, ncols)])
  }

  /** A matrix with a single column is that column. */
  lemma SingleColumn<T>(data: seq<T>, nrows: nat)
    requires |data| == nrows
    ensures Column(data, nrows, 1, 0) == data
  {
    var c := Column(data, nrows, 1, 0);
    forall r | 0 <= r < nrows
      ensures c[r] == data[r]
    {
      assert Flat(r, 0, 1) == r;
    }
  }
}
