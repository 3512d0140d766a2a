/** Row views of the solver's two-dimensional arrays (`int parents[P][N]`). */
module Grid {

  /** Row i of the array, as a sequence of its N entries. */
  function Row(a: array2<int>, i: int): (r: seq<int>)
    reads a
    requires 0 <= i < a.Length0
    ensures |r| == a.Length1
    ensures forall j :: 0 <= j < a.Length1 ==> r[j] == a[i, j]
  {
    seq(a.Length1, j requires 0 <= j < a.Length1 reads a => a[i, j])
  }

  /** All rows of the array, top to bottom. */
  function Rows(a: array2<int>): (r: seq<seq<int>>)
    reads a
    ensures |r| == a.Length0
    ensures forall i :: 0 <= i < a.Length0 ==> r[i] == Row(a, i)
  {
    seq(a.Length0, i requires 0 <= i < a.Length0 reads a => Row(a, i))
  }

  /** Overwrite row i of dst with row k of src, one entry at a time. */
  method CopyRow(dst: array2<int>, i: int, src: array2<int>, k: int)
    requires dst != src
    requires 0 <= i < dst.Length0 && 0 <= k < src.Length0 && dst.Length1 == src.Length1
    modifies dst
    ensures Rows(dst) == old(Rows(dst))[i := Row(src, k)]
  {
    for j := 0 to dst.Length1
      invariant forall c :: 0 <= c < j ==> dst[i, c] == src[k, c]
      invariant forall r, c :: 0 <= r < dst.Length0 && 0 <= c < dst.Length1 && (r != i || j <= c) ==> dst[r, c] == old(dst[r, c])
    {
      dst[i, j] := src[k, j];
    }
    assert Row(dst, i) == Row(src, k);
    forall r | 0 <= r < dst.Length0 && r != i
      ensures Row(dst, r) == old(Row(dst, r))
    {
    }
  }
}
