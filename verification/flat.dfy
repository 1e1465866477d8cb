/** The row-major flattened buffers of serial-fast-no-cluster and
    parallel-fast: K rows of D values stored in one vector of K*D values,
    attribute `a` of cluster `c` at `getClusterIndex(c, a) = c*D + a`. */
module Flat {
  import opened Vectors

  /** `getClusterIndex`. */
  function ClusterIndex(c: int, a: int, d: int): int
  {
    c * d + a
  }

  /** Where row `c` starts: D values for each row before it. Kept free of
      multiplication so that the row arithmetic stays linear. */
  function Offset(c: nat, d: nat): nat
  {
    if c == 0 then 0 else Offset(c - 1, d) + d
  }

  /** The start of row `c` is `c*D`, so `getClusterIndex(c, a)` is attribute
      `a` of row `c`; `K*D`, the size the buffers are resized to, is the end
      of the last row. */
  lemma {:induction false} OffsetIsProduct(c: nat, d: nat)
    ensures Offset(c, d) == c * d
    ensures forall a :: ClusterIndex(c, a, d) == Offset(c, d) + a
    decreases c
  {
    if c > 0 {
      OffsetIsProduct(c - 1, d);
    }
  }

  /** A later row starts after the whole of an earlier one. */
  lemma {:induction false} OffsetMono(c1: nat, c2: nat, d: nat)
    requires c1 < c2
    ensures Offset(c1, d) + d <= Offset(c2, d)
    decreases c2
  {
    if c1 < c2 - 1 {
      OffsetMono(c1, c2 - 1, d);
    }
  }

  /** For a cluster in [0,K) and an attribute in [0,D), the index lies in
      [0,K*D), the extent of the resized buffers. */
  lemma ClusterIndexBounds(c: nat, a: nat, k: nat, d: nat)
    requires c < k && a < d
    ensures 0 <= ClusterIndex(c, a, d) < k * d
  {
    OffsetIsProduct(c, d);
    OffsetIsProduct(k, d);
    OffsetMono(c, k, d);
  }

  /** Different (cluster, attribute) pairs have different indices. */
  lemma ClusterIndexInjective(c1: nat, a1: nat, c2: nat, a2: nat, d: nat)
    requires a1 < d && a2 < d
    ensures ClusterIndex(c1, a1, d) == ClusterIndex(c2, a2, d) <==> c1 == c2 && a1 == a2
  {
    OffsetIsProduct(c1, d);
    OffsetIsProduct(c2, d);
    if c1 < c2 {
      OffsetMono(c1, c2, d);
    } else if c2 < c1 {
      OffsetMono(c2, c1, d);
    }
  }

  /** Row `c` of a flat buffer. */
  function Row(flat: seq<real>, c: nat, d: nat): (r: Vec)
    requires Offset(c, d) + d <= |flat|
    ensures |r| == d
    ensures forall a :: 0 <= a < d ==> r[a] == flat[Offset(c, d) + a]
  {
    flat[Offset(c, d) .. Offset(c, d) + d]
  }

  /** Rows 0..k-1 of a flat buffer. */
  function Rows(flat: seq<real>, k: nat, d: nat): (r: seq<Vec>)
    requires Offset(k, d) <= |flat|
    ensures |r| == k && Dims(r, d)
    ensures forall c :: 0 <= c < k ==> Offset(c, d) + d <= |flat| && r[c] == Row(flat, c, d)
  {
    if k == 0 then []
    else
      forall c | 0 <= c < k - 1
        ensures Offset(c, d) + d <= Offset(k - 1, d)
      {
        OffsetMono(c, k - 1, d);
      }
      Rows(flat, k - 1, d) + [Row(flat, k - 1, d)]
  }

  /** Writing row `c` of a flat buffer: the D entries of the row take the
      given values and every other entry keeps its value. */
  function SetRow(flat: seq<real>, c: nat, d: nat, v: Vec): (r: seq<real>)
    requires Offset(c, d) + d <= |flat| && |v| == d
    ensures |r| == |flat|
    ensures forall a :: 0 <= a < d ==> r[Offset(c, d) + a] == v[a]
    ensures forall x :: 0 <= x < |flat| && !(Offset(c, d) <= x < Offset(c, d) + d) ==> r[x] == flat[x]
  {
    flat[..Offset(c, d)] + v + flat[Offset(c, d) + d..]
  }

  /** Writing row `c` changes row `c` of the rows and no other. */
  lemma RowsSetRow(flat: seq<real>, k: nat, d: nat, c: nat, v: Vec)
    requires c < k && Offset(k, d) <= |flat| && |v| == d
    ensures Offset(c, d) + d <= |flat|
    ensures Rows(SetRow(flat, c, d, v), k, d) == Rows(flat, k, d)[c := v]
  {
    OffsetMono(c, k, d);
    var r := SetRow(flat, c, d, v);
    forall e | 0 <= e < k
      ensures Rows(r, k, d)[e] == Rows(flat, k, d)[c := v][e]
    {
      if e < c {
        OffsetMono(e, c, d);
      } else if c < e {
        OffsetMono(c, e, d);
      }
    }
  }

  /** A flat buffer of zeros has zero rows. */
  lemma RowsOfZeros(flat: seq<real>, k: nat, d: nat)
    requires Offset(k, d) <= |flat|
    requires forall x :: 0 <= x < |flat| ==> flat[x] == 0.0
    ensures forall c :: 0 <= c < k ==> Rows(flat, k, d)[c] == Zeros(d)
  {
  }

  /** Every index of a K*D buffer is attribute a of some row c. */
  lemma {:induction false} RowOf(k: nat, d: nat, j: nat) returns (c: nat, a: nat)
    requires j < Offset(k, d)
    ensures c < k && a < d && j == Offset(c, d) + a
    decreases k
  {
    if j >= Offset(k - 1, d) {
      c, a := k - 1, j - Offset(k - 1, d);
    } else {
      c, a := RowOf(k - 1, d, j);
    }
  }

  /** A buffer whose rows are all zero rows holds only zeros. */
  lemma ZeroRows(flat: seq<real>, k: nat, d: nat, j: nat)
    requires |flat| == Offset(k, d) && j < |flat|
    requires forall c :: 0 <= c < k ==> Rows(flat, k, d)[c] == Zeros(d)
    ensures flat[j] == 0.0
  {
    var c, a := RowOf(k, d, j);
    assert Rows(flat, k, d)[c][a] == flat[j];
  }
}
