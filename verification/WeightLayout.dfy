/** MXFP4 weight storage (radiance_mxfp4.py) and the merged GDN projection (radiance_gdnmerge.py): the fragment-order
    byte permutation, the per-row reference exponent, and the concatenation of two projections along N. */
module WeightLayout {
  import opened Arithmetic
  import opened FragmentOrder
  import opened Options

  type Byte = bv8

  // ---------------------------------------------------------------------------
  // The permutation
  // ---------------------------------------------------------------------------

  /** A weight of whole n-tiles and k-steps. */
  predicate Shaped(w: seq<Byte>, tiles: nat, steps: nat) {
    |w| == TileBytes(tiles, steps)
  }

  lemma SourceInside(p: nat, tiles: nat, steps: nat)
    requires p < TileBytes(tiles, steps)
    ensures 0 < steps
    ensures RowMajor(FromFragment(p, steps), steps) < TileBytes(tiles, steps)
    ensures Fragment(FromRowMajor(p, steps), steps) < TileBytes(tiles, steps)
  {
    hide Flat, RowMajor, Fragment, FromRowMajor, FromFragment, TileBytes;
    HasSteps(tiles, steps);
    FromFragmentInverse(p, steps);
    FromRowMajorInverse(p, steps);
    TileRange(FromFragment(p, steps), steps, tiles);
    TileRange(FromRowMajor(p, steps), steps, tiles);
  }

  /** permute_w. */
  function Permute(w: seq<Byte>, tiles: nat, steps: nat): (out: seq<Byte>)
    requires Shaped(w, tiles, steps)
    ensures |out| == |w|
  {
    seq(|w|, p requires 0 <= p < |w| => SourceInside(p, tiles, steps); w[RowMajor(FromFragment(p, steps), steps)])
  }

  /** unpermute_w. */
  function Unpermute(w: seq<Byte>, tiles: nat, steps: nat): (out: seq<Byte>)
    requires Shaped(w, tiles, steps)
    ensures |out| == |w|
  {
    seq(|w|, p requires 0 <= p < |w| => SourceInside(p, tiles, steps); w[Fragment(FromRowMajor(p, steps), steps)])
  }

  lemma UnpermutePermute(w: seq<Byte>, tiles: nat, steps: nat)
    requires Shaped(w, tiles, steps)
    ensures Unpermute(Permute(w, tiles, steps), tiles, steps) == w
  {
    hide Flat, RowMajor, Fragment, FromRowMajor, FromFragment, TileBytes;
    forall p | 0 <= p < |w| ensures Unpermute(Permute(w, tiles, steps), tiles, steps)[p] == w[p] {
      SourceInside(p, tiles, steps);
      FromRowMajorInverse(p, steps);
      FragmentInverse(FromRowMajor(p, steps), steps);
    }
  }

  lemma PermuteUnpermute(w: seq<Byte>, tiles: nat, steps: nat)
    requires Shaped(w, tiles, steps)
    ensures Permute(Unpermute(w, tiles, steps), tiles, steps) == w
  {
    hide Flat, RowMajor, Fragment, FromRowMajor, FromFragment, TileBytes;
    forall p | 0 <= p < |w| ensures Permute(Unpermute(w, tiles, steps), tiles, steps)[p] == w[p] {
      SourceInside(p, tiles, steps);
      FromFragmentInverse(p, steps);
      RowMajorInverse(FromFragment(p, steps), steps);
    }
  }

  /** Lane l of tile (nt, ks) holds four bytes of row 16 nt + l mod 16, starting at byte 8 ks + 4 (l / 16). */
  lemma LaneHolds(w: seq<Byte>, tiles: nat, steps: nat, nt: nat, ks: nat, lane: nat, b: nat)
    requires Shaped(w, tiles, steps) && nt < tiles && ks < steps && lane < 32 && b < 4
    ensures var at := 128 * Flat(nt, steps, ks) + 4 * lane + b;
            var from := 8 * Flat(16 * nt + lane % 16, steps, ks) + 4 * (lane / 16) + b;
            at < |w| && from < |w| && Permute(w, tiles, steps)[at] == w[from]
  {
    var c := Coord(nt, lane % 16, ks, lane / 16, b);
    assert Fragment(c, steps) == 128 * Flat(nt, steps, ks) + 4 * lane + b;
    hide Flat, TileBytes, FromFragment;
    TileRange(c, steps, tiles);
    FragmentInverse(c, steps);
  }

  lemma ConcatShaped(a: seq<Byte>, b: seq<Byte>, ta: nat, tb: nat, steps: nat)
    requires Shaped(a, ta, steps) && Shaped(b, tb, steps)
    ensures Shaped(a + b, ta + tb, steps)
  {
    hide Flat;
    FlatShift(ta, steps, 0, tb);
  }

  /** Permuting commutes with concatenation of whole n-tiles. */
  lemma PermuteConcat(a: seq<Byte>, b: seq<Byte>, ta: nat, tb: nat, steps: nat)
    requires Shaped(a, ta, steps) && Shaped(b, tb, steps)
    ensures Shaped(a + b, ta + tb, steps)
    ensures Permute(a + b, ta + tb, steps) == Permute(a, ta, steps) + Permute(b, tb, steps)
  {
    ConcatShaped(a, b, ta, tb, steps);
    hide Flat, RowMajor, Fragment, FromFragment, TileBytes, Permute;
    var whole, parts := Permute(a + b, ta + tb, steps), Permute(a, ta, steps) + Permute(b, tb, steps);
    forall p | 0 <= p < |a + b| ensures whole[p] == parts[p] {
      PermuteConcatAt(a, b, ta, tb, steps, p);
    }
  }

  lemma PermuteConcatAt(a: seq<Byte>, b: seq<Byte>, ta: nat, tb: nat, steps: nat, p: nat)
    requires Shaped(a, ta, steps) && Shaped(b, tb, steps) && Shaped(a + b, ta + tb, steps) && p < |a + b|
    ensures Permute(a + b, ta + tb, steps)[p] == (Permute(a, ta, steps) + Permute(b, tb, steps))[p]
  {
    hide Flat, RowMajor, Fragment, FromFragment, FromRowMajor, TileBytes;
    SourceInside(p, ta + tb, steps);
    FromFragmentInverse(p, steps);
    var c := FromFragment(p, steps);
    TileRange(c, steps, ta);
    if |a| <= p {
      var d := c.(nt := c.nt - ta);
      assert c == d.(nt := d.nt + ta);
      TileShift(d, steps, ta);
      FragmentInverse(d, steps);
    }
  }

  lemma UnpermuteConcat(a: seq<Byte>, b: seq<Byte>, ta: nat, tb: nat, steps: nat)
    requires Shaped(a, ta, steps) && Shaped(b, tb, steps)
    ensures Shaped(a + b, ta + tb, steps)
    ensures Unpermute(a + b, ta + tb, steps) == Unpermute(a, ta, steps) + Unpermute(b, tb, steps)
  {
    hide Permute, Unpermute, TileBytes;
    var ua, ub := Unpermute(a, ta, steps), Unpermute(b, tb, steps);
    PermuteConcat(ua, ub, ta, tb, steps);
    PermuteUnpermute(a, ta, steps);
    PermuteUnpermute(b, tb, steps);
    UnpermutePermute(ua + ub, ta + tb, steps);
  }

  // ---------------------------------------------------------------------------
  // Scales and row references
  // ---------------------------------------------------------------------------

  /** Block exponents, [K/32][N]. */
  type Scales = seq<seq<nat>>

  predicate ScalesFit(ws: Scales, n: nat) {
    ws != [] && forall r :: 0 <= r < |ws| ==> |ws[r]| == n
  }

  function ColumnMax(ws: Scales, n: nat, i: nat): nat
    requires ScalesFit(ws, n) && i < n
  {
    var last := ws[|ws| - 1][i];
    if |ws| == 1 then last
    else
      var m := ColumnMax(ws[..|ws| - 1], n, i);
      if m < last then last else m
  }

  /** make_row_ref. */
  function RowRef(ws: Scales, n: nat): (ref: seq<nat>)
    requires ScalesFit(ws, n)
    ensures |ref| == n
  {
    seq(n, i requires 0 <= i < n => ColumnMax(ws, n, i))
  }

  /** Concatenation along N of two scale tensors. */
  function Beside(a: Scales, b: Scales): (c: Scales)
    requires |a| == |b|
    ensures |c| == |a|
  {
    seq(|a|, r requires 0 <= r < |a| => a[r] + b[r])
  }

  /** The reference is the largest block exponent of its row and of no other. */
  lemma {:induction false} ColumnMaxIs(ws: Scales, n: nat, i: nat)
    requires ScalesFit(ws, n) && i < n
    ensures (forall r :: 0 <= r < |ws| ==> ws[r][i] <= ColumnMax(ws, n, i))
    ensures exists r :: 0 <= r < |ws| && ws[r][i] == ColumnMax(ws, n, i)
  {
    if |ws| > 1 {
      var rest := ws[..|ws| - 1];
      ColumnMaxIs(rest, n, i);
      var r :| 0 <= r < |rest| && rest[r][i] == ColumnMax(rest, n, i);
      assert ws[r][i] == rest[r][i];
    }
  }

  lemma {:induction false} ColumnMaxBeside(a: Scales, b: Scales, na: nat, nb: nat, i: nat)
    requires |a| == |b| && ScalesFit(a, na) && ScalesFit(b, nb) && i < na + nb
    ensures ScalesFit(Beside(a, b), na + nb)
    ensures ColumnMax(Beside(a, b), na + nb, i) == if i < na then ColumnMax(a, na, i) else ColumnMax(b, nb, i - na)
  {
    if |a| > 1 {
      var m := |a| - 1;
      ColumnMaxBeside(a[..m], b[..m], na, nb, i);
      assert Beside(a, b)[..m] == Beside(a[..m], b[..m]);
    }
  }

  lemma RowRefBeside(a: Scales, b: Scales, na: nat, nb: nat)
    requires |a| == |b| && ScalesFit(a, na) && ScalesFit(b, nb)
    ensures ScalesFit(Beside(a, b), na + nb)
    ensures RowRef(Beside(a, b), na + nb) == RowRef(a, na) + RowRef(b, nb)
  {
    var whole, parts := RowRef(Beside(a, b), na + nb), RowRef(a, na) + RowRef(b, nb);
    forall i | 0 <= i < na + nb ensures whole[i] == parts[i] {
      ColumnMaxBeside(a, b, na, nb, i);
      hide ColumnMax;
    }
  }

  // ---------------------------------------------------------------------------
  // The projection
  // ---------------------------------------------------------------------------

  /** A linear layer's tensors: N rows of K/2 bytes, block exponents, row references. */
  datatype Tensors = Tensors(weight: seq<Byte>, scales: Scales, ref: seq<nat>, n: nat, steps: nat) {
    predicate Valid() {
      && |weight| == 8 * Flat(n, steps, 0) && ScalesFit(scales, n) && |ref| == n
      && ref == RowRef(scales, n)
    }
  }

  lemma WholeTiles(n: nat, steps: nat)
    requires n % 16 == 0
    ensures 8 * Flat(n, steps, 0) == TileBytes(n / 16, steps)
  {
    FlatScale(n / 16, steps);
  }

  lemma RowInside(i: nat, n: nat, steps: nat)
    requires i < n
    ensures 8 * Flat(i, steps, 0) + 8 * steps == 8 * Flat(i + 1, steps, 0) <= 8 * Flat(n, steps, 0)
  {
    MulMonotone(i + 1, n, steps);
  }

  /** The bytes of row i, in checkpoint order. */
  function RowBytes(w: seq<Byte>, n: nat, steps: nat, i: nat): (row: seq<Byte>)
    requires |w| == 8 * Flat(n, steps, 0) && i < n
    ensures |row| == 8 * steps
  {
    RowInside(i, n, steps);
    w[8 * Flat(i, steps, 0)..8 * Flat(i, steps, 0) + 8 * steps]
  }

  /** What the kernel reads a stored weight as: under WPERM it undoes the fragment order. */
  function Logical(t: Tensors, fragments: bool): (w: seq<Byte>)
    requires t.Valid() && (fragments ==> t.n % 16 == 0)
    ensures |w| == 8 * Flat(t.n, t.steps, 0)
  {
    if fragments then
      WholeTiles(t.n, t.steps);
      Unpermute(t.weight, t.n / 16, t.steps)
    else t.weight
  }

  function Column(ws: Scales, n: nat, i: nat): seq<nat>
    requires ScalesFit(ws, n) && i < n
  {
    seq(|ws|, r requires 0 <= r < |ws| => ws[r][i])
  }

  /** One token's outputs.  `dot` is whatever the kernel computes from an activation row and one weight row. */
  function Linear<X, Y>(dot: (X, seq<Byte>, seq<nat>, nat) -> Y, x: X, t: Tensors, fragments: bool): (y: seq<Y>)
    requires t.Valid() && (fragments ==> t.n % 16 == 0)
    ensures |y| == t.n
  {
    seq(t.n, i requires 0 <= i < t.n =>
      dot(x, RowBytes(Logical(t, fragments), t.n, t.steps, i), Column(t.scales, t.n, i), t.ref[i]))
  }

  function Merged(a: Tensors, b: Tensors): Tensors
    requires |a.scales| == |b.scales|
  {
    Tensors(a.weight + b.weight, Beside(a.scales, b.scales), a.ref + b.ref, a.n + b.n, a.steps)
  }

  predicate Mergeable(a: Tensors, b: Tensors) {
    a.Valid() && b.Valid() && a.steps == b.steps && |a.scales| == |b.scales|
  }

  /** Projections over the same K have as many scale blocks. */
  predicate SameDepth(a: Tensors, b: Tensors) {
    a.steps == b.steps ==> |a.scales| == |b.scales|
  }

  /** The merged tensors are what a natively merged layer would hold. */
  lemma MergedValid(a: Tensors, b: Tensors)
    requires Mergeable(a, b)
    ensures Merged(a, b).Valid()
  {
    RowRefBeside(a.scales, b.scales, a.n, b.n);
    FlatShift(a.n, a.steps, 0, b.n);
    hide RowRef, Flat;
  }

  lemma RowOfConcat(a: seq<Byte>, b: seq<Byte>, na: nat, nb: nat, steps: nat, i: nat)
    requires |a| == 8 * Flat(na, steps, 0) && |b| == 8 * Flat(nb, steps, 0) && i < na + nb
    ensures |a + b| == 8 * Flat(na + nb, steps, 0)
    ensures RowBytes(a + b, na + nb, steps, i) == if i < na then RowBytes(a, na, steps, i)
            else RowBytes(b, nb, steps, i - na)
  {
    hide Flat;
    FlatShift(nb, steps, 0, na);
    RowInside(i, na + nb, steps);
    if i < na {
      RowInside(i, na, steps);
    } else {
      RowInside(i - na, nb, steps);
      FlatShift(i - na, steps, 0, na);
    }
  }

  lemma LogicalConcat(a: Tensors, b: Tensors, fragments: bool)
    requires Mergeable(a, b) && (fragments ==> a.n % 16 == 0 && b.n % 16 == 0)
    ensures Merged(a, b).Valid() && (fragments ==> (a.n + b.n) % 16 == 0)
    ensures Logical(Merged(a, b), fragments) == Logical(a, fragments) + Logical(b, fragments)
  {
    MergedValid(a, b);
    hide Unpermute, Flat, RowRef;
    if fragments {
      assert (a.n + b.n) / 16 == a.n / 16 + b.n / 16;
      WholeTiles(a.n, a.steps);
      WholeTiles(b.n, b.steps);
      UnpermuteConcat(a.weight, b.weight, a.n / 16, b.n / 16, a.steps);
    }
  }

  lemma ColumnBeside(a: Scales, b: Scales, na: nat, nb: nat, i: nat)
    requires |a| == |b| && ScalesFit(a, na) && ScalesFit(b, nb) && i < na + nb
    ensures ScalesFit(Beside(a, b), na + nb)
    ensures Column(Beside(a, b), na + nb, i) == if i < na then Column(a, na, i) else Column(b, nb, i - na)
  {
  }

  /** Slicing the merged projection gives the two separate projections, in either storage order and for any kernel
      that treats weight rows independently. */
  lemma MergedSlices<X, Y>(dot: (X, seq<Byte>, seq<nat>, nat) -> Y, x: X, a: Tensors, b: Tensors, fragments: bool)
    requires Mergeable(a, b) && (fragments ==> a.n % 16 == 0 && b.n % 16 == 0)
    ensures Merged(a, b).Valid() && (fragments ==> (a.n + b.n) % 16 == 0)
    ensures Linear(dot, x, Merged(a, b), fragments)[..a.n] == Linear(dot, x, a, fragments)
    ensures Linear(dot, x, Merged(a, b), fragments)[a.n..] == Linear(dot, x, b, fragments)
  {
    hide Logical, Flat, RowRef, RowBytes, Column, Beside, Linear;
    MergedValid(a, b);
    LogicalConcat(a, b, fragments);
    var whole, parts := Linear(dot, x, Merged(a, b), fragments), Linear(dot, x, a, fragments) +
        Linear(dot, x, b, fragments);
    forall i | 0 <= i < a.n + b.n ensures whole[i] == parts[i] {
      MergedAt(dot, x, a, b, fragments, i);
    }
    assert whole == parts;
  }

  lemma MergedAt<X, Y>(dot: (X, seq<Byte>, seq<nat>, nat) -> Y, x: X, a: Tensors, b: Tensors, fragments: bool, i: nat)
    requires Mergeable(a, b) && (fragments ==> a.n % 16 == 0 && b.n % 16 == 0) && i < a.n + b.n
    requires Merged(a, b).Valid() && (fragments ==> (a.n + b.n) % 16 == 0)
    requires Logical(Merged(a, b), fragments) == Logical(a, fragments) + Logical(b, fragments)
    ensures Linear(dot, x, Merged(a, b), fragments)[i] ==
            if i < a.n then Linear(dot, x, a, fragments)[i] else Linear(dot, x, b, fragments)[i - a.n]
  {
    hide Logical, Flat, RowRef, RowBytes, Column, Beside;
    RowOfConcat(Logical(a, fragments), Logical(b, fragments), a.n, b.n, a.steps, i);
    ColumnBeside(a.scales, b.scales, a.n, b.n, i);
  }

  /** What a projection computes on its own.  One our kernel does not serve goes to another kernel, which reads the
      weight in a layout of its own. */
  function Output<X, Y>(dot: (X, seq<Byte>, seq<nat>, nat) -> Y, other: (X, Tensors) -> seq<Y>, served: bool, x: X,
                        t: Tensors, fragments: bool): seq<Y>
    requires t.Valid()
  {
    if served && (fragments ==> t.n % 16 == 0) then Linear(dot, x, t, fragments) else other(x, t)
  }

  /** The guards of _merge_one on two projections. */
  predicate CanMerge(servedA: bool, a: Tensors, servedB: bool, b: Tensors) {
    servedA && servedB && a.steps == b.steps && a.n % 16 == 0 && b.n % 16 == 0
  }

  /** Under the guards merging keeps both projections' outputs, whatever either kernel computes. */
  lemma MergingKeepsOutputs<X, Y>(dot: (X, seq<Byte>, seq<nat>, nat) -> Y, other: (X, Tensors) -> seq<Y>, x: X,
                                  servedA: bool, a: Tensors, servedB: bool, b: Tensors, fragments: bool)
    requires a.Valid() && b.Valid() && SameDepth(a, b) && CanMerge(servedA, a, servedB, b)
    ensures Mergeable(a, b) && Merged(a, b).Valid() && (a.n + b.n) % 16 == 0
    ensures var y := Linear(dot, x, Merged(a, b), fragments);
            && y[..a.n] == Output(dot, other, servedA, x, a, fragments)
            && y[a.n..] == Output(dot, other, servedB, x, b, fragments)
  {
    MergedSlices(dot, x, a, b, fragments);
    hide Linear, Merged, Tensors.Valid;
  }

  // ---------------------------------------------------------------------------
  // Merging one module in place
  // ---------------------------------------------------------------------------

  /** A projection of the module: whether our kernel serves it, and its tensors.  Weight and scales can be released. */
  class Projection {
    const served: bool
    const n: nat
    const steps: nat
    const ref: seq<nat>
    var weight: seq<Byte>
    var scales: Scales

    constructor (served: bool, t: Tensors)
      ensures this.served == served && Loaded() == t
    {
      this.served, n, steps, ref := served, t.n, t.steps, t.ref;
      weight, scales := t.weight, t.scales;
    }

    function Loaded(): Tensors
      reads this
    {
      Tensors(weight, scales, ref, n, steps)
    }
  }

  datatype Forward = Stock | MergedHip | MergedRx4

  /** The GDN module: its two input projections, the merged tensors once built, the forward it runs, and the marker the
      residual-stream rewrite looks for. */
  class GdnModule {
    var qkvz: Projection?
    var ba: Projection?
    var merged: Option<Tensors>
    var split: nat
    var forward: Forward
    var marked: bool

    constructor (qkvz: Projection?, ba: Projection?)
      ensures this.qkvz == qkvz && this.ba == ba && merged == None && forward == Stock && !marked
    {
      this.qkvz, this.ba, merged, split, forward, marked := qkvz, ba, None, 0, Stock, false;
    }

    /** What the guards of _merge_one admit. */
    ghost predicate Eligible()
      reads this, qkvz, ba
    {
      qkvz != null && ba != null && CanMerge(qkvz.served, qkvz.Loaded(), ba.served, ba.Loaded())
    }

    ghost predicate Loaded()
      reads this, qkvz, ba
    {
      && (qkvz != null ==> qkvz.Loaded().Valid())
      && (ba != null ==> ba.Loaded().Valid())
      && (qkvz != null && ba != null ==> qkvz != ba && SameDepth(qkvz.Loaded(), ba.Loaded()))
    }

    /** _merge_one; `rx4` is the profile in which the activation is quantised once for both projections. */
    method MergeOne(rx4: bool) returns (done: bool)
      requires Loaded()
      modifies this, qkvz, ba
      ensures done == old(Eligible())
      ensures qkvz == old(qkvz) && ba == old(ba)
      ensures !done ==> merged == old(merged) && split == old(split) && forward == old(forward) && marked == old(marked)
      ensures !done && qkvz != null ==> qkvz.Loaded() == old(qkvz.Loaded())
      ensures !done && ba != null ==> ba.Loaded() == old(ba.Loaded())
      ensures done ==> qkvz.weight == [] && qkvz.scales == [] && ba.weight == [] && ba.scales == []
      ensures done ==>
                && merged == Some(Merged(old(qkvz.Loaded()), old(ba.Loaded()))) && merged.value.Valid()
                && split == old(qkvz.n)
      ensures done ==> forward == (if rx4 then MergedRx4 else MergedHip) && marked == (old(marked) || rx4)
    {
      if qkvz == null || ba == null { return false; }
      if !(qkvz.served && ba.served) { return false; }
      if qkvz.steps != ba.steps { return false; }
      if qkvz.n % 16 != 0 || ba.n % 16 != 0 { return false; }
      MergedValid(qkvz.Loaded(), ba.Loaded());
      hide Tensors.Valid;
      merged := Some(Tensors(qkvz.weight + ba.weight, Beside(qkvz.scales, ba.scales), qkvz.ref + ba.ref,
                             qkvz.n + ba.n, qkvz.steps));
      split := qkvz.n;
      qkvz.weight, qkvz.scales := [], [];
      ba.weight, ba.scales := [], [];
      forward := if rx4 then MergedRx4 else MergedHip;
      if rx4 { marked := true; }
      done := true;
    }

    /** The merged forward's projections, one token: the two slices. */
    method Project<X, Y>(dot: (X, seq<Byte>, seq<nat>, nat) -> Y, x: X, fragments: bool, ghost a: Tensors,
                         ghost b: Tensors)
      returns (projQkvz: seq<Y>, projBa: seq<Y>)
      requires Mergeable(a, b) && a.n % 16 == 0 && b.n % 16 == 0
      requires merged == Some(Merged(a, b)) && split == a.n
      ensures projQkvz == Linear(dot, x, a, fragments) && projBa == Linear(dot, x, b, fragments)
    {
      MergedSlices(dot, x, a, b, fragments);
      hide *;
      var y := Linear(dot, x, merged.value, fragments);
      projQkvz, projBa := y[..split], y[split..];
    }
  }
}
