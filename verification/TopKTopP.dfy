/** Top-k/top-p masking of one row of logits from its largest candidates (radiance_topk.py), against the
    rule it replaces: sort ascending, threshold at the k-th largest value, drop the entries whose ascending
    cumulative probability is at most 1 - p, keep the last.

    The exponential is any positive function; rounding is not modelled. */
module TopKTopP {
  import opened Logits
  import opened Options

  // ---------------------------------------------------------------------------
  // Softmax
  // ---------------------------------------------------------------------------

  function Scaled(w: seq<real>, z: real): seq<real>
    requires z != 0.0
  {
    seq(|w|, j requires 0 <= j < |w| => w[j] / z)
  }

  function Softmax(exp: real -> real, xs: seq<Logit>): (probs: seq<real>)
    requires HasFinite(xs) && Positive(exp)
    ensures |probs| == |xs|
  {
    var w := Weights(exp, xs, MaxNum(xs));
    SumPositive(exp, xs, MaxNum(xs));
    Scaled(w, Sum(w))
  }

  /** The probabilities are the exponentials' shares, so minus infinity has none, and together they are one. */
  lemma SoftmaxIsShare(exp: real -> real, xs: seq<Logit>, j: nat)
    requires HasFinite(xs) && Exponential(exp) && j < |xs|
    ensures 0.0 < Sum(Exps(exp, xs)) && Softmax(exp, xs)[j] == Exps(exp, xs)[j] / Sum(Exps(exp, xs))
    ensures Sum(Softmax(exp, xs)) == 1.0
  {
    hide Exponential, HasFinite, Sum, Weight, MaxNum, Softmax;
    var m := MaxNum(xs);
    var w := Weights(exp, xs, m);
    WeightsRescaled(exp, xs, m);
    WeightRescaled(exp, xs[j], m);
    SoftmaxSums(exp, xs, |xs|);
    SoftmaxAt(exp, xs, j);
    assert Softmax(exp, xs)[..|xs|] == Softmax(exp, xs) && w[..|xs|] == w;
    ShareIs(w[j], Sum(w), exp(m));
  }

  lemma SoftmaxAt(exp: real -> real, xs: seq<Logit>, j: nat)
    requires HasFinite(xs) && Positive(exp) && j < |xs|
    ensures var w := Weights(exp, xs, MaxNum(xs)); 0.0 < Sum(w) && Softmax(exp, xs)[j] == w[j] / Sum(w)
  {
    SumPositive(exp, xs, MaxNum(xs));
    hide HasFinite, MaxNum, Weights, Sum, Positive;
  }

  // ---------------------------------------------------------------------------
  // The two rules
  // ---------------------------------------------------------------------------

  predicate Indexes(row: seq<Logit>, idx: seq<nat>) {
    && (forall j :: 0 <= j < |idx| ==> idx[j] < |row|)
    && (forall i, j :: 0 <= i < j < |idx| ==> idx[i] != idx[j])
  }

  function Gather(row: seq<Logit>, idx: seq<nat>): seq<Logit>
    requires Indexes(row, idx)
  {
    seq(|idx|, j requires 0 <= j < |idx| => row[idx[j]])
  }

  function Scatter(row: seq<Logit>, idx: seq<nat>, src: seq<Logit>): (out: seq<Logit>)
    requires Indexes(row, idx) && |src| == |idx|
    ensures |out| == |row|
  {
    if idx == [] then row
    else
      var n := |idx| - 1;
      Scatter(row, idx[..n], src[..n])[idx[n] := src[n]]
  }

  function MaskBelow(xs: seq<Logit>, threshold: Logit): (ys: seq<Logit>)
    ensures |ys| == |xs|
  {
    seq(|xs|, j requires 0 <= j < |xs| => if Less(xs[j], threshold) then NegInf else xs[j])
  }

  predicate Descending(xs: seq<Logit>) {
    forall i, j :: 0 <= i < j < |xs| ==> !Less(xs[i], xs[j])
  }

  predicate Ascending(xs: seq<Logit>) {
    forall i, j :: 0 <= i < j < |xs| ==> !Less(xs[j], xs[i])
  }

  /** What torch.topk may return: positions of the largest entries, largest first, ties in any order. */
  ghost predicate IsTopK(row: seq<Logit>, idx: seq<nat>) {
    && Indexes(row, idx) && Descending(Gather(row, idx)) && idx != []
    && forall i: nat :: i < |row| && i !in idx ==> !Less(row[idx[|idx| - 1]], row[i])
  }

  /** What an ascending sort may return: all positions, smallest entry first, ties in any order. */
  ghost predicate IsSort(row: seq<Logit>, ord: seq<nat>) {
    Indexes(row, ord) && |ord| == |row| && Ascending(Gather(row, ord))
  }

  /** The reference's top-p mask over ascending entries. */
  function TopPAscending(exp: real -> real, xs: seq<Logit>, p: real): (ys: seq<Logit>)
    requires HasFinite(xs) && Positive(exp)
    ensures |ys| == |xs|
  {
    var probs := Softmax(exp, xs);
    seq(|xs|, a requires 0 <= a < |xs| => if a != |xs| - 1 && Sum(probs[..a + 1]) <= 1.0 - p then NegInf else xs[a])
  }

  /** The composite's top-p mask over the descending candidate window. */
  function TopPWindow(exp: real -> real, vals: seq<Logit>, threshold: Logit, p: real): (ys: seq<Logit>)
    requires HasFinite(MaskBelow(vals, threshold)) && Positive(exp)
    ensures |ys| == |vals|
  {
    var probs := Softmax(exp, MaskBelow(vals, threshold));
    seq(|vals|, j requires 0 <= j < |vals| =>
      if Sum(probs[..j + 1]) - probs[j] >= p || Less(vals[j], threshold) then NegInf else vals[j])
  }

  function Clamp(k: int, cap: nat): nat
    requires 0 < cap
  {
    if k < 1 then 1 else if cap < k then cap else k
  }

  lemma TopKFinite(row: seq<Logit>, idx: seq<nat>, k: nat)
    requires IsTopK(row, idx) && HasFinite(row) && 1 <= k <= |idx|
    ensures HasFinite(MaskBelow(Gather(row, idx), Gather(row, idx)[k - 1]))
  {
    var x :| x in row && x.Num?;
    var i :| 0 <= i < |row| && row[i] == x;
    var v := Gather(row, idx);
    assert v[0] == row[idx[0]] && v[|idx| - 1] == row[idx[|idx| - 1]];
    if i in idx {
      var j :| 0 <= j < |idx| && idx[j] == i;
      assert v[j] == x && !Less(v[0], x);
    } else {
      assert !Less(v[|idx| - 1], x) && !Less(v[0], v[|idx| - 1]);
    }
    assert !Less(v[0], v[k - 1]);
    assert MaskBelow(v, v[k - 1])[0] == v[0];
  }

  ghost function Composite(exp: real -> real, row: seq<Logit>, idx: seq<nat>, k: int,
                           p: Option<real>): (out: seq<Logit>)
    requires IsTopK(row, idx) && Positive(exp) && (p.Some? ==> HasFinite(row))
    ensures |out| == |row|
  {
    var vals := Gather(row, idx);
    var threshold := vals[Clamp(k, |idx|) - 1];
    var kept := MaskBelow(row, threshold);
    if p.None? then kept
    else
      TopKFinite(row, idx, Clamp(k, |idx|));
      Scatter(kept, idx, TopPWindow(exp, vals, threshold, p.value))
  }

  method MaskedFill(logits: array<Logit>, threshold: Logit)
    modifies logits
    ensures logits[..] == MaskBelow(old(logits[..]), threshold)
  {
    ghost var row := logits[..];
    for i := 0 to logits.Length
      invariant forall j :: 0 <= j < i ==> logits[j] == MaskBelow(row, threshold)[j]
      invariant forall j :: i <= j < logits.Length ==> logits[j] == row[j]
    {
      if Less(logits[i], threshold) { logits[i] := NegInf; }
    }
  }

  method ScatterInto(logits: array<Logit>, idx: seq<nat>, src: seq<Logit>)
    requires Indexes(logits[..], idx) && |src| == |idx|
    modifies logits
    ensures logits[..] == Scatter(old(logits[..]), idx, src)
  {
    ghost var row := logits[..];
    for j := 0 to |idx|
      invariant logits[..] == Scatter(row, idx[..j], src[..j])
    {
      logits[idx[j]] := src[j];
      assert idx[..j + 1][..j] == idx[..j] && src[..j + 1][..j] == src[..j];
    }
    assert idx[..|idx|] == idx && src[..|idx|] == src;
  }

  /** apply_top_k_top_p_composite on one row, in place; `idx` is what torch.topk returned for it. */
  method ApplyTopKTopPComposite(exp: real -> real, logits: array<Logit>, idx: seq<nat>, k: int, p: Option<real>)
    requires IsTopK(logits[..], idx) && Positive(exp) && (p.Some? ==> HasFinite(logits[..]))
    modifies logits
    ensures logits[..] == Composite(exp, old(logits[..]), idx, k, p)
  {
    ghost var row := logits[..];
    var vals := Gather(logits[..], idx);
    var threshold := vals[Clamp(k, |idx|) - 1];
    if p.Some? { TopKFinite(row, idx, Clamp(k, |idx|)); }
    hide IsTopK, HasFinite;
    MaskedFill(logits, threshold);
    if p.Some? {
      ScatterInto(logits, idx, TopPWindow(exp, vals, threshold, p.value));
    }
  }

  // ---------------------------------------------------------------------------
  // Ties do not affect the sorted values
  // ---------------------------------------------------------------------------

  function Elements(s: seq<nat>): set<nat> {
    set x | x in s
  }

  function Below(n: nat): (s: set<nat>)
    ensures |s| == n && forall x: nat :: x in s <==> x < n
  {
    if n == 0 then {} else Below(n - 1) + {n - 1}
  }

  lemma {:induction false} DistinctCardinality(idx: seq<nat>)
    requires forall i, j :: 0 <= i < j < |idx| ==> idx[i] != idx[j]
    ensures |Elements(idx)| == |idx|
  {
    if idx != [] {
      var n := |idx| - 1;
      DistinctCardinality(idx[..n]);
      assert idx == idx[..n] + [idx[n]];
      assert Elements(idx) == Elements(idx[..n]) + {idx[n]};
      assert idx[n] !in idx[..n];
    }
  }

  lemma SubsetCardinality<T>(a: set<T>, b: set<T>)
    requires a <= b
    ensures |a| <= |b|
  {
    if a != {} {
      var x :| x in a;
      SubsetCardinality(a - {x}, b - {x});
    }
  }

  lemma PrefixCardinality(idx: seq<nat>, n: nat)
    requires n <= |idx|
    requires forall i, j :: 0 <= i < j < |idx| ==> idx[i] != idx[j]
    ensures |Elements(idx[..n])| == n
  {
    DistinctCardinality(idx[..n]);
  }

  lemma TopKBelow(row: seq<Logit>, a: seq<nat>, b: seq<nat>, j: nat)
    requires IsTopK(row, a) && IsTopK(row, b) && j < |a| && j < |b|
    ensures !Less(row[b[j]], row[a[j]])
  {
    if Less(row[b[j]], row[a[j]]) {
      var above := Elements(a[..j + 1]);
      var earlier := Elements(b[..j]);
      forall x | x in above ensures x in earlier {
        var i :| 0 <= i <= j && a[i] == x;
        assert Gather(row, a)[i] == row[x] && Gather(row, a)[j] == row[a[j]];
        assert Less(row[b[j]], row[x]);
        assert Gather(row, b)[j] == row[b[j]] && Gather(row, b)[|b| - 1] == row[b[|b| - 1]];
        assert x in b;
        var m :| 0 <= m < |b| && b[m] == x;
        assert Gather(row, b)[m] == row[x];
        assert m < j;
      }
      PrefixCardinality(a, j + 1);
      PrefixCardinality(b, j);
      SubsetCardinality(above, earlier);
    }
  }

  /** Any two lists of largest entries hold the same values, position by position. */
  lemma TopKValuesAgree(row: seq<Logit>, a: seq<nat>, b: seq<nat>, j: nat)
    requires IsTopK(row, a) && IsTopK(row, b) && j < |a| && j < |b|
    ensures row[a[j]] == row[b[j]]
  {
    TopKBelow(row, a, b, j);
    TopKBelow(row, b, a, j);
  }

  function Reverse<T>(s: seq<T>): seq<T> {
    seq(|s|, j requires 0 <= j < |s| => s[|s| - 1 - j])
  }

  lemma ReversedGather(row: seq<Logit>, ord: seq<nat>)
    requires Indexes(row, ord)
    ensures Indexes(row, Reverse(ord)) && Gather(row, Reverse(ord)) == Reverse(Gather(row, ord))
  {
  }

  lemma ReverseDescends(xs: seq<Logit>)
    requires Ascending(xs)
    ensures Descending(Reverse(xs))
  {
  }

  /** A sorted order, read backwards, is a list of the |row| largest entries. */
  lemma ReversedSortIsTopK(row: seq<Logit>, ord: seq<nat>)
    requires IsSort(row, ord) && row != []
    ensures IsTopK(row, Reverse(ord))
  {
    var d := Reverse(ord);
    ReversedGather(row, ord);
    ReverseDescends(Gather(row, ord));
    hide Gather, Ascending, Descending;
    forall i: nat | i < |row| ensures i in d {
      AllPresent(row, ord, i);
      var j :| 0 <= j < |ord| && ord[j] == i;
      assert d[|ord| - 1 - j] == i;
    }
  }

  lemma AllPresent(row: seq<Logit>, ord: seq<nat>, i: nat)
    requires Indexes(row, ord) && |ord| == |row| && i < |row|
    ensures i in ord
  {
    if i !in ord {
      var s := Elements(ord);
      DistinctCardinality(ord);
      SubsetCardinality(s + {i}, Below(|row|));
    }
  }

  // ---------------------------------------------------------------------------
  // Sums
  // ---------------------------------------------------------------------------

  lemma {:induction false} SumScaled(w: seq<real>, z: real)
    requires z != 0.0
    ensures Sum(Scaled(w, z)) == Sum(w) / z
  {
    if w != [] {
      assert Scaled(w, z)[..|w| - 1] == Scaled(w[..|w| - 1], z);
      SumScaled(w[..|w| - 1], z);
    }
  }

  lemma {:induction false} SumReverse(w: seq<real>)
    ensures Sum(Reverse(w)) == Sum(w)
  {
    if w != [] {
      var n := |w| - 1;
      assert Reverse(w) == [w[n]] + Reverse(w[..n]);
      SumAppend([w[n]], Reverse(w[..n]));
      assert Sum([w[n]]) == w[n] by { assert [w[n]][..0] == []; }
      SumReverse(w[..n]);
    }
  }

  /** An ascending cumulative sum is the total less the descending sum of what lies above. */
  lemma SumOfReversedPrefix(w: seq<real>, j: nat)
    requires j < |w|
    ensures Sum(Reverse(w)[..|w| - j]) == Sum(w) - Sum(w[..j])
  {
    assert w == w[..j] + w[j..];
    SumAppend(w[..j], w[j..]);
    SumReverse(w[j..]);
    assert Reverse(w)[..|w| - j] == Reverse(w[j..]);
  }

  lemma {:induction false} SumZeros(w: seq<real>)
    requires forall j :: 0 <= j < |w| ==> w[j] == 0.0
    ensures Sum(w) == 0.0
  {
    if w != [] {
      SumZeros(w[..|w| - 1]);
    }
  }

  // ---------------------------------------------------------------------------
  // Both rules keep the same positions of the descending values
  // ---------------------------------------------------------------------------

  /** The probability mass strictly before position j of the descending, thresholded values. */
  function MassBefore(exp: real -> real, d: seq<Logit>, j: nat): real
    requires j <= |d| && HasFinite(d) && Positive(exp)
  {
    Sum(Softmax(exp, d)[..j])
  }

  /** What ends up at descending position j. */
  function Kept(exp: real -> real, d: seq<Logit>, p: real, j: nat): Logit
    requires j < |d| && HasFinite(d) && Positive(exp)
  {
    if MassBefore(exp, d, j) < p then d[j] else NegInf
  }

  lemma SoftmaxSums(exp: real -> real, xs: seq<Logit>, j: nat)
    requires HasFinite(xs) && Positive(exp) && j <= |xs|
    ensures var w := Weights(exp, xs, MaxNum(xs));
            0.0 < Sum(w) && Sum(Softmax(exp, xs)[..j]) == Sum(w[..j]) / Sum(w)
  {
    var w := Weights(exp, xs, MaxNum(xs));
    SumPositive(exp, xs, MaxNum(xs));
    assert Softmax(exp, xs)[..j] == Scaled(w[..j], Sum(w));
    SumScaled(w[..j], Sum(w));
  }

  lemma MaxReverse(d: seq<Logit>)
    requires HasFinite(d) && Descending(d)
    ensures HasFinite(Reverse(d)) && d[0].Num? && MaxNum(d) == d[0].x && MaxNum(Reverse(d)) == d[0].x
  {
    var x :| x in d && x.Num?;
    var j :| 0 <= j < |d| && d[j] == x;
    assert Reverse(d)[|d| - 1 - j] == x;
    assert Reverse(d)[|d| - 1] == d[0];
    MaxIs(d, d[0]);
    forall y | y in Reverse(d) ensures !Less(d[0], y) {
      var i :| 0 <= i < |d| && Reverse(d)[i] == y;
    }
    MaxIs(Reverse(d), d[0]);
  }

  lemma WeightsReverse(exp: real -> real, d: seq<Logit>, m: real)
    ensures Weights(exp, Reverse(d), m) == Reverse(Weights(exp, d, m)) && |Weights(exp, d, m)| == |d|
  {
  }

  lemma AscendingMass(exp: real -> real, d: seq<Logit>, j: nat)
    requires HasFinite(d) && Descending(d) && Positive(exp) && j < |d|
    ensures HasFinite(Reverse(d))
    ensures Sum(Softmax(exp, Reverse(d))[..|d| - j]) == 1.0 - MassBefore(exp, d, j)
  {
    hide Softmax, Weights, MaxNum, Positive, Sum, HasFinite, Descending;
    MaxReverse(d);
    var w := Weights(exp, d, MaxNum(d));
    WeightsReverse(exp, d, MaxNum(d));
    SoftmaxSums(exp, d, j);
    SoftmaxSums(exp, Reverse(d), |d| - j);
    SumReverse(w);
    SumOfReversedPrefix(w, j);
    Complement(Sum(w), Sum(w[..j]));
  }

  lemma Complement(z: real, x: real)
    requires z != 0.0
    ensures (z - x) / z == 1.0 - x / z
  {
    var q, r := x / z, (z - x) / z;
    assert q * z == x;
    assert r * z == z - x;
    ZeroProduct(r + q - 1.0, z);
  }

  lemma AscendingKeeps(exp: real -> real, d: seq<Logit>, p: real, j: nat)
    requires HasFinite(d) && Descending(d) && Positive(exp) && j < |d| && 0.0 < p
    ensures HasFinite(Reverse(d))
    ensures TopPAscending(exp, Reverse(d), p)[|d| - 1 - j] == Kept(exp, d, p, j)
  {
    hide HasFinite, Descending, Positive, MaxNum, Weights;
    AscendingMass(exp, d, j);
    if j == 0 { assert Softmax(exp, d)[..0] == []; }
  }

  /** A window of the largest values has the whole row's maximum, hence its weights. */
  lemma WindowWeights(exp: real -> real, d: seq<Logit>, n: nat)
    requires HasFinite(d) && Descending(d) && 0 < n <= |d|
    ensures HasFinite(d[..n]) && |Weights(exp, d, MaxNum(d))| == |d|
    ensures Weights(exp, d[..n], MaxNum(d[..n])) == Weights(exp, d, MaxNum(d))[..n]
  {
    hide MaxNum;
    MaxReverse(d);
    assert d[..n][0] == d[0];
    MaxIs(d[..n], d[0]);
  }

  /** The mass before a position of a window of the largest values, from the whole row's weights. */
  lemma WindowFacts(exp: real -> real, d: seq<Logit>, n: nat, j: nat)
    requires HasFinite(d) && Descending(d) && Positive(exp) && j <= n && 0 < n <= |d|
    ensures HasFinite(d[..n])
    ensures var w := Weights(exp, d, MaxNum(d));
            |w| == |d| && 0.0 < Sum(w[..n]) && MassBefore(exp, d[..n], j) == Sum(w[..j]) / Sum(w[..n])
  {
    hide Softmax, Weights, MaxNum, Sum, HasFinite, Positive, Descending;
    WindowWeights(exp, d, n);
    SoftmaxSums(exp, d[..n], j);
    assert Weights(exp, d, MaxNum(d))[..n][..j] == Weights(exp, d, MaxNum(d))[..j];
  }

  lemma WindowMass(exp: real -> real, d: seq<Logit>, n: nat, j: nat)
    requires HasFinite(d) && Descending(d) && Positive(exp) && j < n <= |d|
    requires forall i :: n <= i < |d| ==> d[i].NegInf?
    ensures HasFinite(d[..n])
    ensures MassBefore(exp, d[..n], j) == MassBefore(exp, d, j)
  {
    WindowFacts(exp, d, n, j);
    SoftmaxSums(exp, d, j);
    var w := Weights(exp, d, MaxNum(d));
    SumZeros(w[n..]);
    hide Softmax, Weights, MaxNum;
    assert w == w[..n] + w[n..];
    SumAppend(w[..n], w[n..]);
  }

  lemma WindowKeeps(exp: real -> real, d: seq<Logit>, vals: seq<Logit>, threshold: Logit, p: real, j: nat)
    requires HasFinite(d) && Descending(d) && Positive(exp) && j < |vals| <= |d|
    requires MaskBelow(vals, threshold) == d[..|vals|]
    requires forall i :: |vals| <= i < |d| ==> d[i].NegInf?
    ensures HasFinite(MaskBelow(vals, threshold))
    ensures TopPWindow(exp, vals, threshold, p)[j] == Kept(exp, d, p, j)
  {
    WindowMass(exp, d, |vals|, j);
    var v := d[..|vals|];
    assert |Softmax(exp, v)| == |vals|;
    assert MaskBelow(vals, threshold)[j] == d[j];
    hide Softmax, HasFinite, Descending, MaskBelow;
    var probs := Softmax(exp, v);
    assert probs[..j + 1][..j] == probs[..j];
  }

  // ---------------------------------------------------------------------------
  // Exactness
  // ---------------------------------------------------------------------------

  /** The row's values, largest first, with those below the k-th largest removed. */
  function Thresholded(row: seq<Logit>, ord: seq<nat>, k: nat): (d: seq<Logit>)
    requires Indexes(row, ord) && |ord| == |row| && 1 <= k <= |row|
    ensures |d| == |row|
  {
    var d := Gather(row, Reverse(ord));
    MaskBelow(d, d[k - 1])
  }

  /** Every finite entry tied with or above the k-th largest is among the candidates. */
  predicate TiesFit(row: seq<Logit>, idx: seq<nat>, k: nat)
    requires Indexes(row, idx) && 1 <= k <= |idx|
  {
    forall i: nat :: i < |row| && i !in idx && row[i].Num? ==> Less(row[i], row[idx[k - 1]])
  }

  /** The top-p cut does not fall between two equal values. */
  predicate NoTieAtCut(exp: real -> real, d: seq<Logit>, p: real)
    requires HasFinite(d) && Positive(exp)
  {
    forall j :: 1 <= j < |d| && d[j].Num? && d[j] == d[j - 1] ==>
      (MassBefore(exp, d, j - 1) < p <==> MassBefore(exp, d, j) < p)
  }

  lemma {:induction false} ScatterAt(row: seq<Logit>, idx: seq<nat>, src: seq<Logit>, j: nat)
    requires Indexes(row, idx) && |src| == |idx| && j < |idx|
    ensures Scatter(row, idx, src)[idx[j]] == src[j]
  {
    var n := |idx| - 1;
    if j < n { ScatterAt(row, idx[..n], src[..n], j); }
  }

  lemma {:induction false} ScatterOutside(row: seq<Logit>, idx: seq<nat>, src: seq<Logit>, i: nat)
    requires Indexes(row, idx) && |src| == |idx| && i < |row| && i !in idx
    ensures Scatter(row, idx, src)[i] == row[i]
  {
    if idx != [] {
      var n := |idx| - 1;
      ScatterOutside(row, idx[..n], src[..n], i);
    }
  }

  lemma MaskDescends(d: seq<Logit>, threshold: Logit)
    requires Descending(d)
    ensures Descending(MaskBelow(d, threshold))
  {
    var m := MaskBelow(d, threshold);
    forall i, j | 0 <= i < j < |m| ensures !Less(m[i], m[j]) {
      assert !Less(d[i], d[j]);
    }
  }

  lemma MaskKeepsTop(d: seq<Logit>, k: nat)
    requires Descending(d) && HasFinite(d) && 1 <= k <= |d|
    ensures HasFinite(MaskBelow(d, d[k - 1])) && HasFinite(Reverse(MaskBelow(d, d[k - 1])))
  {
    var x :| x in d && x.Num?;
    assert !Less(d[0], d[k - 1]) && !Less(d[0], x);
    var m := MaskBelow(d, d[k - 1]);
    assert m[0] == d[0] && Reverse(m)[|m| - 1] == d[0];
  }

  lemma MaskReverse(xs: seq<Logit>, threshold: Logit)
    ensures MaskBelow(Reverse(xs), threshold) == Reverse(MaskBelow(xs, threshold))
    ensures Reverse(Reverse(xs)) == xs
  {
  }

  lemma GatherFinite(row: seq<Logit>, ord: seq<nat>)
    requires IsSort(row, ord) && HasFinite(row)
    ensures HasFinite(Reverse(Gather(row, ord)))
  {
    var x :| x in row && x.Num?;
    var i :| 0 <= i < |row| && row[i] == x;
    AllPresent(row, ord, i);
    var a :| 0 <= a < |ord| && ord[a] == i;
    assert Reverse(Gather(row, ord))[|ord| - 1 - a] == x;
  }

  /** The sorted values read backwards. */
  lemma SortedFacts(row: seq<Logit>, ord: seq<nat>, k: nat)
    requires IsSort(row, ord) && 1 <= k <= |row|
    ensures IsTopK(row, Reverse(ord)) && Gather(row, Reverse(ord)) == Reverse(Gather(row, ord))
    ensures |Gather(row, ord)| == |row| && Descending(Gather(row, Reverse(ord)))
    ensures Gather(row, ord)[|row| - k] == Gather(row, Reverse(ord))[k - 1]
  {
    hide Descending, Ascending;
    ReversedSortIsTopK(row, ord);
    ReversedGather(row, ord);
  }

  lemma ThresholdedFacts(row: seq<Logit>, ord: seq<nat>, k: nat)
    requires IsSort(row, ord) && 1 <= k <= |row|
    ensures Descending(Thresholded(row, ord, k)) && IsTopK(row, Reverse(ord))
    ensures Gather(row, ord)[|row| - k] == Gather(row, Reverse(ord))[k - 1]
    ensures MaskBelow(Gather(row, ord), Gather(row, ord)[|row| - k]) == Reverse(Thresholded(row, ord, k))
    ensures HasFinite(row) ==> HasFinite(Thresholded(row, ord, k)) && HasFinite(Reverse(Thresholded(row, ord, k)))
  {
    hide Descending, Ascending, HasFinite, MaskBelow, Gather;
    SortedFacts(row, ord, k);
    if HasFinite(row) { GatherFinite(row, ord); }
    var sorted, d := Gather(row, ord), Gather(row, Reverse(ord));
    MaskDescends(d, d[k - 1]);
    MaskReverse(sorted, d[k - 1]);
    MaskReverse(MaskBelow(sorted, d[k - 1]), d[k - 1]);
    if HasFinite(row) { MaskKeepsTop(d, k); }
  }

  ghost function Reference(exp: real -> real, row: seq<Logit>, ord: seq<nat>, k: nat,
                           p: Option<real>): (out: seq<Logit>)
    requires IsSort(row, ord) && 1 <= k <= |row| && Positive(exp) && (p.Some? ==> HasFinite(row))
    ensures |out| == |row|
  {
    var sorted := Gather(row, ord);
    var masked := MaskBelow(sorted, sorted[|row| - k]);
    if p.None? then Scatter(row, ord, masked)
    else
      ThresholdedFacts(row, ord, k);
      Scatter(row, ord, TopPAscending(exp, masked, p.value))
  }

  /** When the ties fit, nothing finite is left beyond the candidate window. */
  lemma BeyondWindow(row: seq<Logit>, idx: seq<nat>, ord: seq<nat>, k: nat, j: nat)
    requires IsTopK(row, idx) && IsSort(row, ord) && 1 <= k <= |idx| <= j < |row|
    requires TiesFit(row, idx, k)
    ensures Thresholded(row, ord, k)[j].NegInf?
  {
    hide Descending, Ascending, HasFinite;
    ThresholdedFacts(row, ord, k);
    var r := Reverse(ord);
    TopKValuesAgree(row, idx, r, k - 1);
    if row[r[j]].Num? && !Less(row[r[j]], row[r[k - 1]]) {
      TiedInWindow(row, idx, r, k, j);
    }
  }

  lemma TiedInWindow(row: seq<Logit>, idx: seq<nat>, r: seq<nat>, k: nat, j: nat)
    requires IsTopK(row, idx) && IsTopK(row, r) && 1 <= k <= |idx| && k <= |r| && j < |r|
    requires TiesFit(row, idx, k) && row[r[k - 1]] == row[idx[k - 1]]
    requires row[r[j]].Num? && !Less(row[r[j]], row[r[k - 1]])
    ensures j < |idx|
  {
    forall x | x in Elements(r[..j + 1]) ensures x in Elements(idx) {
      var i :| 0 <= i <= j && r[i] == x;
      assert Gather(row, r)[i] == row[x] && Gather(row, r)[j] == row[r[j]];
    }
    PrefixCardinality(r, j + 1);
    DistinctCardinality(idx);
    SubsetCardinality(Elements(r[..j + 1]), Elements(idx));
  }

  lemma WindowIsPrefix(row: seq<Logit>, idx: seq<nat>, ord: seq<nat>, k: nat)
    requires IsTopK(row, idx) && IsSort(row, ord) && 1 <= k <= |idx|
    ensures |idx| <= |row|
    ensures Gather(row, idx)[k - 1] == Gather(row, Reverse(ord))[k - 1]
    ensures MaskBelow(Gather(row, idx), Gather(row, idx)[k - 1]) == Thresholded(row, ord, k)[..|idx|]
  {
    forall x | x in Elements(idx) ensures x in Below(|row|) {
    }
    DistinctCardinality(idx);
    SubsetCardinality(Elements(idx), Below(|row|));
    ThresholdedFacts(row, ord, k);
    forall j | 0 <= j < |idx| ensures Gather(row, idx)[j] == Gather(row, Reverse(ord))[j] {
      TopKValuesAgree(row, idx, Reverse(ord), j);
    }
  }

  lemma {:induction false} KeptByValue(exp: real -> real, d: seq<Logit>, p: real, i: nat, j: nat)
    requires HasFinite(d) && Descending(d) && Positive(exp) && NoTieAtCut(exp, d, p)
    requires i <= j < |d| && d[i] == d[j]
    ensures Kept(exp, d, p, i) == Kept(exp, d, p, j)
  {
    hide HasFinite;
    if i < j && d[j].Num? {
      assert !Less(d[i], d[j - 1]) && !Less(d[j - 1], d[j]);
      assert d[j - 1] == d[j];
      KeptByValue(exp, d, p, i, j - 1);
    }
  }

  /** The reference at the row index that sorts to descending position j. */
  lemma ReferenceAt(exp: real -> real, row: seq<Logit>, ord: seq<nat>, k: nat, p: real, j: nat)
    requires IsSort(row, ord) && 1 <= k <= |row| && Positive(exp) && 0.0 < p && HasFinite(row) && j < |row|
    ensures HasFinite(Thresholded(row, ord, k))
    ensures Reference(exp, row, ord, k, Some(p))[Reverse(ord)[j]] == Kept(exp, Thresholded(row, ord, k), p, j)
  {
    hide Kept, TopPAscending, Scatter, HasFinite, Descending, Ascending, IsTopK, Positive, Thresholded, MaskBelow;
    ThresholdedFacts(row, ord, k);
    var d := Thresholded(row, ord, k);
    AscendingKeeps(exp, d, p, j);
    ScatterAt(row, ord, TopPAscending(exp, Reverse(d), p), |ord| - 1 - j);
  }

  /** The composite at the candidate j of the window. */
  lemma CompositeAt(exp: real -> real, row: seq<Logit>, idx: seq<nat>, ord: seq<nat>, k: nat, p: real, j: nat)
    requires IsSort(row, ord) && IsTopK(row, idx) && 1 <= k <= |idx| && Positive(exp) && HasFinite(row)
    requires TiesFit(row, idx, k) && j < |idx|
    ensures |idx| <= |row| && HasFinite(Thresholded(row, ord, k))
    ensures Composite(exp, row, idx, k, Some(p))[idx[j]] == Kept(exp, Thresholded(row, ord, k), p, j)
  {
    hide Kept, TopPWindow, Scatter, HasFinite, Descending, Ascending, Positive, Thresholded, MaskBelow, TiesFit;
    WindowIsPrefix(row, idx, ord, k);
    ThresholdedFacts(row, ord, k);
    TopKFinite(row, idx, k);
    var d := Thresholded(row, ord, k);
    var vals := Gather(row, idx);
    forall i | |idx| <= i < |d| ensures d[i].NegInf? {
      BeyondWindow(row, idx, ord, k, i);
    }
    hide IsSort, IsTopK;
    WindowKeeps(exp, d, vals, vals[k - 1], p, j);
    ScatterAt(MaskBelow(row, vals[k - 1]), idx, TopPWindow(exp, vals, vals[k - 1], p), j);
  }

  /** Outside the window the composite only applies the value threshold. */
  lemma CompositeOutside(exp: real -> real, row: seq<Logit>, idx: seq<nat>, k: nat, p: real, i: nat)
    requires IsTopK(row, idx) && 1 <= k <= |idx| && Positive(exp) && HasFinite(row)
    requires i < |row| && i !in idx
    ensures Composite(exp, row, idx, k, Some(p))[i] == if Less(row[i], row[idx[k - 1]]) then NegInf else row[i]
  {
    hide HasFinite, TopPWindow, Descending, Positive, Scatter;
    TopKFinite(row, idx, k);
    var vals := Gather(row, idx);
    hide IsTopK;
    ScatterOutside(MaskBelow(row, vals[k - 1]), idx, TopPWindow(exp, vals, vals[k - 1], p), i);
  }

  /** A k below one is one, and a k past the window is the window. */
  lemma KIsClamped(exp: real -> real, row: seq<Logit>, idx: seq<nat>, k: int, p: Option<real>)
    requires IsTopK(row, idx) && Positive(exp) && (p.Some? ==> HasFinite(row))
    ensures k <= 1 ==> Composite(exp, row, idx, k, p) == Composite(exp, row, idx, 1, p)
    ensures |idx| <= k ==> Composite(exp, row, idx, k, p) == Composite(exp, row, idx, |idx|, p)
  {
    hide HasFinite, Scatter, MaskBelow, TopPWindow, Positive, Descending;
  }

  /** Without top-p the composite is exact, ties beyond the window included. */
  lemma TopKIsExact(exp: real -> real, row: seq<Logit>, idx: seq<nat>, ord: seq<nat>, k: nat)
    requires IsSort(row, ord) && IsTopK(row, idx) && 1 <= k <= |idx| && Positive(exp)
    ensures |idx| <= |row|
    ensures Composite(exp, row, idx, k, None) == Reference(exp, row, ord, k, None)
  {
    hide Scatter, Descending, Ascending, Elements, Reverse;
    WindowIsPrefix(row, idx, ord, k);
    ThresholdedFacts(row, ord, k);
    hide IsTopK;
    var sorted := Gather(row, ord);
    var masked := MaskBelow(sorted, sorted[|row| - k]);
    var a, b := Composite(exp, row, idx, k, None), Reference(exp, row, ord, k, None);
    forall i: nat | i < |row| ensures a[i] == b[i] {
      AllPresent(row, ord, i);
      var j :| 0 <= j < |ord| && ord[j] == i;
      ScatterAt(row, ord, masked, j);
    }
  }

  /** With top-p the composite is exact when the ties fit and the cut splits no tie, whatever orders torch.topk
      and the sort give to equal entries. */
  lemma CompositeIsExact(exp: real -> real, row: seq<Logit>, idx: seq<nat>, ord: seq<nat>, k: nat, p: real)
    requires IsSort(row, ord) && IsTopK(row, idx) && 1 <= k <= |idx| <= |row| && Positive(exp) && HasFinite(row) &&
             0.0 < p
    requires TiesFit(row, idx, k)
    requires HasFinite(Thresholded(row, ord, k)) && NoTieAtCut(exp, Thresholded(row, ord, k), p)
    ensures Composite(exp, row, idx, k, Some(p)) == Reference(exp, row, ord, k, Some(p))
  {
    hide Composite, Reference, IsSort, IsTopK, HasFinite, NoTieAtCut, TiesFit;
    var a, b := Composite(exp, row, idx, k, Some(p)), Reference(exp, row, ord, k, Some(p));
    forall i: nat | i < |row| ensures a[i] == b[i] {
      SameAt(exp, row, idx, ord, k, p, i);
    }
  }

  lemma PositionOf(row: seq<Logit>, ord: seq<nat>, i: nat) returns (j: nat)
    requires IsSort(row, ord) && i < |row|
    ensures j < |row| && Reverse(ord)[j] == i
  {
    AllPresent(row, ord, i);
    var a :| 0 <= a < |ord| && ord[a] == i;
    j := |ord| - 1 - a;
  }

  lemma SameAt(exp: real -> real, row: seq<Logit>, idx: seq<nat>, ord: seq<nat>, k: nat, p: real, i: nat)
    requires IsSort(row, ord) && IsTopK(row, idx) && 1 <= k <= |idx| <= |row| && Positive(exp) && HasFinite(row) &&
             0.0 < p
    requires TiesFit(row, idx, k) && i < |row|
    requires HasFinite(Thresholded(row, ord, k)) && NoTieAtCut(exp, Thresholded(row, ord, k), p)
    ensures Composite(exp, row, idx, k, Some(p))[i] == Reference(exp, row, ord, k, Some(p))[i]
  {
    hide Composite, Reference, HasFinite, NoTieAtCut;
    WindowIsPrefix(row, idx, ord, k);
    ThresholdedFacts(row, ord, k);
    var d := Thresholded(row, ord, k);
    var jr := PositionOf(row, ord, i);
    ReferenceAt(exp, row, ord, k, p, jr);
    assert d[jr] == if Less(row[i], row[idx[k - 1]]) then NegInf else row[i];
    if i in idx {
      var jc :| 0 <= jc < |idx| && idx[jc] == i;
      CompositeAt(exp, row, idx, ord, k, p, jc);
      hide IsSort, IsTopK, TiesFit, Descending;
      assert d[jc] == MaskBelow(Gather(row, idx), Gather(row, idx)[k - 1])[jc];
      assert d[jc] == d[jr];
      if jc <= jr { KeptByValue(exp, d, p, jc, jr); } else { KeptByValue(exp, d, p, jr, jc); }
    } else {
      CompositeOutside(exp, row, idx, k, p, i);
      assert d[jr] == NegInf;
    }
  }

  function Swapped(ord: seq<nat>, a: nat): seq<nat>
    requires a + 1 < |ord|
  {
    ord[a := ord[a + 1]][a + 1 := ord[a]]
  }

  /** Swapping two neighbours of equal value is another legal sort. */
  lemma SwappedIsSort(row: seq<Logit>, ord: seq<nat>, a: nat)
    requires IsSort(row, ord) && a + 1 < |ord| && row[ord[a]] == row[ord[a + 1]]
    ensures IsSort(row, Swapped(ord, a))
    ensures Gather(row, Swapped(ord, a)) == Gather(row, ord)
  {
    assert Gather(row, Swapped(ord, a)) == Gather(row, ord);
  }

  /** If the cut splits a tie, two legal sorts give different references. */
  lemma SplitTieOrders(exp: real -> real, row: seq<Logit>, ord: seq<nat>, k: nat, p: real) returns (o: seq<nat>)
    requires IsSort(row, ord) && 1 <= k <= |row| && Positive(exp) && HasFinite(row) && 0.0 < p
    requires HasFinite(Thresholded(row, ord, k)) && !NoTieAtCut(exp, Thresholded(row, ord, k), p)
    ensures IsSort(row, o) && Reference(exp, row, o, k, Some(p)) != Reference(exp, row, ord, k, Some(p))
  {
    var d := Thresholded(row, ord, k);
    assert |d| == |row|;
    hide *;
    var j := SplitTie(exp, d, p);
    var i: nat;
    o, i := SwapTie(row, ord, k, j);
    SortedPositionsDiffer(exp, row, ord, o, k, p, j, i);
  }

  lemma SortedPositionsDiffer(exp: real -> real, row: seq<Logit>, ord: seq<nat>, o: seq<nat>, k: nat, p: real, j: nat,
                              i: nat)
    requires IsSort(row, ord) && IsSort(row, o) && 1 <= k <= |row| && Positive(exp) && HasFinite(row) && 0.0 < p
    requires 1 <= j < |row| && i < |row| && Thresholded(row, o, k) == Thresholded(row, ord, k) &&
             HasFinite(Thresholded(row, ord, k))
    requires Reverse(ord)[j] == i && Reverse(o)[j - 1] == i
    requires Kept(exp, Thresholded(row, ord, k), p, j) != Kept(exp, Thresholded(row, ord, k), p, j - 1)
    ensures Reference(exp, row, o, k, Some(p)) != Reference(exp, row, ord, k, Some(p))
  {
    hide *;
    ReferenceAt(exp, row, ord, k, p, j);
    ReferenceAt(exp, row, o, k, p, j - 1);
  }

  lemma SplitTieDiffers(exp: real -> real, row: seq<Logit>, idx: seq<nat>, ord: seq<nat>, k: nat, p: real)
    returns (o: seq<nat>)
    requires IsSort(row, ord) && IsTopK(row, idx) && 1 <= k <= |idx| <= |row| && Positive(exp) && HasFinite(row) &&
             0.0 < p
    requires HasFinite(Thresholded(row, ord, k)) && !NoTieAtCut(exp, Thresholded(row, ord, k), p)
    ensures IsSort(row, o) && Composite(exp, row, idx, k, Some(p)) != Reference(exp, row, o, k, Some(p))
  {
    hide *;
    o := SplitTieOrders(exp, row, ord, k, p);
    if Composite(exp, row, idx, k, Some(p)) != Reference(exp, row, ord, k, Some(p)) { o := ord; }
  }

  lemma SplitTie(exp: real -> real, d: seq<Logit>, p: real) returns (j: nat)
    requires HasFinite(d) && Positive(exp) && !NoTieAtCut(exp, d, p)
    ensures 1 <= j < |d| && d[j].Num? && d[j] == d[j - 1] && Kept(exp, d, p, j) != Kept(exp, d, p, j - 1)
  {
    hide MassBefore, HasFinite, Positive;
    j :| 1 <= j < |d| && d[j].Num? && d[j] == d[j - 1]
         && !(MassBefore(exp, d, j - 1) < p <==> MassBefore(exp, d, j) < p);
  }

  lemma SwapTie(row: seq<Logit>, ord: seq<nat>, k: nat, j: nat) returns (o: seq<nat>, i: nat)
    requires IsSort(row, ord) && 1 <= k <= |row| && 1 <= j < |row|
    requires var d := Thresholded(row, ord, k); d[j].Num? && d[j] == d[j - 1]
    ensures IsSort(row, o) && Thresholded(row, o, k) == Thresholded(row, ord, k)
    ensures i < |row| && |o| == |ord| == |row| && Reverse(ord)[j] == i && Reverse(o)[j - 1] == i
  {
    var d := Thresholded(row, ord, k);
    var a := |ord| - 1 - j;
    o := Swapped(ord, a);
    i := ord[a];
    assert row[ord[a]] == row[ord[a + 1]] by {
      assert d[j] == Gather(row, Reverse(ord))[j] && d[j - 1] == Gather(row, Reverse(ord))[j - 1];
    }
    SwappedIsSort(row, ord, a);
    ThresholdedSame(row, ord, o, k);
  }

  // ---------------------------------------------------------------------------
  // Exactly when the composite is exact
  // ---------------------------------------------------------------------------

  /** No finite entry of the thresholded values is masked by top-p. */
  predicate NothingCut(exp: real -> real, d: seq<Logit>, p: real)
    requires HasFinite(d) && Positive(exp)
  {
    forall j :: 0 <= j < |d| && d[j].Num? ==> MassBefore(exp, d, j) < p
  }

  lemma {:induction false} LastFinite(d: seq<Logit>, i: nat) returns (l: nat)
    requires i < |d| && d[i].Num?
    ensures i <= l < |d| && d[l].Num? && forall m :: l < m < |d| ==> d[m].NegInf?
  {
    l := |d| - 1;
    while d[l].NegInf?
      invariant i <= l < |d| && forall m :: l < m < |d| ==> d[m].NegInf?
      decreases l
    {
      l := l - 1;
    }
  }

  lemma PartOfWeights(exp: real -> real, xs: seq<Logit>, m: real, i: nat, j: nat)
    requires Positive(exp) && i <= j <= |xs|
    ensures |Weights(exp, xs, m)| == |xs| && Sum(Weights(exp, xs, m)[..i]) <= Sum(Weights(exp, xs, m)[..j])
  {
    var w := Weights(exp, xs, m);
    assert w[i..j] == Weights(exp, xs[i..j], m);
    SumPositive(exp, xs[i..j], m);
    assert w[..j] == w[..i] + w[i..j];
    SumAppend(w[..i], w[i..j]);
  }

  lemma QuotientMonotone(a: real, b: real, z: real)
    requires 0.0 < z && a <= b
    ensures a / z <= b / z
  {
  }

  lemma MassGrows(exp: real -> real, d: seq<Logit>, i: nat, j: nat)
    requires HasFinite(d) && Positive(exp) && i <= j <= |d|
    ensures MassBefore(exp, d, i) <= MassBefore(exp, d, j)
  {
    hide Softmax, Weights, MaxNum, Positive, HasFinite, Sum, MassBefore;
    MassIs(exp, d, i);
    MassIs(exp, d, j);
    PartOfWeights(exp, d, MaxNum(d), i, j);
    var w := Weights(exp, d, MaxNum(d));
    QuotientMonotone(Sum(w[..i]), Sum(w[..j]), Sum(w));
  }

  /** Leaving the same last weight out of a larger sum leaves a larger share. */
  lemma LargerShare(e: real, a: real, b: real)
    requires 0.0 < e && 0.0 < a <= b
    ensures (a - e) / a <= (b - e) / b
  {
    Complement(a, e);
    Complement(b, e);
    SmallerDivisor(e, a, b);
  }

  lemma SmallerDivisor(e: real, a: real, b: real)
    requires 0.0 < e && 0.0 < a <= b
    ensures e / b <= e / a
  {
    var x, y := e / a, e / b;
    assert x * a == e && y * b == e;
    QuotientPositive(e, a);
    Scaling(a, b, x);
    assert y * b <= x * b;
    if x < y { StrictScaling(x, y, b); }
  }

  lemma Scaling(a: real, b: real, x: real)
    requires a <= b && 0.0 <= x
    ensures x * a <= x * b
  {
  }

  lemma QuotientPositive(e: real, a: real)
    requires 0.0 < e && 0.0 < a
    ensures 0.0 < e / a
  {
  }

  lemma StrictScaling(x: real, y: real, b: real)
    requires x < y && 0.0 < b
    ensures x * b < y * b
  {
    assert 0.0 < (y - x) * b;
  }

  /** The last finite value ties with the last of such a window, and nothing below it weighs anything. */
  lemma LastWeights(exp: real -> real, d: seq<Logit>, n: nat) returns (l: nat)
    requires HasFinite(d) && Descending(d) && Positive(exp) && 0 < n <= |d|
    requires d[n - 1].Num? && forall i :: 0 <= i < |d| && d[i].Num? ==> !Less(d[i], d[n - 1])
    ensures n - 1 <= l < |d| && d[l].Num?
    ensures var w := Weights(exp, d, MaxNum(d));
            |w| == |d| && w[l] == w[n - 1] && 0.0 < w[l] && Sum(w[l + 1..]) == 0.0
  {
    hide HasFinite, MaxNum;
    l := LastFinite(d, n - 1);
    assert d[l] == d[n - 1] by { assert l != n - 1 ==> !Less(d[n - 1], d[l]); }
    hide Descending;
    SumZeros(Weights(exp, d, MaxNum(d))[l + 1..]);
  }

  /** If top-p cuts nothing of the row, it cuts nothing of a window that ends in a tie with the last finite entry. */
  lemma WindowUncut(exp: real -> real, d: seq<Logit>, n: nat, p: real, j: nat)
    requires HasFinite(d) && Descending(d) && Positive(exp) && j < n <= |d|
    requires d[n - 1].Num? && forall i :: 0 <= i < |d| && d[i].Num? ==> !Less(d[i], d[n - 1])
    requires NothingCut(exp, d, p)
    ensures HasFinite(d[..n]) && MassBefore(exp, d[..n], j) < p
  {
    hide Softmax, Weights, MaxNum, Positive, HasFinite, Sum, MassBefore, Descending;
    var l := LastWeights(exp, d, n);
    var mass := MassBefore(exp, d, l);
    assert mass < p;
    WindowFacts(exp, d, n, j);
    MassIs(exp, d, l);
    PartOfWeights(exp, d, MaxNum(d), j, n - 1);
    PartOfWeights(exp, d, MaxNum(d), n, |d|);
    var w := Weights(exp, d, MaxNum(d));
    var window := MassBefore(exp, d[..n], j);
    hide *;
    SharesOfPrefixes(w, w[l], n, l);
    QuotientMonotone(Sum(w[..j]), Sum(w[..n - 1]), Sum(w[..n]));
    assert window <= mass;
  }

  lemma MassIs(exp: real -> real, d: seq<Logit>, j: nat)
    requires HasFinite(d) && Positive(exp) && j <= |d|
    ensures var w := Weights(exp, d, MaxNum(d));
            0.0 < Sum(w) && |w| == |d| && MassBefore(exp, d, j) == Sum(w[..j]) / Sum(w)
  {
    SoftmaxSums(exp, d, j);
  }

  lemma PrefixesLess(w: seq<real>, e: real, n: nat, l: nat)
    requires 0 < n <= l + 1 <= |w| && w[n - 1] == e && w[l] == e && Sum(w[l + 1..]) == 0.0
    ensures Sum(w[..n - 1]) == Sum(w[..n]) - e && Sum(w[..l]) == Sum(w) - e
  {
    assert w == w[..l + 1] + w[l + 1..];
    SumAppend(w[..l + 1], w[l + 1..]);
    assert w[..l + 1][..l] == w[..l] && w[..n][..n - 1] == w[..n - 1];
  }

  lemma SharesOfPrefixes(w: seq<real>, e: real, n: nat, l: nat)
    requires 0 < n <= l + 1 <= |w| && w[n - 1] == e && w[l] == e && 0.0 < e
    requires Sum(w[l + 1..]) == 0.0 && 0.0 < Sum(w[..n]) <= Sum(w[..|w|])
    ensures 0.0 < Sum(w) && Sum(w[..n - 1]) / Sum(w[..n]) <= Sum(w[..l]) / Sum(w)
  {
    hide Sum;
    assert w[..|w|] == w;
    PrefixesLess(w, e, n, l);
    LargerShare(e, Sum(w[..n]), Sum(w));
  }

  /** Where the ties overflow, an entry outside the window ties with the k-th value and so with the window's last. */
  lemma OverflowTies(row: seq<Logit>, idx: seq<nat>, k: nat) returns (i: nat)
    requires IsTopK(row, idx) && 1 <= k <= |idx| && !TiesFit(row, idx, k)
    ensures i < |row| && i !in idx && row[i].Num?
    ensures row[i] == row[idx[k - 1]] == row[idx[|idx| - 1]]
  {
    i :| i < |row| && i !in idx && row[i].Num? && !Less(row[i], row[idx[k - 1]]);
    var v := Gather(row, idx);
    assert v[k - 1] == row[idx[k - 1]] && v[|idx| - 1] == row[idx[|idx| - 1]];
    assert !Less(v[k - 1], v[|idx| - 1]);
  }

  /** A finite entry of the thresholded values is not below any entry with the k-th value. */
  lemma ThresholdIsLeast(row: seq<Logit>, ord: seq<nat>, k: nat, j: nat)
    requires IsSort(row, ord) && 1 <= k <= |row| && j < |row| && Thresholded(row, ord, k)[j].Num?
    ensures !Less(Thresholded(row, ord, k)[j], row[Reverse(ord)[k - 1]])
  {
  }

  lemma ThresholdedAt(row: seq<Logit>, idx: seq<nat>, ord: seq<nat>, k: nat, j: nat)
    requires IsSort(row, ord) && IsTopK(row, idx) && 1 <= k <= |idx| <= |row| && j < |row|
    ensures row[Reverse(ord)[k - 1]] == row[idx[k - 1]]
    ensures var i := Reverse(ord)[j];
            Thresholded(row, ord, k)[j] == if Less(row[i], row[idx[k - 1]]) then NegInf else row[i]
  {
    hide Descending, Ascending, HasFinite;
    WindowIsPrefix(row, idx, ord, k);
    ThresholdedFacts(row, ord, k);
    hide IsSort, IsTopK;
  }

  /** Ties past the window: if top-p cuts nothing, both rules leave the value threshold's row. */
  lemma UncutReference(exp: real -> real, row: seq<Logit>, idx: seq<nat>, ord: seq<nat>, k: nat, p: real, i: nat)
    requires IsSort(row, ord) && IsTopK(row, idx) && 1 <= k <= |idx| <= |row| && Positive(exp) && HasFinite(row) &&
             0.0 < p
    requires HasFinite(Thresholded(row, ord, k)) && NothingCut(exp, Thresholded(row, ord, k), p) && i < |row|
    ensures Reference(exp, row, ord, k, Some(p))[i] == if Less(row[i], row[idx[k - 1]]) then NegInf else row[i]
  {
    hide Reference, HasFinite, MassBefore;
    var j := PositionOf(row, ord, i);
    ReferenceAt(exp, row, ord, k, p, j);
    ThresholdedAt(row, idx, ord, k, j);
    hide Thresholded, IsSort, IsTopK;
  }

  lemma UncutComposite(exp: real -> real, row: seq<Logit>, idx: seq<nat>, ord: seq<nat>, k: nat, p: real, j: nat)
    requires IsSort(row, ord) && IsTopK(row, idx) && 1 <= k <= |idx| <= |row| && Positive(exp) && HasFinite(row) &&
             0.0 < p
    requires HasFinite(Thresholded(row, ord, k)) && NothingCut(exp, Thresholded(row, ord, k), p)
    requires !TiesFit(row, idx, k) && j < |idx|
    ensures Composite(exp, row, idx, k, Some(p))[idx[j]] ==
            if Less(row[idx[j]], row[idx[k - 1]]) then NegInf else row[idx[j]]
  {
    hide HasFinite, Positive, Scatter, Thresholded, MaskBelow, Softmax, MassBefore, NothingCut, TiesFit, Descending,
         Reverse;
    WindowIsPrefix(row, idx, ord, k);
    ThresholdedFacts(row, ord, k);
    TopKFinite(row, idx, k);
    var i := OverflowTies(row, idx, k);
    var d, vals := Thresholded(row, ord, k), Gather(row, idx);
    var n := |idx|;
    LastOfWindow(row, idx, ord, k);
    WindowUncut(exp, d, n, p, j);
    hide IsSort, IsTopK;
    UncutWindow(exp, vals, vals[k - 1], p, j);
    ScatterAt(MaskBelow(row, vals[k - 1]), idx, TopPWindow(exp, vals, vals[k - 1], p), j);
  }

  lemma LastOfWindow(row: seq<Logit>, idx: seq<nat>, ord: seq<nat>, k: nat)
    requires IsSort(row, ord) && IsTopK(row, idx) && 1 <= k <= |idx| <= |row| && !TiesFit(row, idx, k)
    ensures var d, n := Thresholded(row, ord, k), |idx|;
            d[n - 1].Num? && forall m :: 0 <= m < |d| && d[m].Num? ==> !Less(d[m], d[n - 1])
  {
    hide TiesFit, Reverse;
    var i := OverflowTies(row, idx, k);
    WindowIsPrefix(row, idx, ord, k);
    ThresholdedAt(row, idx, ord, k, |idx| - 1);
    var d, n := Thresholded(row, ord, k), |idx|;
    assert d[n - 1] == MaskBelow(Gather(row, idx), Gather(row, idx)[k - 1])[n - 1] == row[idx[k - 1]];
    hide Thresholded;
    forall m | 0 <= m < |d| && d[m].Num? ensures !Less(d[m], d[n - 1]) {
      ThresholdIsLeast(row, ord, k, m);
    }
  }

  lemma UncutWindow(exp: real -> real, vals: seq<Logit>, threshold: Logit, p: real, j: nat)
    requires j < |vals| && HasFinite(MaskBelow(vals, threshold)) && Positive(exp)
    requires MassBefore(exp, MaskBelow(vals, threshold), j) < p
    ensures TopPWindow(exp, vals, threshold, p)[j] == if Less(vals[j], threshold) then NegInf else vals[j]
  {
    hide Softmax, HasFinite, MaskBelow;
    var probs := Softmax(exp, MaskBelow(vals, threshold));
    assert probs[..j + 1][..j] == probs[..j];
  }

  lemma UncutIsExact(exp: real -> real, row: seq<Logit>, idx: seq<nat>, ord: seq<nat>, k: nat, p: real)
    requires IsSort(row, ord) && IsTopK(row, idx) && 1 <= k <= |idx| <= |row| && Positive(exp) && HasFinite(row) &&
             0.0 < p
    requires HasFinite(Thresholded(row, ord, k)) && NothingCut(exp, Thresholded(row, ord, k), p) &&
             !TiesFit(row, idx, k)
    ensures Composite(exp, row, idx, k, Some(p)) == Reference(exp, row, ord, k, Some(p))
  {
    hide Composite, Reference, IsSort, IsTopK, HasFinite, NothingCut, TiesFit;
    var a, b := Composite(exp, row, idx, k, Some(p)), Reference(exp, row, ord, k, Some(p));
    forall i: nat | i < |row| ensures a[i] == b[i] {
      UncutReference(exp, row, idx, ord, k, p, i);
      if i in idx {
        var j :| 0 <= j < |idx| && idx[j] == i;
        UncutComposite(exp, row, idx, ord, k, p, j);
      } else {
        CompositeOutside(exp, row, idx, k, p, i);
      }
    }
  }

  /** Ties past the window: if top-p cuts anything, it cuts the tied entry outside the window, which the composite
      keeps. */
  lemma OverflowDiffers(exp: real -> real, row: seq<Logit>, idx: seq<nat>, ord: seq<nat>, k: nat, p: real)
    requires IsSort(row, ord) && IsTopK(row, idx) && 1 <= k <= |idx| <= |row| && Positive(exp) && HasFinite(row) &&
             0.0 < p
    requires HasFinite(Thresholded(row, ord, k)) && NoTieAtCut(exp, Thresholded(row, ord, k), p)
    requires !TiesFit(row, idx, k) && !NothingCut(exp, Thresholded(row, ord, k), p)
    ensures Composite(exp, row, idx, k, Some(p)) != Reference(exp, row, ord, k, Some(p))
  {
    hide HasFinite, MassBefore, Thresholded, TiesFit, Composite, Reference, NoTieAtCut, Reverse;
    ThresholdedFacts(row, ord, k);
    var d := Thresholded(row, ord, k);
    var c :| 0 <= c < |d| && d[c].Num? && MassBefore(exp, d, c) >= p;
    var i := OverflowTies(row, idx, k);
    CompositeOutside(exp, row, idx, k, p, i);
    var j := PositionOf(row, ord, i);
    ReferenceAt(exp, row, ord, k, p, j);
    ThresholdedAt(row, idx, ord, k, j);
    ThresholdIsLeast(row, ord, k, c);
    if c <= j {
      MassGrows(exp, d, c, j);
    } else {
      assert !Less(d[j], d[c]);
      KeptByValue(exp, d, p, j, c);
    }
  }

  /** For every row and window, the composite equals the reference under every legal sort exactly when the cut
      splits no tie and, should the k-th value's ties run past the window, top-p cuts nothing. */
  lemma ExactIff(exp: real -> real, row: seq<Logit>, idx: seq<nat>, ord: seq<nat>, k: nat, p: real)
    requires IsSort(row, ord) && IsTopK(row, idx) && 1 <= k <= |idx| <= |row| && Positive(exp) && HasFinite(row) &&
             0.0 < p
    requires HasFinite(Thresholded(row, ord, k))
    ensures (forall o :: IsSort(row, o) ==>
            Composite(exp, row, idx, k, Some(p)) == Reference(exp, row, o, k, Some(p))) <==>
            var d := Thresholded(row, ord, k);
            NoTieAtCut(exp, d, p) && (TiesFit(row, idx, k) || NothingCut(exp, d, p))
  {
    hide Reference, Composite, HasFinite, NoTieAtCut, NothingCut, TiesFit, Thresholded;
    var d := Thresholded(row, ord, k);
    if !NoTieAtCut(exp, d, p) {
      var o := SplitTieDiffers(exp, row, idx, ord, k, p);
    } else if TiesFit(row, idx, k) || NothingCut(exp, d, p) {
      forall o | IsSort(row, o) ensures Composite(exp, row, idx, k, Some(p)) == Reference(exp, row, o, k, Some(p)) {
        ThresholdedSame(row, ord, o, k);
        if TiesFit(row, idx, k) {
          CompositeIsExact(exp, row, idx, o, k, p);
        } else {
          UncutIsExact(exp, row, idx, o, k, p);
        }
      }
    } else {
      OverflowDiffers(exp, row, idx, ord, k, p);
    }
  }

  lemma ThresholdedSame(row: seq<Logit>, ord: seq<nat>, o: seq<nat>, k: nat)
    requires IsSort(row, ord) && IsSort(row, o) && 1 <= k <= |row|
    ensures Thresholded(row, ord, k) == Thresholded(row, o, k)
  {
    ReversedSortIsTopK(row, ord);
    ReversedSortIsTopK(row, o);
    forall j | 0 <= j < |row| ensures Gather(row, Reverse(ord))[j] == Gather(row, Reverse(o))[j] {
      TopKValuesAgree(row, Reverse(ord), Reverse(o), j);
    }
    assert Gather(row, Reverse(ord)) == Gather(row, Reverse(o));
  }

  // Ties past the window: four equal logits, two candidates, k = 1 and p = 1/2.

  function Zeros(n: nat): (xs: seq<Logit>)
    ensures |xs| == n && forall i :: 0 <= i < n ==> xs[i] == Num(0.0)
  {
    seq(n, _ => Num(0.0))
  }

  lemma ZerosFacts(n: nat)
    requires 0 < n
    ensures HasFinite(Zeros(n)) && MaxNum(Zeros(n)) == 0.0
    ensures MaskBelow(Zeros(n), Num(0.0)) == Zeros(n)
  {
    assert Zeros(n)[0] in Zeros(n);
    MaxIs(Zeros(n), Num(0.0));
  }

  /** The softmax of n equal logits is uniform. */
  lemma UniformSoftmax(exp: real -> real, n: nat, j: nat)
    requires Positive(exp) && 0 < n && j <= n
    ensures HasFinite(Zeros(n))
    ensures Sum(Softmax(exp, Zeros(n))[..j]) == j as real / n as real
  {
    ZerosFacts(n);
    var xs := Zeros(n);
    var e := exp(0.0 - 0.0);
    var w := Weights(exp, xs, 0.0);
    assert |w| == n && forall i :: 0 <= i < n ==> w[i] == e;
    assert 0.0 < e;
    SoftmaxSums(exp, xs, j);
    hide Softmax, Weights, MaxNum;
    assert w[..n] == w;
    SumUniform(w, e, j);
    SumUniform(w, e, n);
    Ratio(j, n, e, Sum(w[..j]), Sum(w));
  }

  lemma Ratio(j: nat, n: nat, e: real, part: real, whole: real)
    requires 0 < n && 0.0 < e && part == j as real * e && whole == n as real * e
    ensures whole != 0.0 && part / whole == j as real / n as real
  {
    Quotient(j as real, n as real, e);
  }

  lemma Quotient(a: real, b: real, e: real)
    requires b != 0.0 && e != 0.0 && b * e != 0.0
    ensures (a * e) / (b * e) == a / b
  {
    var q := a / b;
    assert q * b == a;
    var r := (a * e) / (b * e);
    assert r * (b * e) == a * e;
    ZeroProduct(r - q, b * e);
  }

  lemma {:induction false} SumUniform(w: seq<real>, e: real, j: nat)
    requires j <= |w| && forall i :: 0 <= i < |w| ==> w[i] == e
    ensures Sum(w[..j]) == j as real * e
  {
    if j != 0 {
      assert w[..j][..j - 1] == w[..j - 1];
      SumUniform(w, e, j - 1);
    }
  }

  lemma ZerosOrders()
    ensures IsTopK(Zeros(4), [0, 1]) && IsSort(Zeros(4), [0, 1, 2, 3])
    ensures Gather(Zeros(4), [0, 1]) == Zeros(2) && Gather(Zeros(4), [0, 1, 2, 3]) == Zeros(4)
  {
    assert Gather(Zeros(4), [0, 1]) == Zeros(2);
    assert Gather(Zeros(4), [0, 1, 2, 3]) == Zeros(4);
    hide Gather;
    assert Descending(Zeros(2)) && Ascending(Zeros(4));
  }

  lemma ZerosOverflow()
    requires Indexes(Zeros(4), [0, 1])
    ensures !TiesFit(Zeros(4), [0, 1], 1)
  {
    assert 2 !in [0, 1] && Zeros(4)[2].Num?;
  }

  /** When the k-th value's ties reach past the window the two rules can differ. */
  lemma TiesPastWindowDiffer(exp: real -> real)
    requires Positive(exp)
    ensures IsTopK(Zeros(4), [0, 1]) && IsSort(Zeros(4), [0, 1, 2, 3]) && !TiesFit(Zeros(4), [0, 1], 1) &&
            HasFinite(Zeros(4))
    ensures Composite(exp, Zeros(4), [0, 1], 1, Some(0.5)) != Reference(exp, Zeros(4), [0, 1, 2, 3], 1, Some(0.5))
  {
    ZerosOrders();
    ZerosFacts(4);
    ZerosFacts(2);
    ZerosOverflow();
    hide IsTopK, IsSort, TiesFit, HasFinite, Composite, Reference;
    FirstIsCut(exp);
    FirstIsKept(exp);
  }

  lemma FirstIsCut(exp: real -> real)
    requires Positive(exp) && IsSort(Zeros(4), [0, 1, 2, 3]) && HasFinite(Zeros(4))
    ensures Reference(exp, Zeros(4), [0, 1, 2, 3], 1, Some(0.5))[0] == NegInf
  {
    hide IsSort, IsTopK, HasFinite, Softmax, TiesFit, MaskBelow, Gather, TopPAscending, Scatter, Zeros, Descending,
         Ascending;
    ZerosOrders();
    ZerosFacts(4);
    LowestIsCut(exp);
    ScatterAt(Zeros(4), [0, 1, 2, 3], TopPAscending(exp, Zeros(4), 0.5), 0);
  }

  lemma LowestIsCut(exp: real -> real)
    requires Positive(exp) && HasFinite(Zeros(4))
    ensures TopPAscending(exp, Zeros(4), 0.5)[0] == NegInf
  {
    hide HasFinite, Softmax;
    UniformSoftmax(exp, 4, 1);
  }

  lemma FirstIsKept(exp: real -> real)
    requires Positive(exp) && IsTopK(Zeros(4), [0, 1]) && HasFinite(Zeros(4))
    ensures Composite(exp, Zeros(4), [0, 1], 1, Some(0.5))[0] == Num(0.0)
  {
    hide IsSort, IsTopK, HasFinite, Softmax, TiesFit, MaskBelow, Gather, TopPWindow, Scatter, Zeros, Descending,
         Ascending;
    ZerosOrders();
    ZerosFacts(2);
    ZerosFacts(4);
    HighestIsKept(exp);
    ScatterAt(Zeros(4), [0, 1], TopPWindow(exp, Zeros(2), Num(0.0), 0.5), 0);
  }

  lemma HighestIsKept(exp: real -> real)
    requires Positive(exp) && HasFinite(MaskBelow(Zeros(2), Num(0.0)))
    ensures TopPWindow(exp, Zeros(2), Num(0.0), 0.5)[0] == Num(0.0)
  {
    hide HasFinite, Softmax;
    ZerosFacts(2);
    UniformSoftmax(exp, 2, 0);
    var probs := Softmax(exp, Zeros(2));
    assert probs[..1][..0] == probs[..0];
  }
}
