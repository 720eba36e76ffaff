/** The KV cache group size search (patch_kv_group_size.py): among the canonical sizes whose group count meets a cap,
    the one that minimises size times blocks per request. */
module GroupSize {
  import opened Arithmetic
  import opened Options

  function Cdiv(a: nat, b: nat): (k: nat)
    requires 0 < b
  {
    (a + b - 1) / b
  }

  /** k groups of size g hold a layers exactly when k is at least cdiv(a, g). */
  lemma CdivIs(a: nat, g: nat, k: nat)
    requires 0 < g
    ensures Cdiv(a, g) <= k <==> a <= k * g
  {
    var c := Cdiv(a, g);
    assert c * g <= a + g - 1 < c * g + g;
    if c <= k { MulMonotone(c, k, g); } else { MulMonotone(k + 1, c, g); }
  }

  lemma CdivOne(a: nat)
    ensures Cdiv(a, 1) == a
  {
  }

  lemma CdivPositive(a: nat, g: nat)
    requires 0 < g && 0 < a
    ensures 0 < Cdiv(a, g) <= a
  {
    CdivIs(a, g, 0);
    CdivIs(a, g, a);
    MulMonotone(1, g, a);
  }

  predicate NonEmpty(sizes: seq<nat>) {
    sizes != [] && forall i :: 0 <= i < |sizes| ==> 0 < sizes[i]
  }

  function Splits(sizes: seq<nat>, g: nat): (ks: seq<nat>)
    requires 0 < g && NonEmpty(sizes)
    ensures |ks| == |sizes| && forall i :: 0 <= i < |ks| ==> 0 < ks[i]
  {
    seq(|sizes|, i requires 0 <= i < |sizes| => CdivPositive(sizes[i], g); Cdiv(sizes[i], g))
  }

  function Max(xs: seq<nat>): (m: nat)
    requires xs != []
    ensures m in xs && forall i :: 0 <= i < |xs| ==> xs[i] <= m
  {
    if |xs| == 1 then xs[0] else var m := Max(xs[..|xs| - 1]); if m < xs[|xs| - 1] then xs[|xs| - 1] else m
  }

  function Sum(xs: seq<nat>): nat {
    if xs == [] then 0 else Sum(xs[..|xs| - 1]) + xs[|xs| - 1]
  }

  function Products(xs: seq<nat>, ys: seq<nat>): (zs: seq<nat>)
    requires |xs| == |ys|
    ensures |zs| == |xs|
  {
    seq(|xs|, i requires 0 <= i < |xs| => xs[i] * ys[i])
  }

  /** The layers the fullest group holds when each bucket is cut into its splits. */
  function Fullest(sizes: seq<nat>, ks: seq<nat>): (e: nat)
    requires NonEmpty(sizes) && |ks| == |sizes| && forall i :: 0 <= i < |ks| ==> 0 < ks[i]
  {
    Max(seq(|sizes|, i requires 0 <= i < |sizes| => Cdiv(sizes[i], ks[i])))
  }

  function Effective(sizes: seq<nat>, g: nat): nat
    requires 0 < g && NonEmpty(sizes)
  {
    Fullest(sizes, Splits(sizes, g))
  }

  function Groups(sizes: seq<nat>, g: nat): nat
    requires 0 < g && NonEmpty(sizes)
  {
    Sum(Splits(sizes, g))
  }

  /** Blocks one worst-case request reserves. */
  function Blocks(sizes: seq<nat>, cost: seq<nat>, g: nat): nat
    requires 0 < g && NonEmpty(sizes) && |cost| == |sizes|
  {
    Sum(Products(Splits(sizes, g), cost))
  }

  function Score(sizes: seq<nat>, cost: seq<nat>, g: nat): nat
    requires 0 < g && NonEmpty(sizes) && |cost| == |sizes|
  {
    g * Blocks(sizes, cost, g)
  }

  // ---------------------------------------------------------------------------
  // Canonical sizes suffice
  // ---------------------------------------------------------------------------

  lemma EffectiveAt(sizes: seq<nat>, g: nat, i: nat)
    requires 0 < g && NonEmpty(sizes) && i < |sizes|
    ensures Cdiv(sizes[i], Splits(sizes, g)[i]) <= Effective(sizes, g)
  {
    var ks := Splits(sizes, g);
    var es := seq(|sizes|, j requires 0 <= j < |sizes| => Cdiv(sizes[j], ks[j]));
    assert es[i] <= Max(es);
  }

  lemma EffectiveBelow(sizes: seq<nat>, g: nat)
    requires 0 < g && NonEmpty(sizes)
    ensures 0 < Effective(sizes, g) <= g
  {
    var ks := Splits(sizes, g);
    var es := seq(|sizes|, j requires 0 <= j < |sizes| => Cdiv(sizes[j], ks[j]));
    var i :| 0 <= i < |es| && es[i] == Max(es);
    hide Cdiv;
    CdivIs(sizes[i], g, ks[i]);
    CdivIs(sizes[i], ks[i], g);
    CdivPositive(sizes[i], ks[i]);
  }

  /** Every size has a canonical size no larger that splits every bucket the same way. */
  lemma CanonicalEquivalent(sizes: seq<nat>, g: nat)
    requires 0 < g && NonEmpty(sizes)
    ensures var e := Effective(sizes, g); 0 < e <= g && Splits(sizes, e) == Splits(sizes, g) && Effective(sizes, e) == e
  {
    EffectiveBelow(sizes, g);
    var e := Effective(sizes, g);
    hide Cdiv, Effective;
    forall i | 0 <= i < |sizes| ensures Splits(sizes, e)[i] == Splits(sizes, g)[i] {
      SameSplit(sizes, g, e, i);
    }
    assert Effective(sizes, e) == e by { SameEffective(sizes, g, e); }
  }

  lemma SameSplit(sizes: seq<nat>, g: nat, e: nat, i: nat)
    requires 0 < e <= g && NonEmpty(sizes) && i < |sizes| && e == Effective(sizes, g)
    ensures Splits(sizes, e)[i] == Splits(sizes, g)[i]
  {
    hide Cdiv, Effective;
    var L, k := sizes[i], Splits(sizes, g)[i];
    EffectiveAt(sizes, g, i);
    CdivIs(L, k, e);
    CdivIs(L, e, k);
    var j := Splits(sizes, e)[i];
    CdivIs(L, e, j);
    MulMonotone(e, g, j);
    CdivIs(L, g, j);
  }

  lemma SameEffective(sizes: seq<nat>, g: nat, e: nat)
    requires 0 < g && 0 < e && NonEmpty(sizes) && Splits(sizes, e) == Splits(sizes, g) && e == Effective(sizes, g)
    ensures Effective(sizes, e) == e
  {
  }

  lemma {:induction false} SumLower(xs: seq<nat>)
    requires forall i :: 0 <= i < |xs| ==> 0 < xs[i]
    ensures |xs| <= Sum(xs)
  {
    if xs != [] { SumLower(xs[..|xs| - 1]); }
  }

  lemma {:induction false} SumOnes(xs: seq<nat>)
    requires forall i :: 0 <= i < |xs| ==> xs[i] == 1
    ensures Sum(xs) == |xs|
  {
    if xs != [] { SumOnes(xs[..|xs| - 1]); }
  }

  /** At or above the largest bucket there is one group a bucket; that size is canonical. */
  lemma LargestSize(sizes: seq<nat>, g: nat)
    requires NonEmpty(sizes) && Max(sizes) <= g
    ensures 0 < g && Groups(sizes, g) == |sizes|
    ensures Effective(sizes, g) == Max(sizes)
  {
    assert sizes[0] <= Max(sizes);
    hide Cdiv;
    var ks := Splits(sizes, g);
    forall i | 0 <= i < |sizes| ensures ks[i] == 1 {
      CdivIs(sizes[i], g, 1);
      CdivPositive(sizes[i], g);
    }
    SumOnes(ks);
    var es := seq(|sizes|, j requires 0 <= j < |sizes| => Cdiv(sizes[j], ks[j]));
    forall i | 0 <= i < |sizes| ensures es[i] == sizes[i] {
      CdivOne(sizes[i]);
    }
    assert es == sizes;
  }

  // ---------------------------------------------------------------------------
  // The search
  // ---------------------------------------------------------------------------

  /** What the search looks at: canonical and within the cap. */
  predicate Admitted(sizes: seq<nat>, cap: int, g: nat)
    requires NonEmpty(sizes)
  {
    0 < g && Effective(sizes, g) == g && Groups(sizes, g) <= cap
  }

  /** (score, groups) in lexicographic order. */
  predicate Better(sizes: seq<nat>, cost: seq<nat>, g: nat, h: nat)
    requires 0 < g && 0 < h && NonEmpty(sizes) && |cost| == |sizes|
  {
    || Score(sizes, cost, g) < Score(sizes, cost, h)
    || (Score(sizes, cost, g) == Score(sizes, cost, h) && Groups(sizes, g) < Groups(sizes, h))
  }

  /** The first admitted size in 1..n that no other admitted size there beats. */
  ghost predicate IsPick(sizes: seq<nat>, cost: seq<nat>, cap: int, n: nat, g: nat)
    requires NonEmpty(sizes) && |cost| == |sizes|
  {
    && Admitted(sizes, cap, g) && g <= n
    && (forall h: nat :: h <= n && Admitted(sizes, cap, h) ==> !Better(sizes, cost, h, g))
    && (forall h: nat :: h < g && Admitted(sizes, cap, h) ==> Better(sizes, cost, g, h))
  }

  /** The knobs: the switch, a forced size, the cap on the number of groups. */
  datatype Settings = Settings(optimise: bool, forced: Option<int>, cap: int)

  /** Bucket sizes and per-group block costs, when they could be determined. */
  datatype Buckets = Buckets(sizes: seq<nat>, cost: seq<nat>) {
    predicate Valid() {
      NonEmpty(sizes) && |cost| == |sizes|
    }
  }

  /** _radiance_pick_group_size. */
  method PickGroupSize(s: Settings, buckets: Option<Buckets>, upstream: nat) returns (g: int)
    requires buckets.Some? ==> buckets.value.Valid()
    ensures !s.optimise ==> g == upstream
    ensures s.optimise && s.forced.Some? ==> g == if s.forced.value < 1 then 1 else s.forced.value
    ensures s.optimise && s.forced.None? && buckets.None? ==> g == upstream
    ensures s.optimise && s.forced.None? && buckets.Some? ==>
              var b := buckets.value;
              if s.cap < |b.sizes| then g == upstream else g > 0 && IsPick(b.sizes, b.cost, s.cap, Max(b.sizes), g)
  {
    if !s.optimise { return upstream; }
    if s.forced.Some? { return if s.forced.value < 1 then 1 else s.forced.value; }
    if buckets.None? { return upstream; }
    var best := Search(buckets.value.sizes, buckets.value.cost, s.cap);
    hide *;
    if best.None? { return upstream; }
    g := best.value;
  }

  /** The search loop; it finds nothing exactly when there are more buckets than groups allowed. */
  method Search(sizes: seq<nat>, cost: seq<nat>, cap: int) returns (best: Option<nat>)
    requires NonEmpty(sizes) && |cost| == |sizes|
    ensures best.None? <==> cap < |sizes|
    ensures best.Some? ==> best.value > 0 && IsPick(sizes, cost, cap, Max(sizes), best.value)
  {
    hide Effective, Groups, Max, Score, IsPick, Better;
    best := None;
    for h := 1 to Max(sizes) + 1
      invariant best.None? ==> forall x: nat :: x < h ==> !Admitted(sizes, cap, x)
      invariant best.Some? ==> best.value > 0 && IsPick(sizes, cost, cap, h - 1, best.value)
    {
      if best.Some? { PickNext(sizes, cost, cap, h, best.value); } else { PickFirst(sizes, cost, cap, h); }
      if Effective(sizes, h) != h { continue; }
      if Groups(sizes, h) > cap { continue; }
      if best.None? || Better(sizes, cost, h, best.value) { best := Some(h); }
    }
    FoundIff(sizes, cap);
    if best.Some? { PickAdmitted(sizes, cost, cap, best.value); }
  }

  lemma PickAdmitted(sizes: seq<nat>, cost: seq<nat>, cap: int, g: nat)
    requires NonEmpty(sizes) && |cost| == |sizes| && IsPick(sizes, cost, cap, Max(sizes), g)
    ensures Admitted(sizes, cap, g)
  {
  }

  lemma PickFirst(sizes: seq<nat>, cost: seq<nat>, cap: int, h: nat)
    requires NonEmpty(sizes) && |cost| == |sizes|
    ensures Admitted(sizes, cap, h) && (forall x: nat :: x < h ==> !Admitted(sizes, cap, x)) ==>
            IsPick(sizes, cost, cap, h, h)
  {
    hide Admitted;
  }

  lemma PickNext(sizes: seq<nat>, cost: seq<nat>, cap: int, h: nat, g: nat)
    requires NonEmpty(sizes) && |cost| == |sizes| && 0 < h && 0 < g && IsPick(sizes, cost, cap, h - 1, g)
    ensures if Admitted(sizes, cap, h) && Better(sizes, cost, h, g) then IsPick(sizes, cost, cap, h, h)
            else IsPick(sizes, cost, cap, h, g)
  {
    hide Effective, Groups, Score;
  }

  /** Some size meets the cap exactly when there are no more buckets than groups allowed. */
  lemma FoundIff(sizes: seq<nat>, cap: int)
    requires NonEmpty(sizes)
    ensures |sizes| <= cap ==> Admitted(sizes, cap, Max(sizes))
    ensures cap < |sizes| ==> forall g: nat :: !Admitted(sizes, cap, g)
  {
    LargestSize(sizes, Max(sizes));
    hide Effective, Max;
    forall g: nat | cap < |sizes| ensures !Admitted(sizes, cap, g) {
      if 0 < g { SumLower(Splits(sizes, g)); }
    }
  }

  // ---------------------------------------------------------------------------
  // What the pick is worth
  // ---------------------------------------------------------------------------

  /** The pick has the least score of every size that meets the cap, canonical or not, however large. */
  lemma PickIsOptimal(sizes: seq<nat>, cost: seq<nat>, cap: int, g: nat, h: nat)
    requires NonEmpty(sizes) && |cost| == |sizes| && IsPick(sizes, cost, cap, Max(sizes), g)
    requires 0 < h && Groups(sizes, h) <= cap
    ensures Score(sizes, cost, g) <= Score(sizes, cost, h)
  {
    var e := Effective(sizes, h);
    CanonicalEquivalent(sizes, h);
    EffectiveAtMost(sizes, h);
    hide Effective, Max, Splits;
    assert Groups(sizes, e) == Groups(sizes, h) && Blocks(sizes, cost, e) == Blocks(sizes, cost, h);
    assert Admitted(sizes, cap, e);
    MulMonotone(e, h, Blocks(sizes, cost, h));
  }

  // The groups themselves.

  /** Layers of one bucket that share a block table. */
  datatype Group = Group(bucket: nat, layers: nat)

  function LayersIn(plan: seq<Group>, b: nat): nat {
    if plan == [] then 0 else (if plan[0].bucket == b then plan[0].layers else 0) + LayersIn(plan[1..], b)
  }

  function GroupsIn(plan: seq<Group>, b: nat): nat {
    if plan == [] then 0 else (if plan[0].bucket == b then 1 else 0) + GroupsIn(plan[1..], b)
  }

  predicate InBuckets(plan: seq<Group>, n: nat) {
    forall x <- plan :: x.bucket < n
  }

  /** Groups of at most g layers that hold every bucket's layers. */
  ghost predicate IsPlan(plan: seq<Group>, sizes: seq<nat>, g: nat) {
    && InBuckets(plan, |sizes|) && (forall x <- plan :: x.layers <= g)
    && forall b :: 0 <= b < |sizes| ==> LayersIn(plan, b) == sizes[b]
  }

  /** The blocks the groups of a plan reserve together. */
  function Reserved(plan: seq<Group>, cost: seq<nat>): nat
    requires InBuckets(plan, |cost|)
  {
    if plan == [] then 0 else cost[plan[0].bucket] + Reserved(plan[1..], cost)
  }

  function Counts(plan: seq<Group>, n: nat): (ks: seq<nat>)
    ensures |ks| == n && forall b :: 0 <= b < n ==> ks[b] == GroupsIn(plan, b)
  {
    seq(n, b requires 0 <= b < n => GroupsIn(plan, b))
  }

  lemma {:induction false} SumAdds(xs: seq<nat>, ys: seq<nat>, b: nat, v: nat)
    requires |xs| == |ys| && b < |xs|
    requires forall i :: 0 <= i < |xs| ==> ys[i] == xs[i] + if i == b then v else 0
    ensures Sum(ys) == Sum(xs) + v
  {
    var n := |xs| - 1;
    if b < n { SumAdds(xs[..n], ys[..n], b, v); } else { assert xs[..n] == ys[..n]; }
  }

  lemma {:induction false} SumZeros(xs: seq<nat>)
    requires forall i :: 0 <= i < |xs| ==> xs[i] == 0
    ensures Sum(xs) == 0
  {
    if xs != [] { SumZeros(xs[..|xs| - 1]); }
  }

  lemma {:induction false} SumAtMost(xs: seq<nat>, ys: seq<nat>)
    requires |xs| == |ys| && forall i :: 0 <= i < |xs| ==> xs[i] <= ys[i]
    ensures Sum(xs) <= Sum(ys)
  {
    if xs != [] { SumAtMost(xs[..|xs| - 1], ys[..|xs| - 1]); }
  }

  /** A plan's groups and reservation, counted bucket by bucket. */
  lemma {:induction false} PlanSums(plan: seq<Group>, cost: seq<nat>)
    requires InBuckets(plan, |cost|)
    ensures |plan| == Sum(Counts(plan, |cost|))
    ensures Reserved(plan, cost) == Sum(Products(Counts(plan, |cost|), cost))
  {
    hide Sum, Products, Counts;
    if plan == [] {
      NothingPlanned(cost);
    } else {
      PlanSums(plan[1..], cost);
      OneMorePlanned(Counts(plan[1..], |cost|), Counts(plan, |cost|), cost, plan[0].bucket);
    }
  }

  lemma NothingPlanned(cost: seq<nat>)
    ensures Sum(Counts([], |cost|)) == 0 == Sum(Products(Counts([], |cost|), cost))
  {
    hide Sum;
    SumZeros(Counts([], |cost|));
    SumZeros(Products(Counts([], |cost|), cost));
  }

  lemma OneMorePlanned(js: seq<nat>, ks: seq<nat>, cost: seq<nat>, b: nat)
    requires |js| == |ks| == |cost| && b < |js|
    requires forall i :: 0 <= i < |js| ==> ks[i] == js[i] + if i == b then 1 else 0
    ensures Sum(ks) == Sum(js) + 1
    ensures Sum(Products(ks, cost)) == Sum(Products(js, cost)) + cost[b]
  {
    hide Sum, Products;
    SumAdds(js, ks, b, 1);
    forall i: nat | i < |js|
      ensures Products(ks, cost)[i] == Products(js, cost)[i] + if i == b then cost[b] else 0
    {
      ProductsAt(ks, cost, i);
      ProductsAt(js, cost, i);
      if i == b { OneMoreTime(js[b], cost[b]); }
    }
    SumAdds(Products(js, cost), Products(ks, cost), b, cost[b]);
  }

  lemma ProductsAt(xs: seq<nat>, ys: seq<nat>, i: nat)
    requires |xs| == |ys| && i < |xs|
    ensures Products(xs, ys)[i] == xs[i] * ys[i]
  {
  }

  lemma OneMoreTime(j: nat, c: nat)
    ensures (j + 1) * c == j * c + c
  {
  }

  lemma {:induction false} LayersFit(plan: seq<Group>, b: nat, g: nat)
    requires forall x <- plan :: x.layers <= g
    ensures LayersIn(plan, b) <= GroupsIn(plan, b) * g
  {
    if plan != [] {
      LayersFit(plan[1..], b, g);
      OneMoreTime(GroupsIn(plan[1..], b), g);
    }
  }

  /** No plan of groups of at most g layers has fewer groups, or reserves less. */
  lemma NoPlanNeedsLess(plan: seq<Group>, sizes: seq<nat>, cost: seq<nat>, g: nat)
    requires 0 < g && NonEmpty(sizes) && |cost| == |sizes| && IsPlan(plan, sizes, g)
    ensures Groups(sizes, g) <= |plan| && Blocks(sizes, cost, g) <= Reserved(plan, cost)
  {
    hide Cdiv, Sum, LayersIn, GroupsIn, Reserved;
    PlanSums(plan, cost);
    var ks, ps := Splits(sizes, g), Counts(plan, |sizes|);
    forall b | 0 <= b < |sizes| ensures ks[b] <= ps[b] && ks[b] * cost[b] <= ps[b] * cost[b] {
      LayersFit(plan, b, g);
      CdivIs(sizes[b], g, ps[b]);
      MulMonotone(ks[b], ps[b], cost[b]);
    }
    SumAtMost(ks, ps);
    SumAtMost(Products(ks, cost), Products(ps, cost));
  }

  /** A bucket filled group by group. */
  function Filled(b: nat, layers: nat, g: nat): (plan: seq<Group>)
    requires 0 < g
  {
    if layers == 0 then []
    else [Group(b, if g < layers then g else layers)] + Filled(b, if g < layers then layers - g else 0, g)
  }

  function AllFilled(sizes: seq<nat>, g: nat): seq<Group>
    requires 0 < g
  {
    if sizes == [] then [] else AllFilled(sizes[..|sizes| - 1], g) + Filled(|sizes| - 1, sizes[|sizes| - 1], g)
  }

  lemma {:induction false} FilledFacts(b: nat, layers: nat, g: nat)
    requires 0 < g
    ensures forall x <- Filled(b, layers, g) :: x.bucket == b && x.layers <= g
    ensures |Filled(b, layers, g)| == Cdiv(layers, g)
    ensures forall c: nat :: LayersIn(Filled(b, layers, g), c) == if c == b then layers else 0
    ensures forall c: nat :: GroupsIn(Filled(b, layers, g), c) == if c == b then Cdiv(layers, g) else 0
  {
    if layers == 0 {
      CdivIs(0, g, 0);
    } else {
      var rest := if g < layers then layers - g else 0;
      FilledFacts(b, rest, g);
      CdivLess(layers, g);
      var first := Group(b, if g < layers then g else layers);
      assert Filled(b, layers, g)[1..] == Filled(b, rest, g);
      hide Cdiv;
    }
  }

  lemma CdivLess(layers: nat, g: nat)
    requires 0 < g && 0 < layers
    ensures Cdiv(layers, g) == 1 + Cdiv(if g < layers then layers - g else 0, g)
  {
    hide Cdiv;
    var rest := if g < layers then layers - g else 0;
    var k, j := Cdiv(layers, g), Cdiv(rest, g);
    CdivIs(layers, g, j + 1);
    CdivIs(rest, g, j);
    CdivIs(layers, g, 0);
    CdivIs(layers, g, k);
    CdivIs(rest, g, k - 1);
  }

  lemma {:induction false} PartsAppend(p: seq<Group>, q: seq<Group>, b: nat)
    ensures LayersIn(p + q, b) == LayersIn(p, b) + LayersIn(q, b)
    ensures GroupsIn(p + q, b) == GroupsIn(p, b) + GroupsIn(q, b)
  {
    if p == [] {
      assert p + q == q;
    } else {
      PartsAppend(p[1..], q, b);
      assert (p + q)[1..] == p[1..] + q;
    }
  }

  lemma {:induction false} AllFilledFacts(sizes: seq<nat>, g: nat)
    requires 0 < g
    ensures forall x <- AllFilled(sizes, g) :: x.bucket < |sizes| && x.layers <= g
    ensures forall b: nat :: LayersIn(AllFilled(sizes, g), b) == if b < |sizes| then sizes[b] else 0
    ensures forall b: nat ::
            GroupsIn(AllFilled(sizes, g), b) == if b < |sizes| then Cdiv(sizes[b], g) else 0
  {
    hide Cdiv;
    if sizes != [] {
      var n := |sizes| - 1;
      var p, q := AllFilled(sizes[..n], g), Filled(n, sizes[n], g);
      AllFilledFacts(sizes[..n], g);
      FilledFacts(n, sizes[n], g);
      forall b: nat
        ensures LayersIn(p + q, b) == if b < |sizes| then sizes[b] else 0
        ensures GroupsIn(p + q, b) == if b < |sizes| then Cdiv(sizes[b], g) else 0
      {
        PartsAppend(p, q, b);
      }
    }
  }

  /** Filling the buckets one group at a time is a plan that has the counted groups and reservation. */
  lemma FilledPlan(sizes: seq<nat>, cost: seq<nat>, g: nat)
    requires 0 < g && NonEmpty(sizes) && |cost| == |sizes|
    ensures var plan := AllFilled(sizes, g);
            && IsPlan(plan, sizes, g) && |plan| == Groups(sizes, g) && Reserved(plan, cost) == Blocks(sizes, cost, g)
  {
    AllFilledFacts(sizes, g);
    hide AllFilled, LayersIn, GroupsIn, Reserved, Sum, Products, Cdiv;
    var plan := AllFilled(sizes, g);
    PlanSums(plan, cost);
    assert Counts(plan, |sizes|) == Splits(sizes, g);
  }

  /** Pages for a request: every reserved block takes one page for each of g layers. */
  function Memory(plan: seq<Group>, cost: seq<nat>, g: nat): nat
    requires InBuckets(plan, |cost|)
  {
    g * Reserved(plan, cost)
  }

  lemma PlanScore(plan: seq<Group>, sizes: seq<nat>, cost: seq<nat>, h: nat)
    requires 0 < h && NonEmpty(sizes) && |cost| == |sizes| && IsPlan(plan, sizes, h)
    ensures Groups(sizes, h) <= |plan| && Score(sizes, cost, h) <= Memory(plan, cost, h)
  {
    NoPlanNeedsLess(plan, sizes, cost, h);
    hide Groups, Blocks, Reserved;
    MulMonotone(Blocks(sizes, cost, h), Reserved(plan, cost), h);
  }

  lemma FilledScore(sizes: seq<nat>, cost: seq<nat>, g: nat)
    requires 0 < g && NonEmpty(sizes) && |cost| == |sizes|
    ensures var plan := AllFilled(sizes, g);
            && IsPlan(plan, sizes, g) && |plan| == Groups(sizes, g) && Memory(plan, cost, g) == Score(sizes, cost, g)
  {
    hide Groups, Blocks, Reserved, AllFilled;
    FilledPlan(sizes, cost, g);
  }

  /** The pick, in terms of groups: some plan of groups of at most g layers keeps the cap, and no plan that does, with
      groups of any size h, takes less memory, which is h pages for every reserved block. */
  lemma PickBeatsPlans(sizes: seq<nat>, cost: seq<nat>, cap: int, g: nat, plan: seq<Group>, h: nat)
    requires NonEmpty(sizes) && |cost| == |sizes| && IsPick(sizes, cost, cap, Max(sizes), g)
    requires 0 < h && IsPlan(plan, sizes, h) && |plan| <= cap
    ensures exists best :: IsPlan(best, sizes, g) && |best| <= cap && Memory(best, cost, g) <= Memory(plan, cost, h)
  {
    hide Max, LayersIn, GroupsIn, Memory, Effective, Groups, Score, AllFilled, IsPick;
    hide Better;
    PlanScore(plan, sizes, cost, h);
    PickAdmitted(sizes, cost, cap, g);
    PickIsOptimal(sizes, cost, cap, g, h);
    FilledScore(sizes, cost, g);
    assert IsPlan(AllFilled(sizes, g), sizes, g);
  }

  lemma EffectiveAtMost(sizes: seq<nat>, h: nat)
    requires NonEmpty(sizes) && 0 < h
    ensures Effective(sizes, h) <= Max(sizes)
  {
    if h <= Max(sizes) { EffectiveBelow(sizes, h); } else { LargestSize(sizes, h); }
  }

  /** Worst-case requests that fit: pages per group, over blocks per request. */
  function Capacity(pages: nat, g: nat, blocks: nat): nat
    requires 0 < g && 0 < blocks
  {
    pages / g / blocks
  }

  lemma CapacityIs(pages: nat, g: nat, blocks: nat, c: nat)
    requires 0 < g && 0 < blocks
    ensures c <= Capacity(pages, g, blocks) <==> c * (g * blocks) <= pages
  {
    var a := pages / g;
    QuotientIs(a, blocks, c);
    QuotientIs(pages, g, c * blocks);
    assert c * blocks * g == c * (g * blocks);
  }

  lemma QuotientIs(a: nat, m: nat, c: nat)
    requires 0 < m
    ensures c <= a / m <==> c * m <= a
  {
    var q := a / m;
    assert q * m <= a < q * m + m;
    if c <= q { MulMonotone(c, q, m); } else { MulMonotone(q + 1, c, m); }
  }

  /** The pick also maximises the number of worst-case requests that fit, for any number of pages. */
  lemma PickMaximisesCapacity(sizes: seq<nat>, cost: seq<nat>, cap: int, g: nat, h: nat, pages: nat)
    requires NonEmpty(sizes) && |cost| == |sizes| && IsPick(sizes, cost, cap, Max(sizes), g)
    requires 0 < h && Groups(sizes, h) <= cap && 0 < Blocks(sizes, cost, g) && 0 < Blocks(sizes, cost, h)
    ensures Capacity(pages, h, Blocks(sizes, cost, h)) <= Capacity(pages, g, Blocks(sizes, cost, g))
  {
    hide Effective, Max, Splits, Blocks, Groups, Capacity;
    PickIsOptimal(sizes, cost, cap, g, h);
    var c := Capacity(pages, h, Blocks(sizes, cost, h));
    CapacityIs(pages, h, Blocks(sizes, cost, h), c);
    MulMonotone(Score(sizes, cost, g), Score(sizes, cost, h), c);
    CapacityIs(pages, g, Blocks(sizes, cost, g), c);
  }
}
