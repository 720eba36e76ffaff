/** The draft controller's confidence (radiance_draft_gpu.py, radiance_draft.py): a split, blockwise rescaled
    maximum and sum of exponentials, combined over splits and then over vocabulary shards.

    The exponential is any positive function turning sums into products.  Undefined is the NaN the kernels
    produce from minus infinity less minus infinity; rounding is not modelled. */
module DraftCapture {
  import opened Logits

  const NSPLIT: nat := 64
  const CHUNK: nat := 4096
  const BLOCK: nat := 512

  datatype Mass = Fin(x: real) | Undefined

  function Add(a: Mass, b: Mass): Mass {
    if a.Fin? && b.Fin? then Fin(a.x + b.x) else Undefined
  }

  function Times(a: Mass, b: Mass): Mass {
    if a.Fin? && b.Fin? then Fin(Product(a.x, b.x)) else Undefined
  }

  /** One over a sum; one over zero has no finite value. */
  function Inverse(a: Mass): Mass {
    if a.Fin? && a.x != 0.0 then Fin(1.0 / a.x) else Undefined
  }

  function Larger(a: Logit, b: Logit): Logit {
    if Less(a, b) then b else a
  }

  function MaxOf(xs: seq<Logit>): Logit {
    if xs == [] then NegInf else Larger(MaxOf(xs[..|xs| - 1]), xs[|xs| - 1])
  }

  /** exp(l - m) as the kernels evaluate it, for m at least l. */
  function ExpDiff(exp: real -> real, l: Logit, m: Logit): Mass {
    if m.NegInf? then Undefined else if l.NegInf? then Fin(0.0) else Fin(exp(l.x - m.x))
  }

  /** The sum of exp(l - max) over a row. */
  function Total(exp: real -> real, xs: seq<Logit>, max: real): real {
    Sum(Weights(exp, xs, max))
  }

  function Ends(a: nat, len: nat): nat {
    if a < len then a else len
  }

  /** The part of a row between two offsets, either of which may lie past its end. */
  function Cut(row: seq<Logit>, a: nat, b: nat): seq<Logit>
    requires a <= b
  {
    row[Ends(a, |row|)..Ends(b, |row|)]
  }

  // ---------------------------------------------------------------------------
  // Sums
  // ---------------------------------------------------------------------------

  lemma {:induction false} MaxAppend(a: seq<Logit>, b: seq<Logit>)
    ensures MaxOf(a + b) == Larger(MaxOf(a), MaxOf(b))
  {
    if b == [] {
      assert a + b == a;
    } else {
      assert (a + b)[..|a + b| - 1] == a + b[..|b| - 1];
      MaxAppend(a, b[..|b| - 1]);
    }
  }

  lemma {:induction false} MaxBounds(xs: seq<Logit>, i: nat)
    requires i < |xs|
    ensures !Less(MaxOf(xs), xs[i])
  {
    if i < |xs| - 1 { MaxBounds(xs[..|xs| - 1], i); }
  }

  lemma {:induction false} MaxAttained(xs: seq<Logit>) returns (i: nat)
    requires xs != []
    ensures i < |xs| && (xs[i] == MaxOf(xs))
  {
    i := |xs| - 1;
    assert MaxOf([]) == NegInf;
    if MaxOf(xs) != xs[i] {
      i := MaxAttained(xs[..i]);
    }
  }

  lemma TotalAppend(exp: real -> real, a: seq<Logit>, b: seq<Logit>, m: real)
    ensures Total(exp, a + b, m) == Total(exp, a, m) + Total(exp, b, m)
  {
    SumAppend(Weights(exp, a, m), Weights(exp, b, m));
    assert Weights(exp, a + b, m) == Weights(exp, a, m) + Weights(exp, b, m);
  }

  lemma TotalEmpty(exp: real -> real, m: real)
    ensures Total(exp, [], m) == 0.0
  {
  }

  lemma TotalSnoc(exp: real -> real, xs: seq<Logit>, x: Logit, m: real)
    ensures Total(exp, xs + [x], m) == Total(exp, xs, m) + Weight(exp, x, m)
  {
    assert Weights(exp, xs + [x], m)[..|xs|] == Weights(exp, xs, m);
  }

  lemma ExpOfSum(exp: real -> real, a: real, b: real, c: real)
    requires Exponential(exp) && c == a + b
    ensures exp(c) == exp(a) * exp(b)
  {
  }

  lemma Distribute(a: real, b: real, c: real)
    ensures (a + b) * c == a * c + b * c
  {
  }

  /** Rescaling a sum to another reference value. */
  lemma {:induction false} Rescale(exp: real -> real, xs: seq<Logit>, m: real, nm: real)
    requires Exponential(exp)
    ensures Product(Total(exp, xs, m), exp(m - nm)) == Total(exp, xs, nm)
  {
    hide Exponential;
    if xs == [] {
      TotalEmpty(exp, m);
      TotalEmpty(exp, nm);
    } else {
      var rest, x := xs[..|xs| - 1], xs[|xs| - 1];
      assert xs == rest + [x];
      hide Total;
      Rescale(exp, rest, m, nm);
      TotalSnoc(exp, rest, x, m);
      TotalSnoc(exp, rest, x, nm);
      if x.Num? { ExpOfSum(exp, x.x - m, m - nm, x.x - nm); }
      Distribute(Total(exp, rest, m), Weight(exp, x, m), exp(m - nm));
    }
  }

  lemma TotalPositive(exp: real -> real, xs: seq<Logit>)
    requires Exponential(exp) && MaxOf(xs).Num?
    ensures 0.0 < Total(exp, xs, MaxOf(xs).x)
  {
    var i := MaxAttained(xs);
    assert xs[i] in xs;
    SumPositive(exp, xs, MaxOf(xs).x);
  }

  // ---------------------------------------------------------------------------
  // One split: _cap_s1
  // ---------------------------------------------------------------------------

  function FirstBlock(xs: seq<Logit>): seq<Logit> {
    xs[..Ends(BLOCK, |xs|)]
  }

  /** A split is sound when its first block holds a finite logit, or when it is empty. */
  predicate Sound(xs: seq<Logit>) {
    xs != [] ==> MaxOf(FirstBlock(xs)).Num?
  }

  /** The running sum a split has after the entries xs, relative to their maximum. */
  function SplitMass(exp: real -> real, xs: seq<Logit>): Mass {
    if xs == [] then Fin(0.0)
    else if Sound(xs) && MaxOf(xs).Num? then Fin(Total(exp, xs, MaxOf(xs).x))
    else Undefined
  }

  /** The in-range lanes' contributions relative to nm. */
  function BlockSum(exp: real -> real, xs: seq<Logit>, nm: Logit): Mass {
    if xs == [] then Fin(0.0) else Add(BlockSum(exp, xs[..|xs| - 1], nm), ExpDiff(exp, xs[|xs| - 1], nm))
  }

  lemma {:induction false} BlockSumFinite(exp: real -> real, xs: seq<Logit>, m: real)
    ensures BlockSum(exp, xs, Num(m)) == Fin(Total(exp, xs, m))
  {
    hide Total, Weight, ExpDiff;
    if xs == [] {
      TotalEmpty(exp, m);
    } else {
      var rest, x := xs[..|xs| - 1], xs[|xs| - 1];
      assert xs == rest + [x];
      BlockSumFinite(exp, rest, m);
      TotalSnoc(exp, rest, x, m);
      TermIs(exp, x, Num(m));
    }
  }

  lemma BlockSumIs(exp: real -> real, xs: seq<Logit>, nm: Logit)
    ensures BlockSum(exp, xs, nm) ==
            if xs == [] then Fin(0.0) else if nm.NegInf? then Undefined else Fin(Total(exp, xs, nm.x))
  {
    hide Total;
    if xs != [] && nm.Num? { BlockSumFinite(exp, xs, nm.x); }
  }

  lemma TermIs(exp: real -> real, x: Logit, nm: Logit)
    requires nm.Num?
    ensures ExpDiff(exp, x, nm) == Fin(Weight(exp, x, nm.x))
  {
  }

  /** The old sum's scale: zero while nothing finite was seen, so that an empty start costs nothing. */
  function Scale(exp: real -> real, m: Logit, nm: Logit): Mass {
    if m.NegInf? then Fin(0.0) else ExpDiff(exp, m, nm)
  }

  /** One iteration of the block loop keeps the running sum. */
  lemma BlockStep(exp: real -> real, p: seq<Logit>, b: seq<Logit>)
    requires Exponential(exp) && |b| <= BLOCK
    requires p == [] || BLOCK <= |p| || b == []
    ensures var nm := Larger(MaxOf(p), MaxOf(b));
            MaxOf(p + b) == nm
            && SplitMass(exp, p + b) == Add(Times(SplitMass(exp, p), Scale(exp, MaxOf(p), nm)), BlockSum(exp, b, nm))
  {
    hide Exponential;
    var nm := Larger(MaxOf(p), MaxOf(b));
    MaxAppend(p, b);
    BlockSumIs(exp, b, nm);
    if p == [] {
      assert p + b == b && MaxOf([]) == NegInf;
      assert nm == MaxOf(b);
      hide *;
      FirstStep(exp, b);
    } else {
      assert FirstBlock(p + b) == FirstBlock(p) by { if b == [] { assert p + b == p; } }
      FirstBlockWithin(p);
      hide FirstBlock, MaxOf, Larger, SplitMass, Times, Add, Scale, BlockSum;
      if Sound(p) { SoundStep(exp, p, b, nm); } else { UnsoundStep(exp, p, b, nm); }
    }
  }

  lemma FirstStep(exp: real -> real, b: seq<Logit>)
    requires |b| <= BLOCK
    ensures SplitMass(exp, b) ==
            Add(Times(SplitMass(exp, []), Scale(exp, MaxOf([]), Larger(MaxOf([]), MaxOf(b)))),
                BlockSum(exp, b, MaxOf(b)))
  {
    var m := MaxOf(b);
    BlockSumIs(exp, b, m);
    assert FirstBlock(b) == b && MaxOf([]) == NegInf;
    assert SplitMass(exp, []) == Fin(0.0) && SplitMass(exp, b) == BlockSum(exp, b, m);
    assert Larger(NegInf, m) == m && Scale(exp, NegInf, m) == Fin(0.0);
    hide *;
    ZeroStart(BlockSum(exp, b, m));
  }

  lemma ZeroStart(e: Mass)
    ensures Add(Times(Fin(0.0), Fin(0.0)), e) == e
  {
    assert Product(0.0, 0.0) == 0.0;
    hide Product;
  }

  lemma UnsoundStep(exp: real -> real, p: seq<Logit>, b: seq<Logit>, nm: Logit)
    requires p != [] && !Sound(p) && !Sound(p + b)
    ensures SplitMass(exp, p + b) == Add(Times(SplitMass(exp, p), Scale(exp, MaxOf(p), nm)), BlockSum(exp, b, nm))
  {
    assert SplitMass(exp, p) == Undefined && SplitMass(exp, p + b) == Undefined;
    hide *;
    UndefinedStays(Scale(exp, MaxOf(p), nm), BlockSum(exp, b, nm));
  }

  lemma UndefinedStays(sc: Mass, e: Mass)
    ensures Add(Times(Undefined, sc), e) == Undefined
  {
  }

  lemma SoundStep(exp: real -> real, p: seq<Logit>, b: seq<Logit>, nm: Logit)
    requires Exponential(exp) && p != [] && Sound(p) && Sound(p + b) && MaxOf(p).Num? && nm == MaxOf(p + b) && nm.Num?
    ensures SplitMass(exp, p + b) == Add(Times(SplitMass(exp, p), Scale(exp, MaxOf(p), nm)), BlockSum(exp, b, nm))
  {
    hide Exponential;
    BlockSumIs(exp, b, nm);
    var m := MaxOf(p);
    assert SplitMass(exp, p) == Fin(Total(exp, p, m.x)) && SplitMass(exp, p + b) == Fin(Total(exp, p + b, nm.x));
    assert Scale(exp, m, nm) == Fin(exp(m.x - nm.x));
    hide *;
    TotalEmpty(exp, nm.x);
    TotalAppend(exp, p, b, nm.x);
    Rescale(exp, p, m.x, nm.x);
    RescaledSum(Total(exp, p, m.x), exp(m.x - nm.x), Total(exp, b, nm.x), Total(exp, p + b, nm.x));
  }

  lemma RescaledSum(a: real, sc: real, b: real, c: real)
    requires c == Product(a, sc) + b
    ensures Fin(c) == Add(Times(Fin(a), Fin(sc)), Fin(b))
  {
    hide Product;
  }

  lemma FirstBlockWithin(xs: seq<Logit>)
    ensures MaxOf(FirstBlock(xs)).Num? ==> MaxOf(xs).Num?
  {
    assert xs == FirstBlock(xs) + xs[Ends(BLOCK, |xs|)..];
    MaxAppend(FirstBlock(xs), xs[Ends(BLOCK, |xs|)..]);
  }

  lemma CutSnoc(row: seq<Logit>, a: nat, b: nat)
    requires a <= b
    ensures b < |row| ==> Cut(row, a, b + 1) == Cut(row, a, b) + [row[b]]
    ensures |row| <= b ==> Cut(row, a, b + 1) == Cut(row, a, b)
  {
  }

  lemma CutAppend(row: seq<Logit>, a: nat, b: nat, c: nat)
    requires a <= b <= c
    ensures Cut(row, a, c) == Cut(row, a, b) + Cut(row, b, c)
    ensures |Cut(row, b, c)| <= c - b
    ensures Cut(row, b, c) != [] ==> |Cut(row, a, b)| == b - a
  {
  }

  method BlockMax(row: seq<Logit>, base: nat) returns (m: Logit)
    ensures m == MaxOf(Cut(row, base, base + BLOCK))
  {
    m := NegInf;
    for t := 0 to BLOCK
      invariant m == MaxOf(Cut(row, base, base + t))
    {
      var idx := base + t;
      CutSnoc(row, base, idx);
      var l := if idx < |row| then row[idx] else NegInf;
      m := Larger(m, l);
    }
  }

  lemma BlockSumSnoc(exp: real -> real, xs: seq<Logit>, x: Logit, nm: Logit)
    ensures BlockSum(exp, xs + [x], nm) == Add(BlockSum(exp, xs, nm), ExpDiff(exp, x, nm))
  {
    assert (xs + [x])[..|xs|] == xs;
    hide Add, ExpDiff;
  }

  lemma AddZero(a: Mass)
    ensures Add(a, Fin(0.0)) == a
  {
  }

  method MaskedSum(exp: real -> real, row: seq<Logit>, base: nat, nm: Logit) returns (s: Mass)
    ensures s == BlockSum(exp, Cut(row, base, base + BLOCK), nm)
  {
    s := Fin(0.0);
    assert Cut(row, base, base) == [] && BlockSum(exp, [], nm) == s;
    hide BlockSum, Cut, Add, ExpDiff;
    for t := 0 to BLOCK
      invariant s == BlockSum(exp, Cut(row, base, base + t), nm)
    {
      var idx := base + t;
      CutSnoc(row, base, idx);
      AddZero(s);
      if idx < |row| { BlockSumSnoc(exp, Cut(row, base, idx), row[idx], nm); }
      var e := if idx < |row| then ExpDiff(exp, row[idx], nm) else Fin(0.0);
      s := Add(s, e);
    }
  }

  function Chunk(row: seq<Logit>, sp: nat): seq<Logit> {
    Cut(row, sp * CHUNK, (sp + 1) * CHUNK)
  }

  /** One program of _cap_s1. */
  method CaptureSplit(exp: real -> real, row: seq<Logit>, sp: nat) returns (m: Logit, s: Mass)
    requires Exponential(exp)
    ensures m == MaxOf(Chunk(row, sp)) && s == SplitMass(exp, Chunk(row, sp))
  {
    hide Exponential, MaxOf, SplitMass, BlockSum, Larger, Cut;
    var base := sp * CHUNK;
    m, s := NegInf, Fin(0.0);
    assert m == MaxOf(Cut(row, base, base)) &&
           s == SplitMass(exp, Cut(row, base, base)) by { NothingYet(exp, row, base); }
    for k := 0 to CHUNK / BLOCK
      invariant m == MaxOf(Cut(row, base, base + k * BLOCK))
      invariant s == SplitMass(exp, Cut(row, base, base + k * BLOCK))
    {
      var lo := base + k * BLOCK;
      ghost var p, b := Cut(row, base, lo), Cut(row, lo, lo + BLOCK);
      CutAppend(row, base, lo, lo + BLOCK);
      if k == 0 { NothingYet(exp, row, base); }
      BlockStep(exp, p, b);
      var top := BlockMax(row, lo);
      var nm := Larger(m, top);
      var e := MaskedSum(exp, row, lo, nm);
      s := Add(Times(s, Scale(exp, m, nm)), e);
      m := nm;
    }
  }

  lemma NothingYet(exp: real -> real, row: seq<Logit>, base: nat)
    ensures Cut(row, base, base) == [] && MaxOf([]) == NegInf && SplitMass(exp, []) == Fin(0.0)
  {
  }

  // ---------------------------------------------------------------------------
  // Across splits: _cap_s2 and _cap_s2_local
  // ---------------------------------------------------------------------------

  /** A shard whose confidence is a number: it is not empty and every split is sound. */
  predicate Safe(row: seq<Logit>) {
    row != [] && forall sp: nat :: sp < NSPLIT ==> Sound(Chunk(row, sp))
  }

  /** The sum of exp(l - max) over the row, undefined unless every split is sound. */
  function RowMass(exp: real -> real, row: seq<Logit>): Mass {
    if Safe(row) && MaxOf(row).Num? then Fin(Total(exp, row, MaxOf(row).x)) else Undefined
  }

  /** What the first n splits contribute relative to the overall maximum. */
  function SplitsMass(exp: real -> real, row: seq<Logit>, n: nat, max: Logit): Mass {
    if n == 0 then Fin(0.0)
    else
      var c := Chunk(row, n - 1);
      Add(SplitsMass(exp, row, n - 1, max), Times(SplitMass(exp, c), ExpDiff(exp, MaxOf(c), max)))
  }

  lemma SafeHasMax(row: seq<Logit>)
    requires Safe(row)
    ensures MaxOf(row).Num?
  {
    var c := Chunk(row, 0);
    assert Sound(c) && c != [];
    FirstBlockWithin(c);
    assert row == c + row[|c|..];
    MaxAppend(c, row[|c|..]);
  }

  lemma SoundShare(exp: real -> real, c: seq<Logit>, max: Logit)
    requires Exponential(exp) && max.Num? && c != [] && Sound(c)
    ensures Times(SplitMass(exp, c), ExpDiff(exp, MaxOf(c), max)) == Fin(Total(exp, c, max.x))
  {
    hide Exponential, Product, Total, MaxOf, FirstBlock;
    FirstBlockWithin(c);
    Rescale(exp, c, MaxOf(c).x, max.x);
  }

  /** One split's share of the overall sum. */
  lemma SplitShare(exp: real -> real, c: seq<Logit>, max: Logit)
    requires Exponential(exp) && max.Num?
    ensures Times(SplitMass(exp, c), ExpDiff(exp, MaxOf(c), max)) == if Sound(c) then Fin(Total(exp, c, max.x))
            else Undefined
  {
    hide Exponential, Product, Total, MaxOf, FirstBlock;
    if c == [] {
      EmptyShare(exp, max);
    } else if Sound(c) {
      SoundShare(exp, c, max);
    }
  }

  lemma EmptyShare(exp: real -> real, max: Logit)
    requires max.Num?
    ensures MaxOf([]) == NegInf && Sound([])
    ensures Times(SplitMass(exp, []), ExpDiff(exp, NegInf, max)) == Fin(Total(exp, [], max.x))
  {
    TotalEmpty(exp, max.x);
    assert Product(0.0, 0.0) == 0.0;
    hide Product, Total;
  }

  lemma {:induction false} SplitsShare(exp: real -> real, row: seq<Logit>, n: nat, max: Logit)
    requires Exponential(exp) && max.Num?
    ensures SplitsMass(exp, row, n, max) ==
            if forall sp: nat :: sp < n ==> Sound(Chunk(row, sp)) then Fin(Total(exp, Cut(row, 0, n * CHUNK), max.x))
                else Undefined
  {
    hide Exponential, Total, SplitMass, ExpDiff, MaxOf, Times, Sound;
    if n == 0 {
      TotalEmpty(exp, max.x);
      assert Cut(row, 0, 0) == [];
    } else {
      SplitsShare(exp, row, n - 1, max);
      SplitShare(exp, Chunk(row, n - 1), max);
      CutAppend(row, 0, (n - 1) * CHUNK, n * CHUNK);
      TotalAppend(exp, Cut(row, 0, (n - 1) * CHUNK), Chunk(row, n - 1), max.x);
      hide Cut;
    }
  }

  /** With nothing finite anywhere the combine subtracts minus infinity from itself. */
  lemma {:induction false} SplitsUndefined(exp: real -> real, row: seq<Logit>, n: nat)
    ensures SplitsMass(exp, row, n, NegInf) == if n == 0 then Fin(0.0) else Undefined
  {
    hide SplitMass, Cut, MaxOf;
    if n != 0 { SplitsUndefined(exp, row, n - 1); }
  }

  lemma AllSplits(exp: real -> real, row: seq<Logit>)
    requires Exponential(exp) && |row| <= NSPLIT * CHUNK
    ensures SplitsMass(exp, row, NSPLIT, MaxOf(row)) == RowMass(exp, row)
  {
    var max := MaxOf(row);
    if max.Num? {
      assert row != [] && Cut(row, 0, NSPLIT * CHUNK) == row;
      hide Cut, SplitsMass, Exponential, Total, Sound, MaxOf;
      SplitsShare(exp, row, NSPLIT, max);
    } else {
      hide SplitsMass, Exponential, Total, Sound, Cut, MaxOf;
      SplitsUndefined(exp, row, NSPLIT);
    }
  }

  /** The launch of _cap_s1: one program per split. */
  method CapS1(exp: real -> real, row: seq<Logit>, pm: array<Logit>, ps: array<Mass>)
    requires Exponential(exp) && pm.Length == ps.Length == NSPLIT
    modifies pm, ps
    ensures forall sp :: 0 <= sp < NSPLIT ==>
            pm[sp] == MaxOf(Chunk(row, sp)) && ps[sp] == SplitMass(exp, Chunk(row, sp))
  {
    hide *;
    for sp := 0 to NSPLIT
      invariant forall i :: 0 <= i < sp ==> pm[i] == MaxOf(Chunk(row, i)) && ps[i] == SplitMass(exp, Chunk(row, i))
    {
      var m, s := CaptureSplit(exp, row, sp);
      pm[sp] := m;
      ps[sp] := s;
    }
  }

  lemma MaxNext(row: seq<Logit>, n: nat)
    ensures MaxOf(Cut(row, 0, (n + 1) * CHUNK)) == Larger(MaxOf(Cut(row, 0, n * CHUNK)), MaxOf(Chunk(row, n)))
  {
    CutAppend(row, 0, n * CHUNK, (n + 1) * CHUNK);
    MaxAppend(Cut(row, 0, n * CHUNK), Chunk(row, n));
  }

  method LargestSplit(ghost row: seq<Logit>, pm: array<Logit>) returns (max: Logit)
    requires |row| <= NSPLIT * CHUNK && pm.Length == NSPLIT
    requires forall sp :: 0 <= sp < NSPLIT ==> pm[sp] == MaxOf(Chunk(row, sp))
    ensures max == MaxOf(row)
  {
    assert Cut(row, 0, 0) == [] && MaxOf([]) == NegInf && Cut(row, 0, NSPLIT * CHUNK) == row;
    hide *;
    max := NegInf;
    for r := 0 to NSPLIT
      invariant max == MaxOf(Cut(row, 0, r * CHUNK))
    {
      MaxNext(row, r);
      max := Larger(max, pm[r]);
    }
  }

  /** _cap_s2_local: the shard's maximum and its sum of exponentials. */
  method CapS2Local(exp: real -> real, ghost row: seq<Logit>, pm: array<Logit>, ps: array<Mass>)
    returns (max: Logit, sum: Mass)
    requires Exponential(exp) && |row| <= NSPLIT * CHUNK && pm.Length == ps.Length == NSPLIT
    requires forall sp :: 0 <= sp < NSPLIT ==>
             pm[sp] == MaxOf(Chunk(row, sp)) && ps[sp] == SplitMass(exp, Chunk(row, sp))
    ensures max == MaxOf(row) && sum == RowMass(exp, row)
  {
    hide Cut, MaxOf, Exponential, SplitMass, Chunk, Total, Larger, ExpDiff, Times, Add, RowMass;
    AllSplits(exp, row);
    max := LargestSplit(row, pm);
    sum := Fin(0.0);
    for r := 0 to NSPLIT
      invariant sum == SplitsMass(exp, row, r, max)
    {
      sum := Add(sum, Times(ps[r], ExpDiff(exp, pm[r], max)));
    }
  }

  /** capture_local. */
  method CaptureLocal(exp: real -> real, row: seq<Logit>) returns (max: Logit, sum: Mass)
    requires Exponential(exp) && |row| <= NSPLIT * CHUNK
    ensures max == MaxOf(row) && sum == RowMass(exp, row)
  {
    hide *;
    var pm := new Logit[NSPLIT](_ => NegInf);
    var ps := new Mass[NSPLIT](_ => Undefined);
    CapS1(exp, row, pm, ps);
    max, sum := CapS2Local(exp, row, pm, ps);
  }

  /** capture_gpu: the finished confidence of a gathered row. */
  method CaptureGpu(exp: real -> real, row: seq<Logit>) returns (conf: Mass)
    requires Exponential(exp) && |row| <= NSPLIT * CHUNK
    ensures conf == Inverse(RowMass(exp, row))
  {
    var max, sum := CaptureLocal(exp, row);
    conf := Inverse(sum);
  }

  // ---------------------------------------------------------------------------
  // Across vocabulary shards: _local_draft
  // ---------------------------------------------------------------------------

  /** One rank's head output, the last npad entries of which are padding. */
  datatype Shard = Shard(raw: seq<Logit>, npad: nat) {
    predicate Valid() {
      raw != [] && npad <= |raw| <= NSPLIT * CHUNK
    }

    function Real(): seq<Logit>
      requires Valid()
    {
      raw[..|raw| - npad]
    }

    function Padded(): seq<Logit>
      requires Valid()
    {
      Real() + seq(npad, _ => NegInf)
    }
  }

  /** The three numbers a rank contributes. */
  datatype Stat = Stat(max: Logit, sum: Mass, id: nat)

  predicate IsArgmax(row: seq<Logit>, i: nat) {
    i < |row| && row[i] == MaxOf(row)
  }

  /** A rank's report on a shard whose vocabulary starts at id `start`. */
  ghost predicate Reports(exp: real -> real, shard: Shard, start: nat, stat: Stat)
    requires shard.Valid()
  {
    && stat.max == MaxOf(shard.Padded()) && stat.sum == RowMass(exp, shard.Padded())
    && exists i: nat :: IsArgmax(shard.Padded(), i) && stat.id == start + i
  }

  method PadShard(local: array<Logit>, ghost shard: Shard, npad: nat)
    requires shard == Shard(local[..], npad) && shard.Valid()
    modifies local
    ensures local[..] == shard.Padded()
  {
    var width := local.Length - npad;
    for i := width to local.Length
      invariant forall j :: 0 <= j < local.Length ==> local[j] == if width <= j < i then NegInf else shard.raw[j]
    {
      local[i] := NegInf;
    }
    assert local[..] == shard.Padded();
  }

  /** The part of _local_draft each rank runs on its own shard. */
  method RankStat(exp: real -> real, local: array<Logit>, npad: nat, start: nat) returns (stat: Stat)
    requires Exponential(exp) && Shard(local[..], npad).Valid()
    modifies local
    ensures Reports(exp, Shard(old(local[..]), npad), start, stat)
  {
    ghost var shard := Shard(local[..], npad);
    PadShard(local, shard, npad);
    var row := local[..];
    hide Exponential, Total, Safe, RowMass;
    var max, sum := CaptureLocal(exp, row);
    ghost var w := MaxAttained(row);
    assert IsArgmax(row, w);
    var lidx: nat :| IsArgmax(row, lidx);
    stat := Stat(max, sum, start + lidx);
  }

  /** The sum of the first n ranks' sums, rescaled to the overall maximum. */
  function RanksMass(exp: real -> real, stats: seq<Stat>, n: nat, max: Logit): Mass
    requires n <= |stats|
  {
    if n == 0 then Fin(0.0)
    else Add(RanksMass(exp, stats, n - 1, max), Times(stats[n - 1].sum, ExpDiff(exp, stats[n - 1].max, max)))
  }

  function Maxima(stats: seq<Stat>): (ms: seq<Logit>)
    ensures |ms| == |stats| && forall i :: 0 <= i < |ms| ==> ms[i] == stats[i].max
  {
    seq(|stats|, i requires 0 <= i < |stats| => stats[i].max)
  }

  /** The cross-rank sum; a single rank hands its own on. */
  ghost function ShardedMass(exp: real -> real, stats: seq<Stat>): Mass
    requires stats != []
  {
    if |stats| == 1 then stats[0].sum else RanksMass(exp, stats, |stats|, MaxOf(Maxima(stats)))
  }

  /** What every rank computes from the gathered triples. */
  method CombineRanks(exp: real -> real, stats: seq<Stat>) returns (id: nat, conf: Mass)
    requires stats != []
    ensures exists w: nat :: IsArgmax(Maxima(stats), w) && id == stats[w].id
    ensures conf == Inverse(ShardedMass(exp, stats))
  {
    ghost var w := MaxAttained(Maxima(stats));
    assert IsArgmax(Maxima(stats), w);
    var gm := Maxima(stats);
    if |stats| == 1 {
      assert IsArgmax(gm, 0);
      return stats[0].id, Inverse(stats[0].sum);
    }
    var which: nat :| which < |gm| && IsArgmax(gm, which);
    var max := gm[which];
    var sum := Fin(0.0);
    for r := 0 to |stats|
      invariant sum == RanksMass(exp, stats, r, max)
    {
      sum := Add(sum, Times(stats[r].sum, ExpDiff(exp, gm[r], max)));
    }
    id, conf := stats[which].id, Inverse(sum);
  }

  // ---------------------------------------------------------------------------
  // The sharded result is the gathered one
  // ---------------------------------------------------------------------------

  ghost predicate AllValid(shards: seq<Shard>) {
    forall r :: 0 <= r < |shards| ==> shards[r].Valid()
  }

  /** The full vocabulary row: the shards in rank order, without their padding. */
  function Gathered(shards: seq<Shard>): seq<Logit>
    requires AllValid(shards)
  {
    if shards == [] then [] else Gathered(shards[..|shards| - 1]) + shards[|shards| - 1].Real()
  }

  ghost predicate AllReport(exp: real -> real, shards: seq<Shard>, stats: seq<Stat>)
    requires AllValid(shards)
  {
    && |stats| == |shards|
    && forall r :: 0 <= r < |shards| ==> Reports(exp, shards[r], |Gathered(shards[..r])|, stats[r])
  }

  ghost predicate AllSafe(shards: seq<Shard>)
    requires AllValid(shards)
  {
    forall r :: 0 <= r < |shards| ==> Safe(shards[r].Padded())
  }

  lemma {:induction false} PaddingIsNothing(exp: real -> real, xs: seq<Logit>, n: nat, m: real)
    ensures MaxOf(xs + seq(n, _ => NegInf)) == MaxOf(xs)
    ensures Total(exp, xs + seq(n, _ => NegInf), m) == Total(exp, xs, m)
  {
    if n == 0 {
      assert xs + seq(n, _ => NegInf) == xs;
    } else {
      var shorter := xs + seq(n - 1, _ => NegInf);
      assert xs + seq(n, _ => NegInf) == shorter + [NegInf];
      PaddingIsNothing(exp, xs, n - 1, m);
      TotalSnoc(exp, shorter, NegInf, m);
    }
  }

  /** One shard's share of the overall sum. */
  lemma ShardShare(exp: real -> real, shard: Shard, max: Logit)
    requires Exponential(exp) && shard.Valid() && max.Num?
    ensures Times(RowMass(exp, shard.Padded()), ExpDiff(exp, MaxOf(shard.Padded()), max)) ==
            if Safe(shard.Padded()) then Fin(Total(exp, shard.Real(), max.x)) else Undefined
  {
    var row := shard.Padded();
    hide Exponential, Total, Product, Safe;
    if Safe(row) {
      SafeHasMax(row);
      var m := MaxOf(row);
      hide MaxOf;
      Rescale(exp, row, m.x, max.x);
      PaddingIsNothing(exp, shard.Real(), shard.npad, max.x);
    } else {
      hide MaxOf;
    }
  }

  /** One rank more: its share is added, or the sum stays undefined. */
  lemma RankShare(exp: real -> real, shards: seq<Shard>, stats: seq<Stat>, n: nat, max: Logit)
    requires Exponential(exp) && AllValid(shards) && AllReport(exp, shards, stats) && 0 < n <= |shards| == |stats| &&
             max.Num?
    ensures RanksMass(exp, stats, n, max) ==
            Add(RanksMass(exp, stats, n - 1, max),
                if Safe(shards[n - 1].Padded()) then Fin(Total(exp, shards[n - 1].Real(), max.x)) else Undefined)
  {
    ShardShare(exp, shards[n - 1], max);
    hide Exponential, Total, Product, Safe, RowMass, MaxOf, Times, ExpDiff, Gathered;
    assert Reports(exp, shards[n - 1], |Gathered(shards[..n - 1])|, stats[n - 1]);
  }

  lemma GatheredNext(exp: real -> real, shards: seq<Shard>, n: nat, m: real)
    requires AllValid(shards) && 0 < n <= |shards|
    ensures Total(exp, Gathered(shards[..n]), m) ==
            Total(exp, Gathered(shards[..n - 1]), m) + Total(exp, shards[n - 1].Real(), m)
  {
    hide Total;
    assert shards[..n][..n - 1] == shards[..n - 1];
    TotalAppend(exp, Gathered(shards[..n - 1]), shards[n - 1].Real(), m);
  }

  lemma NoRanksShare(exp: real -> real, shards: seq<Shard>, stats: seq<Stat>, max: Logit)
    requires max.Num? && AllValid(shards)
    ensures RanksMass(exp, stats, 0, max) == Fin(Total(exp, Gathered(shards[..0]), max.x)) && AllSafe(shards[..0])
  {
    TotalEmpty(exp, max.x);
  }

  lemma {:induction false} RanksShare(exp: real -> real, shards: seq<Shard>, stats: seq<Stat>, n: nat, max: Logit)
    requires Exponential(exp) && AllValid(shards) && AllReport(exp, shards, stats) && n <= |shards| && max.Num?
    ensures RanksMass(exp, stats, n, max) == if AllSafe(shards[..n]) then Fin(Total(exp, Gathered(shards[..n]), max.x))
            else Undefined
    decreases n
  {
    hide Exponential, Total, RanksMass, AllSafe, Safe, Reports, Gathered;
    if n == 0 {
      NoRanksShare(exp, shards, stats, max);
    } else {
      RanksShare(exp, shards, stats, n - 1, max);
      RankShare(exp, shards, stats, n, max);
      AllSafeNext(shards, n);
      GatheredNext(exp, shards, n, max.x);
    }
  }

  lemma AllSafeNext(shards: seq<Shard>, n: nat)
    requires AllValid(shards) && 1 <= n <= |shards|
    ensures AllSafe(shards[..n]) <==> AllSafe(shards[..n - 1]) && Safe(shards[n - 1].Padded())
  {
    hide Safe;
    var whole, less := shards[..n], shards[..n - 1];
    assert whole == less + [shards[n - 1]];
    if AllSafe(whole) {
      assert whole[n - 1] == shards[n - 1];
      forall r | 0 <= r < |less| ensures Safe(less[r].Padded()) {
        assert less[r] == whole[r];
      }
    }
  }

  lemma {:induction false} MaxOfShards(exp: real -> real, shards: seq<Shard>, stats: seq<Stat>, n: nat)
    requires AllValid(shards) && AllReport(exp, shards, stats) && n <= |shards| == |stats|
    ensures MaxOf(Gathered(shards[..n])) == MaxOf(Maxima(stats)[..n])
  {
    hide RowMass, Total, Reports, AllReport, Larger;
    ReportsFit(exp, shards, stats);
    if n != 0 {
      MaxOfShards(exp, shards, stats, n - 1);
      var shard := shards[n - 1];
      ReportedMax(exp, shards, stats, n - 1);
      MaxAppend(Gathered(shards[..n - 1]), shard.Real());
      assert shards[..n][..n - 1] == shards[..n - 1];
      assert Maxima(stats)[..n][..n - 1] == Maxima(stats)[..n - 1];
    }
  }

  lemma ReportsFit(exp: real -> real, shards: seq<Shard>, stats: seq<Stat>)
    requires AllValid(shards) && AllReport(exp, shards, stats)
    ensures |stats| == |shards|
  {
  }

  lemma ReportedMax(exp: real -> real, shards: seq<Shard>, stats: seq<Stat>, r: nat)
    requires AllValid(shards) && AllReport(exp, shards, stats) && r < |shards|
    ensures |stats| == |shards| && stats[r].max == MaxOf(shards[r].Real())
  {
    hide RowMass, Total, MaxOf;
    assert Reports(exp, shards[r], |Gathered(shards[..r])|, stats[r]);
    PaddingIsNothing(exp, shards[r].Real(), shards[r].npad, 0.0);
  }

  lemma {:induction false} GatheredAt(shards: seq<Shard>, r: nat, i: nat)
    requires AllValid(shards) && r < |shards| && i < |shards[r].Real()|
    ensures var k := |Gathered(shards[..r])| + i; k < |Gathered(shards)| && Gathered(shards)[k] == shards[r].Real()[i]
  {
    var n := |shards| - 1;
    if r < n {
      assert shards[..n][..r] == shards[..r];
      GatheredAt(shards[..n], r, i);
    }
  }

  /** The returned id holds the row's largest logit, whichever maxima the ties pick. */
  lemma IdAttainsMaximum(exp: real -> real, shards: seq<Shard>, stats: seq<Stat>, w: nat)
    requires AllValid(shards) && AllReport(exp, shards, stats) && IsArgmax(Maxima(stats), w)
    requires MaxOf(Gathered(shards)).Num?
    ensures var id := stats[w].id; id < |Gathered(shards)| && Gathered(shards)[id] == MaxOf(Gathered(shards))
  {
    hide MaxOf, RowMass;
    MaxOfShards(exp, shards, stats, |shards|);
    assert shards[..|shards|] == shards && Maxima(stats)[..|stats|] == Maxima(stats);
    var start := |Gathered(shards[..w])|;
    var stat := stats[w];
    assert Reports(exp, shards[w], start, stat);
    assert stat.max == MaxOf(Gathered(shards));
    ReportedHolds(exp, shards, w, stat);
  }

  lemma ReportedHolds(exp: real -> real, shards: seq<Shard>, w: nat, stat: Stat)
    requires AllValid(shards) && w < |shards| && Reports(exp, shards[w], |Gathered(shards[..w])|, stat) && stat.max.Num?
    ensures stat.id < |Gathered(shards)| && Gathered(shards)[stat.id] == stat.max
  {
    hide Reports, Gathered;
    var i := ReportedIndex(exp, shards[w], |Gathered(shards[..w])|, stat);
    GatheredAt(shards, w, i);
  }

  lemma ReportedIndex(exp: real -> real, shard: Shard, start: nat, stat: Stat) returns (i: nat)
    requires shard.Valid() && Reports(exp, shard, start, stat) && stat.max.Num?
    ensures i < |shard.Real()| && shard.Real()[i] == stat.max && stat.id == start + i
  {
    hide RowMass, MaxOf;
    i :| IsArgmax(shard.Padded(), i) && stat.id == start + i;
  }

  /** With nothing finite anywhere no rank has a sum. */
  lemma {:induction false} RanksUndefined(exp: real -> real, stats: seq<Stat>, n: nat)
    requires n <= |stats|
    ensures RanksMass(exp, stats, n, NegInf) == if n == 0 then Fin(0.0) else Undefined
  {
    if n != 0 { RanksUndefined(exp, stats, n - 1); }
  }

  lemma ShardedMassIs(exp: real -> real, shards: seq<Shard>, stats: seq<Stat>)
    requires Exponential(exp) && AllValid(shards) && shards != [] && AllReport(exp, shards, stats)
    ensures AllSafe(shards) ==> MaxOf(Gathered(shards)).Num?
    ensures ShardedMass(exp, stats) ==
            if AllSafe(shards) && MaxOf(Gathered(shards)).Num?
            then Fin(Total(exp, Gathered(shards), MaxOf(Gathered(shards)).x))
            else Undefined
  {
    hide Exponential, Total, Safe, MaxOf;
    var n := |shards|;
    assert shards[..n] == shards && Maxima(stats)[..n] == Maxima(stats);
    MaxOfShards(exp, shards, stats, n);
    var max := MaxOf(Maxima(stats));
    if AllSafe(shards) { SafeShardsHaveMax(exp, shards, stats); }
    if n == 1 {
      OneShard(exp, shards, stats);
    } else if max.Num? {
      hide AllReport, Gathered, RanksMass, AllSafe;
      RanksShare(exp, shards, stats, n, max);
    } else {
      hide AllReport, Gathered, RanksMass, AllSafe;
      RanksUndefined(exp, stats, n);
    }
  }

  lemma SafeShardsHaveMax(exp: real -> real, shards: seq<Shard>, stats: seq<Stat>)
    requires AllValid(shards) && shards != [] && AllReport(exp, shards, stats) && AllSafe(shards)
    ensures MaxOf(Maxima(stats)).Num?
  {
    hide RowMass, Safe, MaxOf;
    assert Reports(exp, shards[0], |Gathered(shards[..0])|, stats[0]);
    SafeHasMax(shards[0].Padded());
    MaxBounds(Maxima(stats), 0);
  }

  lemma OneShard(exp: real -> real, shards: seq<Shard>, stats: seq<Stat>)
    requires AllValid(shards) && |shards| == 1 && AllReport(exp, shards, stats)
    ensures stats[0].sum ==
            if AllSafe(shards) && MaxOf(Gathered(shards)).Num?
            then Fin(Total(exp, Gathered(shards), MaxOf(Gathered(shards)).x))
            else Undefined
  {
    hide Total, Safe, MaxOf;
    var shard := shards[0];
    assert shards[..0] == [];
    assert Reports(exp, shard, |Gathered(shards[..0])|, stats[0]);
    assert Gathered(shards) == shard.Real();
    PaddingIsNothing(exp, shard.Real(), shard.npad, if MaxOf(shard.Real()).Num? then MaxOf(shard.Real()).x else 0.0);
    assert AllSafe(shards) <==> Safe(shard.Padded());
  }

  /** The sharded confidence is 1 / sum(exp(l - max)) of the gathered row exactly when no shard's split opens with
      a whole block of minus infinities; otherwise it is not a number. */
  lemma ConfidenceIsExactIff(exp: real -> real, shards: seq<Shard>, stats: seq<Stat>)
    requires Exponential(exp) && AllValid(shards) && shards != [] && AllReport(exp, shards, stats)
    ensures AllSafe(shards) <==> Inverse(ShardedMass(exp, stats)).Fin?
    ensures AllSafe(shards) ==> var g := Gathered(shards);
            MaxOf(g).Num? && 0.0 < Total(exp, g, MaxOf(g).x) &&
                Inverse(ShardedMass(exp, stats)) == Fin(1.0 / Total(exp, g, MaxOf(g).x))
  {
    ShardedMassIs(exp, shards, stats);
    if AllSafe(shards) { TotalPositive(exp, Gathered(shards)); }
    hide Exponential, AllReport, AllSafe, Total, Gathered, MaxOf, ShardedMass;
  }

  /** So the confidence is the softmax probability of the largest gathered logit. */
  lemma ConfidenceIsProbability(exp: real -> real, shards: seq<Shard>, stats: seq<Stat>)
    requires Exponential(exp) && AllValid(shards) && shards != [] && AllReport(exp, shards, stats) && AllSafe(shards)
    ensures var g, c := Gathered(shards), Inverse(ShardedMass(exp, stats));
            c.Fin? && MaxOf(g).Num? && 0.0 < Sum(Exps(exp, g)) && c.x == exp(MaxOf(g).x) / Sum(Exps(exp, g))
  {
    hide Exponential, AllReport, AllSafe, Gathered, MaxOf, ShardedMass, Weights, Exps, Sum;
    ConfidenceIsExactIff(exp, shards, stats);
    var g := Gathered(shards);
    WeightsRescaled(exp, g, MaxOf(g).x);
    WeightRescaled(exp, MaxOf(g), MaxOf(g).x);
    ShareIs(1.0, Total(exp, g, MaxOf(g).x), exp(MaxOf(g).x));
  }

  /** Both draft paths give one confidence wherever both give a number. */
  lemma ShardedEqualsGathered(exp: real -> real, shards: seq<Shard>, stats: seq<Stat>)
    requires Exponential(exp) && AllValid(shards) && shards != [] && AllReport(exp, shards, stats)
    requires AllSafe(shards) && Safe(Gathered(shards))
    ensures Inverse(ShardedMass(exp, stats)) == Inverse(RowMass(exp, Gathered(shards)))
  {
    ShardedMassIs(exp, shards, stats);
    hide Exponential, AllReport, AllSafe, Total, Gathered, MaxOf, ShardedMass, Safe;
  }

  /** With finite real logits a shard is safe exactly when its last split does not begin in the padding. */
  lemma SafeIffPaddingFits(shard: Shard)
    requires shard.Valid() && forall i :: 0 <= i < |shard.Real()| ==> shard.Real()[i].Num?
    ensures Safe(shard.Padded()) <==> (|shard.raw| - 1) / CHUNK * CHUNK < |shard.raw| - shard.npad
  {
    hide Sound, Chunk;
    var row, width := shard.Padded(), |shard.raw| - shard.npad;
    var last := (|row| - 1) / CHUNK;
    assert last < NSPLIT && last * CHUNK < |row| <= (last + 1) * CHUNK;
    SplitSoundIff(shard, last);
    if last * CHUNK < width {
      forall sp: nat | sp < NSPLIT ensures Sound(Chunk(row, sp)) {
        SplitSoundIff(shard, sp);
      }
    }
  }

  lemma SplitSoundIff(shard: Shard, sp: nat)
    requires shard.Valid() && forall i :: 0 <= i < |shard.Real()| ==> shard.Real()[i].Num?
    ensures Sound(Chunk(shard.Padded(), sp)) <==> sp * CHUNK >= |shard.raw| || sp * CHUNK < |shard.raw| - shard.npad
  {
    var row := shard.Padded();
    var c := Chunk(row, sp);
    if c != [] {
      var b := FirstBlock(c);
      assert b != [] && b[0] == row[sp * CHUNK];
      hide MaxOf;
      if row[sp * CHUNK].Num? {
        MaxBounds(b, 0);
      } else {
        var i := MaxAttained(b);
        assert b[i] == row[sp * CHUNK + i];
      }
    }
  }
}
