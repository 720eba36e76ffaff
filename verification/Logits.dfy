/** Rows of logits, their maxima and their exponential weights.  The exponential is a parameter; a row may hold
    minus infinity, whose weight is zero. */
module Logits {
  datatype Logit = NegInf | Num(x: real)

  predicate Less(a: Logit, b: Logit) {
    b.Num? && (a.NegInf? || a.x < b.x)
  }

  function Sum(w: seq<real>): real {
    if w == [] then 0.0 else Sum(w[..|w| - 1]) + w[|w| - 1]
  }

  function Product(a: real, b: real): real {
    a * b
  }

  predicate HasFinite(xs: seq<Logit>) {
    exists x <- xs :: x.Num?
  }

  function MaxNum(xs: seq<Logit>): real
    requires HasFinite(xs)
  {
    var rest := xs[..|xs| - 1];
    var last := xs[|xs| - 1];
    if HasFinite(rest) then
      var m := MaxNum(rest);
      if last.Num? && m < last.x then last.x else m
    else
      assert last.Num? by { var x :| x in xs && x.Num?; assert xs == rest + [last]; assert x !in rest; }
      last.x
  }

  function Weight(exp: real -> real, x: Logit, max: real): real {
    if x.NegInf? then 0.0 else exp(x.x - max)
  }

  function Weights(exp: real -> real, xs: seq<Logit>, max: real): seq<real> {
    seq(|xs|, j requires 0 <= j < |xs| => Weight(exp, xs[j], max))
  }

  ghost predicate Positive(exp: real -> real) {
    forall x :: 0.0 < exp(x)
  }

  lemma {:induction false} SumPositive(exp: real -> real, xs: seq<Logit>, max: real)
    requires Positive(exp)
    ensures 0.0 <= Sum(Weights(exp, xs, max))
    ensures HasFinite(xs) ==> 0.0 < Sum(Weights(exp, xs, max))
  {
    if xs != [] {
      var rest := xs[..|xs| - 1];
      SumPositive(exp, rest, max);
      assert Weights(exp, xs, max)[..|xs| - 1] == Weights(exp, rest, max);
      if x :| x in xs && x.Num? {
        assert xs == rest + [xs[|xs| - 1]];
      }
    }
  }

  /** The exponential law. */
  ghost predicate Exponential(exp: real -> real) {
    Positive(exp) && forall a, b, c :: c == a + b ==> exp(c) == exp(a) * exp(b)
  }

  /** The exponentials themselves, with none for minus infinity. */
  function Exps(exp: real -> real, xs: seq<Logit>): seq<real> {
    seq(|xs|, j requires 0 <= j < |xs| => if xs[j].NegInf? then 0.0 else exp(xs[j].x))
  }

  lemma WeightRescaled(exp: real -> real, x: Logit, max: real)
    requires Exponential(exp)
    ensures Product(Weight(exp, x, max), exp(max)) == Exps(exp, [x])[0] && 0.0 < exp(max)
    ensures Positive(exp)
  {
  }

  /** A row's weights are its exponentials, all divided by the exponential of the reference value. */
  lemma {:induction false} WeightsRescaled(exp: real -> real, xs: seq<Logit>, max: real)
    requires Exponential(exp)
    ensures Product(Sum(Weights(exp, xs, max)), exp(max)) == Sum(Exps(exp, xs))
  {
    hide Exponential, Weight, Product;
    if xs == [] {
      assert Weights(exp, xs, max) == [] == Exps(exp, xs);
      NoProduct(exp(max));
    } else {
      var n := |xs| - 1;
      WeightsRescaled(exp, xs[..n], max);
      WeightRescaled(exp, xs[n], max);
      var w, e := Weights(exp, xs, max), Exps(exp, xs);
      assert w[..n] == Weights(exp, xs[..n], max) && e[..n] == Exps(exp, xs[..n]);
      ProductOfSum(Sum(w[..n]), w[n], exp(max));
    }
  }

  lemma NoProduct(c: real)
    ensures Product(0.0, c) == 0.0
  {
  }

  lemma ProductOfSum(a: real, b: real, c: real)
    ensures Product(a + b, c) == Product(a, c) + Product(b, c)
  {
  }

  /** A common positive factor does not change a share. */
  lemma ShareIs(part: real, whole: real, factor: real)
    requires 0.0 < whole && 0.0 < factor
    ensures 0.0 < Product(whole, factor) && part / whole == Product(part, factor) / Product(whole, factor)
  {
    var q := part / whole;
    assert part == q * whole;
    assert part * factor == q * (whole * factor);
  }

  lemma {:induction false} SumAppend(a: seq<real>, b: seq<real>)
    ensures Sum(a + b) == Sum(a) + Sum(b)
  {
    if b == [] {
      assert a + b == a;
    } else {
      assert (a + b)[..|a + b| - 1] == a + b[..|b| - 1];
      SumAppend(a, b[..|b| - 1]);
    }
  }

  lemma {:induction false} MaxIs(xs: seq<Logit>, m: Logit)
    requires m in xs && m.Num? && forall x <- xs :: !Less(m, x)
    ensures MaxNum(xs) == m.x
  {
    var n := |xs| - 1;
    assert xs == xs[..n] + [xs[n]];
    assert xs[n] in xs && forall x <- xs[..n] :: x in xs;
    assert m in xs[..n] ==> HasFinite(xs[..n]);
    if HasFinite(xs[..n]) {
      if m in xs[..n] {
        MaxIs(xs[..n], m);
      } else {
        MaxBound(xs[..n], m.x);
      }
    }
  }

  lemma {:induction false} MaxBound(xs: seq<Logit>, m: real)
    requires HasFinite(xs) && forall x <- xs :: !Less(Num(m), x)
    ensures MaxNum(xs) <= m
  {
    var n := |xs| - 1;
    assert xs == xs[..n] + [xs[n]];
    assert xs[n] in xs && forall x <- xs[..n] :: x in xs;
    if HasFinite(xs[..n]) {
      MaxBound(xs[..n], m);
    }
  }

  lemma ZeroProduct(t: real, z: real)
    requires z != 0.0 && t * z == 0.0
    ensures t == 0.0
  {
  }
}
