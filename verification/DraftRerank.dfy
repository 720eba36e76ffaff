/** The exact rerank behind the 2-bit draft head (radiance_drafthead.py): how far a coarse logit can be off, which
    tokens are rescored against the exact weight, and when the rescored row's winner is the exact one. */
module DraftRerank {
  import opened Arithmetic
  import opened DraftHead
  import opened Logits
  import T = TopKTopP

  // ---------------------------------------------------------------------------
  // How far a coarse logit is off
  // ---------------------------------------------------------------------------

  function Abs(x: real): real {
    if x < 0.0 then -x else x
  }

  /** The exact logit: activation times weight row, the first i terms. */
  function Exact(x: seq<real>, w: seq<real>, i: nat): real
    requires |x| == |w| && i <= |x|
  {
    if i == 0 then 0.0 else Exact(x, w, i - 1) + Product(x[i - 1], w[i - 1])
  }

  function AbsFrom(x: seq<real>, base: nat, n: nat): real
    requires base + n <= |x|
  {
    if n == 0 then 0.0 else AbsFrom(x, base, n - 1) + Abs(x[base + n - 1])
  }

  /** Half the step of group g. */
  function HalfStep(row: seq<real>, g: nat): real
    requires g < |row| / GROUP
  {
    Step(RowGroup(row, g)) / 2.0
  }

  /** Over the first g groups, half of each one's step times the activations' magnitude. */
  function Slack(x: seq<real>, row: seq<real>, g: nat): real
    requires |x| == |row| && g <= |row| / GROUP
  {
    if g == 0 then 0.0
    else Slack(x, row, g - 1) + Product(HalfStep(row, g - 1), AbsFrom(x, (g - 1) * GROUP, GROUP))
  }

  /** Every group's range lies within 3.5 steps of zero. */
  predicate InRange(row: seq<real>) {
    forall g :: 0 <= g < |row| / GROUP ==>
      var ws := RowGroup(row, g);
      -3.5 * Step(ws) <= Least(ws) && Greatest(ws) <= 3.5 * Step(ws)
  }

  predicate Near(a: real, b: real, d: real) {
    -d <= a - b <= d
  }

  lemma ProductSum(h: real, a: real, b: real)
    ensures Product(h, a + b) == Product(h, a) + Product(h, b)
  {
  }

  lemma TermNear(x: real, w: real, v: real, h: real)
    requires -h <= w - v <= h
    ensures Near(Product(x, v), Product(x, w), Product(h, Abs(x)))
  {
    var d := w - v;
    assert Product(x, v) - Product(x, w) == -(x * d);
    if x >= 0.0 {
      assert -(h * x) <= x * d <= h * x;
    } else {
      assert -(h * -x) <= -x * d <= h * -x;
    }
  }

  lemma QuantisedParts(row: seq<real>, g: nat, o: nat)
    requires |row| % (2 * GROUP) == 0 && g < |row| / GROUP && o < GROUP
    ensures g * GROUP + o < |row| && (g * GROUP + o) / GROUP == g && row[g * GROUP + o] == RowGroup(row, g)[o]
    ensures var col, ws := QuantisedRow(row), RowGroup(row, g);
            col.codes[g * GROUP + o] == Quantised(ws, ws[o]) && col.s[g] == Step(ws) && col.z[g] == Zero(ws) as real
  {
    hide Step, Zero, Quantised;
    DivModUnique(g * GROUP + o, GROUP, g, o);
  }

  /** One dequantised term against the exact one. */
  lemma OneTermNear(x: real, row: seq<real>, g: nat, o: nat)
    requires |row| % (2 * GROUP) == 0 && g < |row| / GROUP && o < GROUP && InRange(row)
    ensures g * GROUP + o < |row|
    ensures var col, i := QuantisedRow(row), g * GROUP + o;
            Near(Term(x, col.codes[i], col.s[g], col.z[g]), Product(x, row[i]), Product(HalfStep(row, g), Abs(x)))
  {
    hide Step, Zero, Quantised, Least, Greatest, QuantisedRow, Product, Term, NearStep;
    QuantisedParts(row, g, o);
    var ws := RowGroup(row, g);
    WithinHalfStep(ws);
    assert NearStep(ws, o);
    NearTerm(x, ws, o);
  }

  lemma NearTerm(x: real, ws: seq<real>, o: nat)
    requires o < |ws| && NearStep(ws, o)
    ensures Near(Term(x, Quantised(ws, ws[o]), Step(ws), Zero(ws) as real), Product(x, ws[o]),
            Product(Step(ws) / 2.0, Abs(x)))
  {
    hide Step, Zero, Quantised, Product;
    var c, s, z := Quantised(ws, ws[o]), Step(ws), Zero(ws) as real;
    TermIs(x, c, s, z);
    TermNear(x, ws[o], s * (c as real - z), s / 2.0);
  }

  lemma TermIs(x: real, c: Code, s: real, z: real)
    ensures Term(x, c, s, z) == Product(x, s * (c as real - z))
  {
  }

  lemma {:induction false} GroupNear(x: seq<real>, row: seq<real>, g: nat, o: nat)
    requires |row| % (2 * GROUP) == 0 && |x| == |row| && g < |row| / GROUP && o <= GROUP && InRange(row)
    requires var i := g * GROUP; Near(Dequantised(x, QuantisedRow(row), |row|, i), Exact(x, row, i), Slack(x, row, g))
    ensures g * GROUP + o <= |row|
    ensures var i := g * GROUP + o;
            Near(Dequantised(x, QuantisedRow(row), |row|, i), Exact(x, row, i),
                 Slack(x, row, g) + Product(HalfStep(row, g), AbsFrom(x, g * GROUP, o)))
  {
    hide InRange, Product, HalfStep, Term, QuantisedRow, Slack;
    if o == 0 {
      NoProduct(HalfStep(row, g));
    } else {
      GroupNear(x, row, g, o - 1);
      QuantisedParts(row, g, o - 1);
      OneTermNear(x[g * GROUP + o - 1], row, g, o - 1);
      ProductSum(HalfStep(row, g), AbsFrom(x, g * GROUP, o - 1), Abs(x[g * GROUP + o - 1]));
    }
  }

  lemma NoProduct(h: real)
    ensures Product(h, 0.0) == 0.0
  {
  }

  lemma {:induction false} GroupsNear(x: seq<real>, row: seq<real>, g: nat)
    requires |row| % (2 * GROUP) == 0 && |x| == |row| && g <= |row| / GROUP && InRange(row)
    ensures var i := g * GROUP; Near(Dequantised(x, QuantisedRow(row), |row|, i), Exact(x, row, i), Slack(x, row, g))
  {
    hide InRange, Product, HalfStep, Term, QuantisedRow, AbsFrom;
    if g != 0 {
      GroupsNear(x, row, g - 1);
      hide Dequantised, Exact;
      GroupNear(x, row, g - 1, GROUP);
    }
  }

  /** The kernel's logit is within the slack of the exact one: half of every group's step for each unit of
      activation. */
  lemma CoarseNear(x: seq<real>, row: seq<real>, k: nat)
    requires |x| == |row| == k && k % (4 * GROUP) == 0 && InRange(row)
    ensures Near(Accumulated(x, QuantisedRow(row), k, 4 * Groups(k)), Exact(x, row, k), Slack(x, row, k / GROUP))
  {
    hide InRange, Dequantised, Exact, QuantisedRow, Slack, Accumulated, Groups, Column.Valid, Near;
    WholeGroups(k);
    RowNear(x, row, k / GROUP, k);
    KernelIsExact(x, QuantisedRow(row), k);
  }

  lemma RowNear(x: seq<real>, row: seq<real>, g: nat, k: nat)
    requires |x| == |row| == k && k % (2 * GROUP) == 0 && g == k / GROUP && g * GROUP == k && InRange(row)
    ensures Near(Dequantised(x, QuantisedRow(row), k, k), Exact(x, row, k), Slack(x, row, g))
  {
    hide *;
    GroupsNear(x, row, g);
  }

  lemma WholeGroups(k: nat)
    requires k % (4 * GROUP) == 0
    ensures k / GROUP * GROUP == k && k % (2 * GROUP) == 0
  {
  }

  // ---------------------------------------------------------------------------
  // The rescoring kernel
  // ---------------------------------------------------------------------------

  const BLOCK_K: nat := 512

  /** A block's products added lane by lane add its terms to the total. */
  lemma {:induction false} LanesAdd(x: seq<real>, w: seq<real>, base: nat, acc: seq<real>, next: seq<real>, m: nat)
    requires |x| == |w| && base + |acc| <= |x| && |next| == |acc| && m <= |acc|
    requires forall l :: 0 <= l < |acc| ==> next[l] == acc[l] + Product(x[base + l], w[base + l])
    ensures Sum(next[..m]) - Sum(acc[..m]) == Exact(x, w, base + m) - Exact(x, w, base)
  {
    hide Product;
    if m != 0 {
      LanesAdd(x, w, base, acc, next, m - 1);
      assert next[..m][..m - 1] == next[..m - 1] && acc[..m][..m - 1] == acc[..m - 1];
    }
  }

  lemma LanesAddAll(x: seq<real>, w: seq<real>, base: nat, acc: seq<real>, next: seq<real>)
    requires |x| == |w| && base + |acc| <= |x| && |next| == |acc|
    requires forall l :: 0 <= l < |acc| ==> next[l] == acc[l] + Product(x[base + l], w[base + l])
    ensures Sum(next) - Sum(acc) == Exact(x, w, base + |acc|) - Exact(x, w, base)
  {
    hide Product, Sum, Exact;
    LanesAdd(x, w, base, acc, next, |acc|);
    assert next[..|acc|] == next && acc[..|acc|] == acc;
  }

  lemma NoLanes(n: nat)
    ensures Sum(seq(n, _ => 0.0)) == 0.0
  {
    T.SumZeros(seq(n, _ => 0.0));
  }

  /** _rerank_exact for one candidate: a vector of partial sums over blocks of K, then their sum. */
  method RerankExact(x: seq<real>, w: seq<real>) returns (r: real)
    requires |x| == |w| && |x| % BLOCK_K == 0
    ensures r == Exact(x, w, |x|)
  {
    hide Product, Exact, Sum;
    var acc := seq(BLOCK_K, _ => 0.0);
    NoLanes(BLOCK_K);
    NothingExact(x, w);
    for b := 0 to |x| / BLOCK_K
      invariant |acc| == BLOCK_K && Sum(acc) == Exact(x, w, b * BLOCK_K)
    {
      var base := b * BLOCK_K;
      var next := seq(BLOCK_K, l requires 0 <= l < BLOCK_K => acc[l] + Product(x[base + l], w[base + l]));
      LanesAddAll(x, w, base, acc, next);
      acc := next;
    }
    r := Sum(acc);
  }

  lemma NothingExact(x: seq<real>, w: seq<real>)
    requires |x| == |w|
    ensures Exact(x, w, 0) == 0.0
  {
  }

  // ---------------------------------------------------------------------------
  // The candidates of all blocks
  // ---------------------------------------------------------------------------

  function Blocks(n: nat): nat {
    (n + BLOCK_N - 1) / BLOCK_N
  }

  /** A block's accumulators: its columns of the row, zero past the end. */
  function BlockAcc(coarse: seq<real>, pid: nat): (acc: seq<real>)
    ensures |acc| == BLOCK_N
  {
    seq(BLOCK_N, l requires 0 <= l < BLOCK_N => if pid * BLOCK_N + l < |coarse| then coarse[pid * BLOCK_N + l] else 0.0)
  }

  predicate Offered(bm: seq<Logit>, bi: seq<nat>, l: nat)
    requires |bm| == |bi|
  {
    exists s :: 0 <= s < |bm| && bm[s].Num? && bi[s] == l
  }

  /** Every candidate of l's block is finite and no smaller. */
  predicate Outdone(coarse: seq<real>, bm: seq<Logit>, l: nat)
    requires l < |coarse| && (l / BLOCK_N + 1) * KCAND <= |bm|
  {
    forall s :: l / BLOCK_N * KCAND <= s < (l / BLOCK_N + 1) * KCAND ==> bm[s].Num? && coarse[l] <= bm[s].x
  }

  /** The candidates of the first `blocks` blocks: tokens of their own blocks, the finite ones distinct and with their
      coarse logits. */
  ghost predicate Slots(coarse: seq<real>, blocks: nat, bm: seq<Logit>, bi: seq<nat>) {
    && |bm| == |bi| == blocks * KCAND && blocks <= Blocks(|coarse|)
    && (forall s :: 0 <= s < |bi| ==> bi[s] < |coarse| && bi[s] / BLOCK_N == s / KCAND)
    && (forall s :: 0 <= s < |bm| && bm[s].Num? ==> bm[s].x == coarse[bi[s]])
    && (forall s, t :: 0 <= s < t < |bm| && bm[s].Num? && bm[t].Num? ==> bi[s] != bi[t])
  }

  /** And a token left out is matched or beaten by all of its block's. */
  ghost predicate Candidates(coarse: seq<real>, blocks: nat, bm: seq<Logit>, bi: seq<nat>) {
    && Slots(coarse, blocks, bm, bi)
    && (forall l: nat :: l < |coarse| && l / BLOCK_N < blocks && !Offered(bm, bi, l) ==> Outdone(coarse, bm, l))
  }

  lemma NoCandidates(coarse: seq<real>)
    ensures Candidates(coarse, 0, [], [])
  {
  }

  lemma BlockFacts(coarse: seq<real>, pid: nat, m: seq<Logit>, i: seq<nat>, c: nat)
    requires pid * BLOCK_N < |coarse| && |m| == |i| == KCAND && c < KCAND
    requires forall c :: 0 <= c < KCAND ==> pid * BLOCK_N <= i[c] < (pid + 1) * BLOCK_N && i[c] < |coarse|
    requires TopOfBlock(BlockAcc(coarse, pid), Live(pid, |coarse|), Stored(m, i, pid * BLOCK_N))
    ensures i[c] / BLOCK_N == pid
    ensures m[c].Num? ==> m[c].x == coarse[i[c]]
    ensures forall d :: c < d < KCAND && m[c].Num? && m[d].Num? ==> i[c] != i[d]
  {
    var cands := Stored(m, i, pid * BLOCK_N);
    assert cands[c].value == m[c] && cands[c].lane == i[c] - pid * BLOCK_N;
    DivModUnique(i[c], BLOCK_N, pid, i[c] - pid * BLOCK_N);
    forall d | c < d < KCAND && m[c].Num? && m[d].Num? ensures i[c] != i[d] {
      assert cands[d].value == m[d] && cands[d].lane == i[d] - pid * BLOCK_N;
    }
  }

  lemma BlockLeftOut(coarse: seq<real>, pid: nat, m: seq<Logit>, i: seq<nat>, l: nat)
    requires pid * BLOCK_N < |coarse| && |m| == |i| == KCAND && l < |coarse| && l / BLOCK_N == pid
    requires forall c :: 0 <= c < KCAND ==> pid * BLOCK_N <= i[c] < (pid + 1) * BLOCK_N && i[c] < |coarse|
    requires TopOfBlock(BlockAcc(coarse, pid), Live(pid, |coarse|), Stored(m, i, pid * BLOCK_N))
    requires forall c :: 0 <= c < KCAND && m[c].Num? ==> i[c] != l
    ensures forall c :: 0 <= c < KCAND ==> m[c].Num? && coarse[l] <= m[c].x
  {
    var cands := Stored(m, i, pid * BLOCK_N);
    var lane := l - pid * BLOCK_N;
    assert !Emitted(cands, lane);
    forall c | 0 <= c < KCAND ensures m[c].Num? && coarse[l] <= m[c].x {
      assert cands[c].value == m[c];
    }
  }

  lemma SlotsJoin(coarse: seq<real>, pid: nat, bm: seq<Logit>, bi: seq<nat>, m: seq<Logit>, i: seq<nat>)
    requires Slots(coarse, pid, bm, bi) && pid * BLOCK_N < |coarse| && |m| == |i| == KCAND
    requires forall c :: 0 <= c < KCAND ==> pid * BLOCK_N <= i[c] < (pid + 1) * BLOCK_N && i[c] < |coarse|
    requires TopOfBlock(BlockAcc(coarse, pid), Live(pid, |coarse|), Stored(m, i, pid * BLOCK_N))
    ensures Slots(coarse, pid + 1, bm + m, bi + i)
  {
    hide TopOfBlock, Stored, BlockAcc, Live;
    var n := |bm|;
    forall c | 0 <= c < KCAND
      ensures i[c] / BLOCK_N == pid && (n + c) / KCAND == pid
      ensures m[c].Num? ==> m[c].x == coarse[i[c]]
      ensures forall d :: c < d < KCAND && m[c].Num? && m[d].Num? ==> i[c] != i[d]
    {
      BlockFacts(coarse, pid, m, i, c);
      DivModUnique(n + c, KCAND, pid, c);
    }
  }

  lemma BlockJoins(coarse: seq<real>, pid: nat, bm: seq<Logit>, bi: seq<nat>, m: seq<Logit>, i: seq<nat>)
    requires Candidates(coarse, pid, bm, bi) && pid * BLOCK_N < |coarse| && |m| == |i| == KCAND
    requires forall c :: 0 <= c < KCAND ==> pid * BLOCK_N <= i[c] < (pid + 1) * BLOCK_N && i[c] < |coarse|
    requires TopOfBlock(BlockAcc(coarse, pid), Live(pid, |coarse|), Stored(m, i, pid * BLOCK_N))
    ensures Candidates(coarse, pid + 1, bm + m, bi + i)
  {
    hide TopOfBlock, Stored, BlockAcc, Live, Offered, Outdone;
    SlotsJoin(coarse, pid, bm, bi, m, i);
    forall l: nat | l < |coarse| && l / BLOCK_N < pid + 1 && !Offered(bm + m, bi + i, l)
      ensures Outdone(coarse, bm + m, l)
    {
      LeftOutJoins(coarse, pid, bm, bi, m, i, l);
    }
  }

  lemma LeftOutJoins(coarse: seq<real>, pid: nat, bm: seq<Logit>, bi: seq<nat>, m: seq<Logit>, i: seq<nat>, l: nat)
    requires Candidates(coarse, pid, bm, bi) && pid * BLOCK_N < |coarse| && |m| == |i| == KCAND
    requires forall c :: 0 <= c < KCAND ==> pid * BLOCK_N <= i[c] < (pid + 1) * BLOCK_N && i[c] < |coarse|
    requires TopOfBlock(BlockAcc(coarse, pid), Live(pid, |coarse|), Stored(m, i, pid * BLOCK_N))
    requires l < |coarse| && l / BLOCK_N < pid + 1 && !Offered(bm + m, bi + i, l)
    ensures Outdone(coarse, bm + m, l)
  {
    hide TopOfBlock, Stored, BlockAcc, Live;
    forall s | 0 <= s < |bm| && bm[s].Num? ensures bi[s] != l {
      assert (bm + m)[s] == bm[s] && (bi + i)[s] == bi[s];
    }
    assert !Offered(bm, bi, l);
    forall c | 0 <= c < KCAND && m[c].Num? ensures i[c] != l {
      assert (bm + m)[|bm| + c] == m[c] && (bi + i)[|bm| + c] == i[c];
    }
    if l / BLOCK_N < pid {
      assert Outdone(coarse, bm, l);
    } else {
      BlockLeftOut(coarse, pid, m, i, l);
    }
  }

  lemma BlockInside(n: nat, pid: nat)
    requires pid < Blocks(n)
    ensures pid * BLOCK_N < n
  {
  }

  /** The coarse pass over one row: every block emits its candidates. */
  method CoarseCandidates(coarse: seq<real>) returns (bm: seq<Logit>, bi: seq<nat>)
    ensures Candidates(coarse, Blocks(|coarse|), bm, bi)
  {
    hide Candidates, TopOfBlock, BlockAcc, Stored, Live;
    bm, bi := [], [];
    NoCandidates(coarse);
    for pid := 0 to Blocks(|coarse|)
      invariant Candidates(coarse, pid, bm, bi)
    {
      BlockInside(|coarse|, pid);
      var m, i := Emit(BlockAcc(coarse, pid), pid, |coarse|);
      BlockJoins(coarse, pid, bm, bi, m, i);
      bm, bi := bm + m, bi + i;
    }
  }

  // ---------------------------------------------------------------------------
  // What is rescored
  // ---------------------------------------------------------------------------

  /** The tokens behind the chosen candidates. */
  function Chosen(bi: seq<nat>, top: seq<nat>): (ids: seq<nat>)
    requires forall j :: 0 <= j < |top| ==> top[j] < |bi|
    ensures |ids| == |top| && forall j :: 0 <= j < |ids| ==> ids[j] == bi[top[j]]
  {
    seq(|top|, j requires 0 <= j < |top| => bi[top[j]])
  }

  /** The other tokens whose coarse logit is no smaller. */
  function Rivals(coarse: seq<real>, l: nat): set<nat>
    requires l < |coarse|
  {
    set i: nat | i < |coarse| && i != l && coarse[i] >= coarse[l]
  }

  lemma ManyRivals(coarse: seq<real>, l: nat, lanes: seq<nat>)
    requires l < |coarse| && forall i, j :: 0 <= i < j < |lanes| ==> lanes[i] != lanes[j]
    requires forall i :: 0 <= i < |lanes| ==> lanes[i] < |coarse| && lanes[i] != l && coarse[lanes[i]] >= coarse[l]
    ensures |lanes| <= |Rivals(coarse, l)|
  {
    T.DistinctCardinality(lanes);
    T.SubsetCardinality(T.Elements(lanes), Rivals(coarse, l));
  }

  /** A token left out by its block has as many rivals as the block has candidates. */
  lemma LeftOutHasRivals(coarse: seq<real>, bm: seq<Logit>, bi: seq<nat>, l: nat)
    requires Candidates(coarse, Blocks(|coarse|), bm, bi) && l < |coarse| && !Offered(bm, bi, l)
    ensures KCAND <= |Rivals(coarse, l)|
  {
    BlockOf(|coarse|, l);
    assert Outdone(coarse, bm, l);
    var first := l / BLOCK_N * KCAND;
    ManyRivals(coarse, l, bi[first..first + KCAND]);
  }

  lemma BlockOf(n: nat, l: nat)
    requires l < n
    ensures l / BLOCK_N < Blocks(n)
  {
  }

  /** An offered token that was not chosen has as many rivals as were chosen. */
  lemma UnchosenHasRivals(coarse: seq<real>, bm: seq<Logit>, bi: seq<nat>, top: seq<nat>, l: nat)
    requires Candidates(coarse, Blocks(|coarse|), bm, bi) && T.IsTopK(bm, top)
    requires l < |coarse| && Offered(bm, bi, l) && l !in Chosen(bi, top)
    ensures |top| <= |Rivals(coarse, l)|
  {
    var s :| 0 <= s < |bm| && bm[s].Num? && bi[s] == l;
    var ids := Chosen(bi, top);
    forall j | 0 <= j < |top| ensures top[j] != s {
      assert ids[j] in ids;
    }
    forall j | 0 <= j < |top| ensures bm[top[j]].Num? && bm[top[j]].x >= bm[s].x && ids[j] != l {
      ChosenNotLess(bm, top, s, j);
      assert ids[j] in ids;
    }
    hide Offered, Outdone;
    forall i, j | 0 <= i < j < |ids| ensures ids[i] != ids[j] {
      assert top[i] != top[j];
    }
    ManyRivals(coarse, l, ids);
  }

  lemma ChosenNotLess(bm: seq<Logit>, top: seq<nat>, s: nat, j: nat)
    requires T.IsTopK(bm, top) && s < |bm| && s !in top && j < |top|
    ensures top[j] < |bm| && !Less(bm[top[j]], bm[s])
  {
    var v := T.Gather(bm, top);
    assert v[j] == bm[top[j]] && v[|top| - 1] == bm[top[|top| - 1]];
    assert !Less(v[j], v[|top| - 1]);
  }

  function Smaller(a: nat, b: nat): nat {
    if a < b then a else b
  }

  /** The coarse top is rescored: whatever the ties, a token with fewer rivals than both the candidates of a block and
      the candidates chosen is among them. */
  lemma CoarseTopIsRescored(coarse: seq<real>, bm: seq<Logit>, bi: seq<nat>, top: seq<nat>, l: nat)
    requires Candidates(coarse, Blocks(|coarse|), bm, bi) && T.IsTopK(bm, top)
    requires l < |coarse| && |Rivals(coarse, l)| < Smaller(KCAND, |top|)
    ensures l in Chosen(bi, top)
  {
    hide Rivals, Offered, Outdone, T.Descending;
    if l !in Chosen(bi, top) {
      if Offered(bm, bi, l) {
        UnchosenHasRivals(coarse, bm, bi, top, l);
      } else {
        LeftOutHasRivals(coarse, bm, bi, l);
      }
    }
  }

  // ---------------------------------------------------------------------------
  // The rescored row
  // ---------------------------------------------------------------------------

  /** The row after the scatter; `blank` is the variant for a caller that ranks the whole row. */
  function Reranked(coarse: seq<real>, e: seq<real>, ids: seq<nat>, blank: bool): (out: seq<Logit>)
    requires |e| == |coarse|
    ensures |out| == |coarse|
  {
    seq(|coarse|, i requires 0 <= i < |coarse| =>
      if i in ids then Num(e[i]) else if blank then NegInf else Num(coarse[i]))
  }

  function ExactLogits(x: seq<real>, w: seq<seq<real>>): (e: seq<real>)
    requires forall i :: 0 <= i < |w| ==> |w[i]| == |x|
    ensures |e| == |w|
  {
    seq(|w|, i requires 0 <= i < |w| => Exact(x, w[i], |x|))
  }

  /** Rescoring in place: the exact logits of the chosen tokens, the blanking, the scatter. */
  method Rescore(y: array<Logit>, x: seq<real>, w: seq<seq<real>>, ids: seq<nat>, blank: bool, ghost coarse: seq<real>)
    requires y.Length == |w| == |coarse| && |x| % BLOCK_K == 0
    requires forall i :: 0 <= i < |w| ==> |w[i]| == |x|
    requires forall i :: 0 <= i < |coarse| ==> y[i] == Num(coarse[i])
    requires forall j :: 0 <= j < |ids| ==> ids[j] < |w|
    modifies y
    ensures y[..] == Reranked(coarse, ExactLogits(x, w), ids, blank)
  {
    hide Exact;
    ghost var e := ExactLogits(x, w);
    var ex: seq<real> := [];
    for j := 0 to |ids|
      invariant |ex| == j && forall m :: 0 <= m < j ==> ex[m] == e[ids[m]]
      invariant forall i :: 0 <= i < |coarse| ==> y[i] == Num(coarse[i])
    {
      var r := RerankExact(x, w[ids[j]]);
      ex := ex + [r];
    }
    if blank {
      for i := 0 to y.Length
        invariant forall m :: 0 <= m < i ==> y[m] == NegInf
        invariant forall m :: i <= m < y.Length ==> y[m] == Num(coarse[m])
      {
        y[i] := NegInf;
      }
    }
    for j := 0 to |ids|
      invariant y[..] == Reranked(coarse, e, ids[..j], blank)
    {
      y[ids[j]] := Num(ex[j]);
      assert ids[..j + 1] == ids[..j] + [ids[j]];
    }
    assert ids[..|ids|] == ids;
  }

  // ---------------------------------------------------------------------------
  // When the winner is the exact one
  // ---------------------------------------------------------------------------

  /** The one token with the largest exact logit. */
  predicate Winner(e: seq<real>, w: nat) {
    w < |e| && forall i :: 0 <= i < |e| && i != w ==> e[i] < e[w]
  }

  /** The row's argmax can only be w. */
  predicate Wins(out: seq<Logit>, w: nat) {
    w < |out| && out[w].Num? && forall i :: 0 <= i < |out| && i != w ==> Less(out[i], out[w])
  }

  /** Blanked, the row's winner is the exact one precisely when that one was rescored.  Otherwise a rescored winner wins
      precisely when no coarse logit left reaches it, and one that was not rescored when its own coarse logit still
      beats everything. */
  lemma WinnerIff(coarse: seq<real>, e: seq<real>, ids: seq<nat>, w: nat)
    requires |e| == |coarse| && Winner(e, w)
    ensures Wins(Reranked(coarse, e, ids, true), w) <==> w in ids
    ensures w in ids ==>
              (Wins(Reranked(coarse, e, ids, false), w) <==> forall i: nat :: i < |e| && i !in ids ==> coarse[i] < e[w])
    ensures w !in ids ==>
              (Wins(Reranked(coarse, e, ids, false), w) <==>
               forall i: nat :: i < |e| && i != w ==> (if i in ids then e[i] else coarse[i]) < coarse[w])
  {
    var open := Reranked(coarse, e, ids, false);
    forall i: nat | i < |e| && i != w ensures Less(open[i], open[w]) <==>
      (if i in ids then e[i] else coarse[i]) < (if w in ids then e[w] else coarse[w])
    {
    }
    if w in ids && Wins(open, w) {
      forall i: nat | i < |e| && i !in ids ensures coarse[i] < e[w] { assert Less(open[i], open[w]); }
    }
    if w !in ids && Wins(open, w) {
      forall i: nat | i < |e| && i != w ensures (if i in ids then e[i] else coarse[i]) < coarse[w] {
        assert Less(open[i], open[w]);
      }
    }
  }

  /** Without the blanking, being rescored is not needed to win: two tokens, the worse one rescored. */
  lemma UnrescoredCanWin()
    ensures Winner([0.0, 5.0], 1) && 1 !in [0] && Wins(Reranked([9.0, 8.0], [0.0, 5.0], [0], false), 1)
  {
    assert Reranked([9.0, 8.0], [0.0, 5.0], [0], false) == [Num(0.0), Num(8.0)];
  }

  /** The tokens whose exact logit comes within `gap` of w's. */
  function Close(e: seq<real>, w: nat, gap: real): set<nat>
    requires w < |e|
  {
    set i: nat | i < |e| && e[i] >= e[w] - gap
  }

  /** A token whose coarse logit reaches w's exact one less delta has few rivals. */
  lemma FewRivals(coarse: seq<real>, e: seq<real>, w: nat, delta: real, l: nat)
    requires |e| == |coarse| && w < |e| && l < |e|
    requires forall i :: 0 <= i < |e| ==> Near(coarse[i], e[i], delta)
    requires coarse[l] >= e[w] - delta
    ensures |Rivals(coarse, l)| < |Close(e, w, 2.0 * delta)|
  {
    var close := Close(e, w, 2.0 * delta);
    assert l in close;
    assert Rivals(coarse, l) <= close - {l};
    T.SubsetCardinality(Rivals(coarse, l), close - {l});
  }

  /** If the coarse logits are within delta of the exact ones, and no more tokens come within twice that of the winner
      than a block emits and the rerank takes, the winner is rescored and wins, blanked or not. */
  lemma MarginSuffices(coarse: seq<real>, e: seq<real>, bm: seq<Logit>, bi: seq<nat>, top: seq<nat>, w: nat,
                       delta: real, blank: bool)
    requires |e| == |coarse| && Candidates(coarse, Blocks(|coarse|), bm, bi) && T.IsTopK(bm, top) && Winner(e, w)
    requires forall i :: 0 <= i < |e| ==> Near(coarse[i], e[i], delta)
    requires |Close(e, w, 2.0 * delta)| <= Smaller(KCAND, |top|)
    ensures w in Chosen(bi, top) && Wins(Reranked(coarse, e, Chosen(bi, top), blank), w)
  {
    hide Rivals, Close, Reranked, Wins, Offered, Outdone, T.Descending;
    var ids := Chosen(bi, top);
    forall l: nat | l < |e| && coarse[l] >= e[w] - delta ensures l in ids {
      FewRivals(coarse, e, w, delta, l);
      CoarseTopIsRescored(coarse, bm, bi, top, l);
    }
    WinnerIff(coarse, e, ids, w);
    assert Near(coarse[w], e[w], delta);
  }

  /** What the kernel computes for every token. */
  function CoarseLogits(x: seq<real>, w: seq<seq<real>>): (y: seq<real>)
    requires |x| % (4 * GROUP) == 0 && forall i :: 0 <= i < |w| ==> |w[i]| == |x|
    ensures |y| == |w|
  {
    seq(|w|, i requires 0 <= i < |w| => Accumulated(x, QuantisedRow(w[i]), |x|, 4 * Groups(|x|)))
  }

  /** The draft head finds the exact argmax whenever at most min(KCAND, RERANK) tokens come within twice the largest
      slack of it, all of the weight's groups being in range. */
  lemma HeadFindsWinner(x: seq<real>, w: seq<seq<real>>, bm: seq<Logit>, bi: seq<nat>, top: seq<nat>, best: nat,
                        delta: real, blank: bool)
    requires |x| % (4 * GROUP) == 0
    requires forall i :: 0 <= i < |w| ==> |w[i]| == |x| && InRange(w[i]) && Slack(x, w[i], |x| / GROUP) <= delta
    requires var coarse := CoarseLogits(x, w); Candidates(coarse, Blocks(|w|), bm, bi) && T.IsTopK(bm, top)
    requires var e := ExactLogits(x, w); Winner(e, best) && |Close(e, best, 2.0 * delta)| <= Smaller(KCAND, |top|)
    ensures Wins(Reranked(CoarseLogits(x, w), ExactLogits(x, w), Chosen(bi, top), blank), best)
  {
    hide Candidates, T.IsTopK, InRange, Slack, Accumulated, Exact, QuantisedRow, Close, Winner, Reranked, Wins;
    var coarse, e := CoarseLogits(x, w), ExactLogits(x, w);
    forall i | 0 <= i < |e| ensures Near(coarse[i], e[i], delta) {
      CoarseNear(x, w[i], |x|);
    }
    MarginSuffices(coarse, e, bm, bi, top, best, delta, blank);
  }
}
