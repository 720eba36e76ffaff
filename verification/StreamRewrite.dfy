/** The FP8 residual stream (radiance_arnq.py): each all-reduce moves from the projection that produces a
    partial sum to the epilogue that consumes it, inside the layer or at the start of the next one.

    Tensors, quantised tensors and weights are left abstract.  A tensor distributed over the tensor-parallel
    ranks is a sequence with one entry per rank. */
module StreamRewrite {
  import opened Options

  // ---------------------------------------------------------------------------
  // What install() sees and what it decides
  // ---------------------------------------------------------------------------

  /** The properties of one decoder layer that the installer reads. */
  datatype Facts = Facts(
    layerScale: bool,     // a layer_scale branch is live
    sequenceParallel: bool, // a sequence-parallel (attention reduce-scatter) branch is live
    expertGate: bool,     // mlp.expert_gate is present
    linearAttention: bool,
    attnOurs: bool,       // qkv_proj is ours, or the GDN input projections were merged
    gateUpOurs: bool,
    rowOurs: bool,        // o_proj / out_proj
    rowHasBias: bool,
    rowReduces: bool,
    downOurs: bool,
    downHasBias: bool,
    downReduces: bool,
    downAligned: bool,    // input_size_per_partition is a multiple of 8
    normShapeOk: bool)    // the gated norm and its widths suit the fused norm-and-quant kernel
  {
    predicate ConsumersOk() {
      attnOurs && gateUpOurs
    }

    /** _gnq_ok found nothing to object to. */
    predicate NormQuantOk() {
      normShapeOk && rowOurs && !rowHasBias
    }

    predicate Special() {
      layerScale || sequenceParallel
    }

    predicate Skipped() {
      Special() || expertGate
    }
  }

  datatype Flags = Flags(fp8In: bool, fp8Mid: bool, rowReduces: bool, downReduces: bool, actFused: bool,
                         normFused: bool)

  predicate MidOn(f: Facts) {
    !f.Skipped() && f.ConsumersOk() && f.rowOurs && !f.rowHasBias && f.rowReduces
  }

  predicate DownOk(f: Facts, next: Facts) {
    f.downOurs && !f.downHasBias && f.downReduces && next.ConsumersOk() && !next.Special()
  }

  /** Layer i leaves its down_proj output unreduced. */
  predicate DownOn(fs: seq<Facts>, i: nat)
    requires i < |fs|
  {
    !fs[i].Skipped() && i + 1 < |fs| && DownOk(fs[i], fs[i + 1])
  }

  /** Layer i starts by finishing the previous layer's partial sum. */
  predicate InOn(fs: seq<Facts>, i: nat)
    requires i < |fs|
  {
    0 < i && DownOn(fs, i - 1) && !fs[i].Skipped()
  }

  function Installed(fs: seq<Facts>, i: nat, gnq: bool): Flags
    requires i < |fs|
  {
    var f := fs[i];
    Flags(InOn(fs, i), MidOn(f),
          f.rowReduces && !MidOn(f),
          f.downReduces && !DownOn(fs, i),
          !f.Skipped() && f.downOurs && f.downAligned,
          !f.Skipped() && gnq && f.linearAttention && f.NormQuantOk())
  }

  class Layer {
    const facts: Facts
    var fp8In: Option<bool>   // None while the attribute does not exist
    var fp8Mid: Option<bool>
    var rowReduces: bool
    var downReduces: bool
    var actFused: bool
    var normFused: bool
    var patched: bool         // forward replaced by _stream_forward

    constructor (f: Facts)
      ensures facts == f && Stock()
    {
      facts := f;
      fp8In, fp8Mid := None, None;
      rowReduces, downReduces := f.rowReduces, f.downReduces;
      actFused, normFused, patched := false, false, false;
    }

    predicate Stock()
      reads this
    {
      && fp8In.None? && fp8Mid.None? && rowReduces == facts.rowReduces && downReduces == facts.downReduces
      && !actFused && !normFused && !patched
    }

    predicate Carries(fl: Flags)
      reads this
    {
      && fp8In == Some(fl.fp8In) && fp8Mid == Some(fl.fp8Mid)
      && rowReduces == fl.rowReduces && downReduces == fl.downReduces
      && actFused == fl.actFused && normFused == fl.normFused
    }
  }

  function FactsOf(layers: seq<Layer>): (fs: seq<Facts>)
    ensures |fs| == |layers| && forall i :: 0 <= i < |layers| ==> fs[i] == layers[i].facts
  {
    seq(|layers|, i requires 0 <= i < |layers| => layers[i].facts)
  }

  predicate AllDistinct(layers: seq<Layer>) {
    forall i, j :: 0 <= i < j < |layers| ==> layers[i] != layers[j]
  }

  /** What is settled about layer j before the main loop looks at layer i. */
  ghost predicate Settled(fs: seq<Facts>, i: nat, j: nat, gnq: bool, l: Layer)
    requires i <= |fs| && j < |fs|
    reads l
  {
    if j < i then
      l.Carries(Installed(fs, j, gnq)) && l.patched
    else if j == i && 0 < i && DownOn(fs, i - 1) then
      && l.fp8In == Some(true) && l.fp8Mid.None?
      && l.rowReduces == fs[j].rowReduces && l.downReduces == fs[j].downReduces
      && !l.actFused && !l.normFused && !l.patched
    else l.Stock()
  }

  ghost predicate AllSettled(layers: seq<Layer>, i: nat, gnq: bool)
    requires i <= |layers|
    reads layers
  {
    forall j :: 0 <= j < |layers| ==> Settled(FactsOf(layers), i, j, gnq, layers[j])
  }

  /** The installer: nothing happens outside its guards; with only the GDN flag it fuses the norm and leaves
      every contract alone; otherwise every layer ends with exactly the flags of `Installed`. */
  method Install(layers: seq<Layer>, enabled: bool, gnq: bool, tpSize: nat, ppSize: nat, hasTaps: bool)
    requires AllDistinct(layers)
    requires forall l <- layers :: l.Stock()
    modifies layers
    ensures var fs := FactsOf(layers);
            if hasTaps || (enabled && (tpSize <= 1 || 1 < ppSize)) then forall l <- layers :: l.Stock()
            else if enabled then forall i :: 0 <= i < |layers| ==>
                layers[i].Carries(Installed(fs, i, gnq)) && layers[i].patched
            else forall l <- layers :: !l.patched && l.fp8In.None? && l.fp8Mid.None? && !l.actFused
                                       && l.rowReduces == l.facts.rowReduces && l.downReduces == l.facts.downReduces
                                       && l.normFused == (gnq && l.facts.linearAttention && l.facts.NormQuantOk())
  {
    if !enabled && !gnq { return; }
    if enabled && tpSize <= 1 { return; }
    if enabled && 1 < ppSize { return; }
    if hasTaps { return; }
    if !enabled {
      for i := 0 to |layers|
        invariant forall j :: i <= j < |layers| ==> layers[j].Stock()
        invariant forall j :: 0 <= j < i ==>
                    && !layers[j].patched && layers[j].fp8In.None? && layers[j].fp8Mid.None? && !layers[j].actFused
                    && layers[j].rowReduces == layers[j].facts.rowReduces &&
                         layers[j].downReduces == layers[j].facts.downReduces
                    && layers[j].normFused == (layers[j].facts.linearAttention && layers[j].facts.NormQuantOk())
      {
        if layers[i].facts.linearAttention && layers[i].facts.NormQuantOk() {
          layers[i].normFused := true;
        }
      }
      return;
    }
    for i := 0 to |layers|
      invariant AllSettled(layers, i, gnq)
    {
      InstallOne(layers, i, gnq);
    }
    // The closing pass over missing attributes finds none: every layer has both flags by now.
    forall j | 0 <= j < |layers| ensures layers[j].Carries(Installed(FactsOf(layers), j, gnq)) && layers[j].patched {
      assert Settled(FactsOf(layers), |layers|, j, gnq, layers[j]);
    }
  }

  predicate HandsOver(layer: Layer, next: Layer?) {
    !layer.facts.Skipped() && next != null && DownOk(layer.facts, next.facts)
  }

  predicate Untouched(l: Layer)
    reads l
  {
    && l.rowReduces == l.facts.rowReduces && l.downReduces == l.facts.downReduces
    && !l.actFused && !l.normFused && !l.patched
  }

  method LeaveStock(layer: Layer)
    requires Untouched(layer) && layer.facts.Skipped()
    modifies layer
    ensures layer.patched
    ensures layer.Carries(Flags(false, false, layer.facts.rowReduces, layer.facts.downReduces, false, false))
  {
    layer.fp8In, layer.fp8Mid, layer.patched := Some(false), Some(false), true;
  }

  /** The body of the main loop for a layer that is not skipped. */
  method Stream(layer: Layer, next: Layer?, gnq: bool)
    requires layer != next && Untouched(layer) && !layer.facts.Skipped()
    modifies layer, if next == null then {} else {next}
    ensures layer.patched
    ensures layer.Carries(Flags(old(layer.fp8In) != None && old(layer.fp8In.value), MidOn(layer.facts),
                                layer.facts.rowReduces && !MidOn(layer.facts),
                                layer.facts.downReduces && !HandsOver(layer, next),
                                layer.facts.downOurs && layer.facts.downAligned,
                                gnq && layer.facts.linearAttention && layer.facts.NormQuantOk()))
    ensures next != null ==>
              && next.fp8In == (if HandsOver(layer, next) then Some(true) else old(next.fp8In))
              && next.fp8Mid == old(next.fp8Mid) && (old(Untouched(next)) ==> Untouched(next))
  {
    ConfigureMid(layer);
    if next != null { ConfigureDown(layer, next); }
    ConfigureEpilogues(layer, gnq);
    layer.patched := true;
    if layer.fp8In.None? { layer.fp8In := Some(false); }
  }

  method ConfigureMid(layer: Layer)
    requires layer.rowReduces == layer.facts.rowReduces && !layer.facts.Skipped()
    modifies layer`rowReduces, layer`fp8Mid
    ensures layer.fp8Mid == Some(MidOn(layer.facts))
    ensures layer.rowReduces == (layer.facts.rowReduces && !MidOn(layer.facts))
  {
    var f := layer.facts;
    var midOk := f.ConsumersOk() && f.rowOurs && !f.rowHasBias && layer.rowReduces;
    if midOk { layer.rowReduces := false; }
    layer.fp8Mid := Some(midOk);
  }

  method ConfigureDown(layer: Layer, next: Layer)
    requires layer != next && layer.downReduces == layer.facts.downReduces
    modifies layer`downReduces, next`fp8In
    ensures var downOk := DownOk(layer.facts, next.facts);
            && layer.downReduces == (layer.facts.downReduces && !downOk)
            && next.fp8In == if downOk then Some(true) else old(next.fp8In)
    ensures layer.fp8In == old(layer.fp8In) && next.downReduces == old(next.downReduces)
  {
    var f := layer.facts;
    if f.downOurs && !f.downHasBias && layer.downReduces && next.facts.ConsumersOk() && !next.facts.Special() {
      layer.downReduces := false;
      next.fp8In := Some(true);
    }
  }

  method ConfigureEpilogues(layer: Layer, gnq: bool)
    requires !layer.actFused && !layer.normFused
    modifies layer`actFused, layer`normFused
    ensures layer.actFused == (layer.facts.downOurs && layer.facts.downAligned)
    ensures layer.normFused == (gnq && layer.facts.linearAttention && layer.facts.NormQuantOk())
  {
    var f := layer.facts;
    if f.downOurs && f.downAligned { layer.actFused := true; }
    if gnq && f.linearAttention && f.NormQuantOk() { layer.normFused := true; }
  }

  /** The layer about to be looked at carries nothing but what its predecessor may have set. */
  lemma SettledBefore(fs: seq<Facts>, i: nat, gnq: bool, l: Layer)
    requires i < |fs| && l.facts == fs[i] && Settled(fs, i, i, gnq, l)
    ensures Untouched(l) && l.fp8In == (if 0 < i && DownOn(fs, i - 1) then Some(true) else None)
  {
    hide DownOn;
  }

  lemma SettledSkipped(fs: seq<Facts>, i: nat, gnq: bool, l: Layer)
    requires i < |fs| && fs[i].Skipped() && l.patched
    requires l.Carries(Flags(false, false, fs[i].rowReduces, fs[i].downReduces, false, false))
    ensures Settled(fs, i + 1, i, gnq, l)
  {
    hide DownOk, Facts.ConsumersOk, Facts.NormQuantOk, Facts.Skipped;
  }

  lemma SettledStreamed(fs: seq<Facts>, i: nat, gnq: bool, l: Layer)
    requires i < |fs| && !fs[i].Skipped() && l.patched
    requires l.Carries(Flags(0 < i && DownOn(fs, i - 1), MidOn(fs[i]), fs[i].rowReduces && !MidOn(fs[i]),
                             fs[i].downReduces && !DownOn(fs, i), fs[i].downOurs && fs[i].downAligned,
                             gnq && fs[i].linearAttention && fs[i].NormQuantOk()))
    ensures Settled(fs, i + 1, i, gnq, l)
  {
    hide DownOn, MidOn, Facts.ConsumersOk, Facts.NormQuantOk, Facts.Skipped;
  }

  lemma SettledNext(fs: seq<Facts>, i: nat, gnq: bool, l: Layer)
    requires i + 1 < |fs| && l.facts == fs[i + 1] && Untouched(l) && l.fp8Mid.None?
    requires l.fp8In == if DownOn(fs, i) then Some(true) else None
    ensures Settled(fs, i + 1, i + 1, gnq, l)
  {
    hide DownOn;
  }

  lemma SettledElsewhere(fs: seq<Facts>, i: nat, j: nat, gnq: bool, l: Layer)
    requires i < |fs| && j < |fs| && j != i && j != i + 1 && Settled(fs, i, j, gnq, l)
    ensures Settled(fs, i + 1, j, gnq, l)
  {
    hide Installed;
  }

  lemma SettledAhead(fs: seq<Facts>, i: nat, gnq: bool, l: Layer)
    requires i + 1 < |fs| && l.facts == fs[i + 1] && Settled(fs, i, i + 1, gnq, l)
    ensures Untouched(l) && l.fp8In.None? && l.fp8Mid.None?
  {
  }

  /** The main loop's work on one layer and on its successor's input flag. */
  method InstallLayer(layer: Layer, next: Layer?, gnq: bool, ghost fs: seq<Facts>, ghost i: nat)
    requires i < |fs| && layer.facts == fs[i] && layer != next
    requires if next == null then i + 1 == |fs| else i + 1 < |fs| && next.facts == fs[i + 1]
    requires Settled(fs, i, i, gnq, layer) && (next != null ==> Settled(fs, i, i + 1, gnq, next))
    modifies layer, if next == null then {} else {next}
    ensures Settled(fs, i + 1, i, gnq, layer) && (next != null ==> Settled(fs, i + 1, i + 1, gnq, next))
  {
    hide DownOk, MidOn, Settled, Installed, InOn, Untouched, Layer.Carries, Layer.Stock;
    hide Facts.NormQuantOk, Facts.ConsumersOk, Facts.Skipped;
    SettledBefore(fs, i, gnq, layer);
    if next != null { SettledAhead(fs, i, gnq, next); }
    if layer.facts.Skipped() {
      LeaveStock(layer);
      SettledSkipped(fs, i, gnq, layer);
    } else {
      Stream(layer, next, gnq);
      SettledStreamed(fs, i, gnq, layer);
    }
    if next != null { SettledNext(fs, i, gnq, next); }
  }

  method InstallOne(layers: seq<Layer>, i: nat, gnq: bool)
    requires i < |layers| && AllDistinct(layers)
    requires AllSettled(layers, i, gnq)
    modifies layers[i], if i + 1 < |layers| then {layers[i + 1]} else {}
    ensures AllSettled(layers, i + 1, gnq)
  {
    hide Settled;
    ghost var fs := FactsOf(layers);
    InstallLayer(layers[i], if i + 1 < |layers| then layers[i + 1] else null, gnq, fs, i);
    forall j | 0 <= j < |layers| && j != i && j != i + 1 ensures Settled(fs, i + 1, j, gnq, layers[j]) {
      assert old(Settled(fs, i, j, gnq, layers[j]));
      SettledElsewhere(fs, i, j, gnq, layers[j]);
    }
  }

  // ---------------------------------------------------------------------------
  // What a layer computes
  // ---------------------------------------------------------------------------

  /** Operations shared by all layers. */
  datatype Ops<!T, !Q> = Ops(
    add: (T, T) -> T,
    scale: (T, T) -> T,      // a tensor times one plus a learned scale
    quant: T -> Q)

  /** One layer's weights.  The functions ending in Q are kernels over a quantised input, those ending in P
      are other linear methods over a plain input; the first argument is the rank. */
  datatype Weights<!T, !Q> = Weights(
    norm1: T -> T,
    norm2: T -> T,
    attnQ: (nat, Q) -> T, attnP: (nat, T) -> T,     // attention up to its gated norm, or to its output projection
    gdnNorm: T -> T,                                 // the gated norm as the fused norm-and-quant kernel computes it
    oddNorm: T -> T,                                 // the layer's own gated norm when its shape is another
    rowQ: (nat, Q) -> T, rowP: (nat, T) -> T, rowBias: T,
    gateUpQ: (nat, Q) -> T, gateUpP: (nat, T) -> T,
    act: T -> T,
    downQ: (nat, Q) -> T, downP: (nat, T) -> T, downBias: T,
    gate: (nat, T, T) -> T,                          // expert gate over the mlp's input and output
    attnScale: T, mlpScale: T)                       // learned scales of a layer_scale layer

  function Sum<T, Q>(ops: Ops<T, Q>, y: seq<T>): T
    requires y != []
  {
    if |y| == 1 then y[0] else ops.add(Sum(ops, y[..|y| - 1]), y[|y| - 1])
  }

  function AllReduce<T, Q>(ops: Ops<T, Q>, y: seq<T>): seq<T>
    requires y != []
  {
    seq(|y|, _ => Sum(ops, y))
  }

  function Each<A, B>(x: seq<A>, f: A -> B): seq<B> {
    seq(|x|, r requires 0 <= r < |x| => f(x[r]))
  }

  function EachRank<A, B>(x: seq<A>, f: (nat, A) -> B): seq<B> {
    seq(|x|, r requires 0 <= r < |x| => f(r, x[r]))
  }

  function Added<T, Q>(ops: Ops<T, Q>, x: seq<T>, y: seq<T>): seq<T>
    requires |x| == |y|
  {
    seq(|x|, r requires 0 <= r < |x| => ops.add(x[r], y[r]))
  }

  // The stock layer: every linear method takes a plain tensor, and a kernel of ours quantises it itself.

  function StockLinear<T, Q>(ops: Ops<T, Q>, ours: bool, q: (nat, Q) -> T, p: (nat, T) -> T, x: seq<T>): seq<T> {
    if ours then EachRank(Each(x, ops.quant), q) else EachRank(x, p)
  }

  /** A row-parallel projection adds its bias once, on rank 0, before the reduction. */
  function Biased<T, Q>(ops: Ops<T, Q>, bias: Option<T>, y: seq<T>): (z: seq<T>)
    requires y != []
    ensures |z| == |y|
  {
    if bias.None? then y else y[0 := ops.add(y[0], bias.value)]
  }

  function StockRow<T, Q>(ops: Ops<T, Q>, ours: bool, reduces: bool, q: (nat, Q) -> T, p: (nat, T) -> T,
                          bias: Option<T>, x: seq<T>): (z: seq<T>)
    requires x != []
    ensures |z| == |x|
  {
    var y := Biased(ops, bias, StockLinear(ops, ours, q, p, x));
    if reduces then AllReduce(ops, y) else y
  }

  function RowBias<T, Q>(w: Weights<T, Q>, f: Facts): Option<T> {
    if f.rowHasBias then Some(w.rowBias) else None
  }

  function DownBias<T, Q>(w: Weights<T, Q>, f: Facts): Option<T> {
    if f.downHasBias then Some(w.downBias) else None
  }

  /** The gated norm of a linear-attention layer; other layers have none. */
  function GatedNorm<T, Q>(w: Weights<T, Q>, f: Facts, core: seq<T>): (x: seq<T>)
    ensures |x| == |core|
  {
    if !f.linearAttention then core else Each(core, if f.normShapeOk then w.gdnNorm else w.oddNorm)
  }

  function StockMlp<T, Q>(ops: Ops<T, Q>, w: Weights<T, Q>, f: Facts, x: seq<T>): (y: seq<T>)
    requires x != []
    ensures |y| == |x|
  {
    var gu := StockLinear(ops, f.gateUpOurs, w.gateUpQ, w.gateUpP, x);
    var y := StockRow(ops, f.downOurs, f.downReduces, w.downQ, w.downP, DownBias(w, f), Each(gu, w.act));
    if f.expertGate then seq(|x|, r requires 0 <= r < |x| => w.gate(r, x[r], y[r])) else y
  }

  /** The hidden states and residual of one layer, on every rank. */
  type Pair<T> = (seq<T>, seq<T>)

  function StockAttention<T, Q>(ops: Ops<T, Q>, w: Weights<T, Q>, f: Facts, res: seq<T>): (attn: seq<T>)
    requires res != []
    ensures |attn| == |res|
  {
    StockRow(ops, f.rowOurs, f.rowReduces, w.rowQ, w.rowP, RowBias(w, f),
             GatedNorm(w, f, StockLinear(ops, f.attnOurs, w.attnQ, w.attnP, Each(res, w.norm1))))
  }

  /** What a layer_scale layer does to its attention and mlp outputs. */
  function Rescaled<T, Q>(ops: Ops<T, Q>, on: bool, x: seq<T>, scale: T): (y: seq<T>)
    ensures |y| == |x|
  {
    if on then seq(|x|, r requires 0 <= r < |x| => ops.scale(x[r], scale)) else x
  }

  function StockLayer<T, Q>(ops: Ops<T, Q>, w: Weights<T, Q>, f: Facts, hidden: seq<T>,
                            residual: Option<seq<T>>): (out: Pair<T>)
    requires hidden != [] && (residual.Some? ==> |residual.value| == |hidden|)
    ensures |out.0| == |hidden| && |out.1| == |hidden|
  {
    var res := if residual.None? then hidden else Added(ops, hidden, residual.value);
    var res2 := Added(ops, Rescaled(ops, f.layerScale, StockAttention(ops, w, f, res), w.attnScale), res);
    (Rescaled(ops, f.layerScale, StockMlp(ops, w, f, Each(res2, w.norm2)), w.mlpScale), res2)
  }

  // The streamed layer: a linear method may be handed an already quantised input.

  datatype Act<T, Q> = Plain(x: seq<T>) | Quantised(q: seq<Q>)

  function Ranks<T, Q>(x: Act<T, Q>): nat {
    match x case Plain(v) => |v| case Quantised(v) => |v|
  }

  /** None when a quantised input reaches a linear method that cannot take it. */
  function Linear<T, Q>(ops: Ops<T, Q>, ours: bool, q: (nat, Q) -> T, p: (nat, T) -> T, x: Act<T, Q>): Option<seq<T>> {
    match x
    case Plain(v) => Some(if ours then EachRank(Each(v, ops.quant), q) else EachRank(v, p))
    case Quantised(v) => if ours then Some(EachRank(v, q)) else None
  }

  function Reduced<T, Q>(ops: Ops<T, Q>, reduces: bool, y: Option<seq<T>>): Option<seq<T>>
    requires y.Some? ==> y.value != []
  {
    if y.Some? && reduces then Some(AllReduce(ops, y.value)) else y
  }

  /** ar_add_rms_quant: all-reduce, residual add, norm and quantisation in one op. */
  function Epilogue<T, Q>(ops: Ops<T, Q>, norm: T -> T, y: seq<T>, residual: seq<T>): (Act<T, Q>, seq<T>)
    requires y != [] && |residual| == |y|
  {
    var res := Added(ops, AllReduce(ops, y), residual);
    (Quantised(Each(Each(res, norm), ops.quant)), res)
  }

  function WithBias<T, Q>(ops: Ops<T, Q>, bias: Option<T>, y: Option<seq<T>>): (z: Option<seq<T>>)
    requires y.Some? ==> y.value != []
    ensures z.Some? <==> y.Some?
    ensures z.Some? ==> |z.value| == |y.value|
  {
    if y.None? then None else Some(Biased(ops, bias, y.value))
  }

  /** The down projection's product: the fused activation hands it codes, eight at a time. */
  function DownInput<T, Q>(ops: Ops<T, Q>, w: Weights<T, Q>, f: Facts, fl: Flags, a: seq<T>): (y: Option<seq<T>>)
    ensures y.Some? ==> |y.value| == |a|
  {
    if !fl.actFused then Linear(ops, f.downOurs, w.downQ, w.downP, Plain(a))
    else if !f.downAligned then None
    else Linear(ops, f.downOurs, w.downQ, w.downP, Quantised(Each(a, ops.quant)))
  }

  /** The output projection.  The fused form computes one kind of gated norm and never adds the bias. */
  function RowOutput<T, Q>(ops: Ops<T, Q>, w: Weights<T, Q>, f: Facts, fl: Flags, core: seq<T>): (y: Option<seq<T>>)
    requires core != []
    ensures y.Some? ==> |y.value| == |core|
  {
    if fl.normFused then Linear(ops, f.rowOurs, w.rowQ, w.rowP, Quantised(Each(Each(core, w.gdnNorm), ops.quant)))
    else WithBias(ops, RowBias(w, f), Linear(ops, f.rowOurs, w.rowQ, w.rowP, Plain(GatedNorm(w, f, core))))
  }

  function StreamMlp<T, Q>(ops: Ops<T, Q>, w: Weights<T, Q>, f: Facts, fl: Flags, x: Act<T, Q>): (y: Option<seq<T>>)
    requires Ranks(x) != 0
    ensures y.Some? ==> |y.value| == Ranks(x)
  {
    var gu := Linear(ops, f.gateUpOurs, w.gateUpQ, w.gateUpP, x);
    if gu.None? then None
    else
      var a := Each(gu.value, w.act);
      var y := Reduced(ops, fl.downReduces, WithBias(ops, DownBias(w, f), DownInput(ops, w, f, fl, a)));
      if !f.expertGate || y.None? then y
      else if x.Quantised? then None
      else Some(seq(|x.x|, r requires 0 <= r < |x.x| => w.gate(r, x.x[r], y.value[r])))
  }

  /** Up to the attention's output projection: that output, partial or reduced, and the residual before it. */
  function StreamAttention<T, Q>(ops: Ops<T, Q>, w: Weights<T, Q>, f: Facts, fl: Flags, hidden: seq<T>,
                                 residual: Option<seq<T>>): (out: Option<Pair<T>>)
    requires hidden != [] && (residual.Some? ==> |residual.value| == |hidden|)
    ensures out.Some? ==> |out.value.0| == |hidden| && |out.value.1| == |hidden|
  {
    var (hs, res) :=
      if residual.Some? && fl.fp8In then Epilogue(ops, w.norm1, hidden, residual.value)
      else
        var r := if residual.None? then hidden else Added(ops, hidden, residual.value);
        (Plain(Each(r, w.norm1)), r);
    var core := Linear(ops, f.attnOurs, w.attnQ, w.attnP, hs);
    if core.None? then None
    else
      var attn := Reduced(ops, fl.rowReduces, RowOutput(ops, w, f, fl, core.value));
      if attn.None? then None else Some((attn.value, res))
  }

  function StreamLayer<T, Q>(ops: Ops<T, Q>, w: Weights<T, Q>, f: Facts, fl: Flags, hidden: seq<T>,
                             residual: Option<seq<T>>): (out: Option<Pair<T>>)
    requires hidden != [] && (residual.Some? ==> |residual.value| == |hidden|)
    ensures out.Some? ==> |out.value.0| == |hidden| && |out.value.1| == |hidden|
  {
    var a := StreamAttention(ops, w, f, fl, hidden, residual);
    if a.None? then None
    else
      var (hs2, res2) :=
        if fl.fp8Mid then Epilogue(ops, w.norm2, a.value.0, a.value.1)
        else var r := Added(ops, a.value.0, a.value.1); (Plain(Each(r, w.norm2)), r);
      var y := StreamMlp(ops, w, f, fl, hs2);
      if y.None? then None else Some((y.value, res2))
  }

  /** One set of weights a layer, and no sequence-parallel branch is live: its code is not part of the model. */
  predicate Fits<T, Q>(fs: seq<Facts>, ws: seq<Weights<T, Q>>) {
    |ws| == |fs| && forall f <- fs :: !f.sequenceParallel
  }

  /** The stock decoder after its first n layers: hidden states, and a residual once there has been a layer. */
  function StockRun<T, Q>(ops: Ops<T, Q>, ws: seq<Weights<T, Q>>, fs: seq<Facts>, x: seq<T>,
                          n: nat): (r: (seq<T>, Option<seq<T>>))
    requires n <= |fs| && Fits(fs, ws) && x != []
    ensures |r.0| == |x| && (r.1.Some? <==> 0 < n) && (r.1.Some? ==> |r.1.value| == |x|)
  {
    if n == 0 then (x, None)
    else
      var (h, r) := StockRun(ops, ws, fs, x, n - 1);
      var out := StockLayer(ops, ws[n - 1], fs[n - 1], h, r);
      (out.0, Some(out.1))
  }

  function StreamRun<T, Q>(ops: Ops<T, Q>, ws: seq<Weights<T, Q>>, fs: seq<Facts>, gnq: bool, x: seq<T>,
                           n: nat): (r: Option<(seq<T>, Option<seq<T>>)>)
    requires n <= |fs| && Fits(fs, ws) && x != []
    ensures r.Some? ==>
            |r.value.0| == |x| && (r.value.1.Some? <==> 0 < n) && (r.value.1.Some? ==> |r.value.1.value| == |x|)
  {
    if n == 0 then Some((x, None))
    else
      var before := StreamRun(ops, ws, fs, gnq, x, n - 1);
      if before.None? then None
      else
        var out := StreamLayer(ops, ws[n - 1], fs[n - 1], Installed(fs, n - 1, gnq), before.value.0, before.value.1);
        if out.None? then None else Some((out.value.0, Some(out.value.1)))
  }

  // ---------------------------------------------------------------------------
  // The rewrite preserves meaning exactly on safe layer lists
  // ---------------------------------------------------------------------------

  /** No layer_scale branch is live, and no expert-gate layer follows a layer that leaves its sum unreduced. */
  predicate Safe(fs: seq<Facts>) {
    forall i :: 0 <= i < |fs| ==> !fs[i].layerScale && (0 < i && fs[i].expertGate ==> !DownOn(fs, i - 1))
  }

  /** The mlp half: fed with the epilogue's tuple or with the plain norm, it agrees with the stock mlp up to
      the all-reduce it leaves undone. */
  lemma MlpSimulates<T, Q>(ops: Ops<T, Q>, w: Weights<T, Q>, f: Facts, fl: Flags, x: seq<T>, a: Act<T, Q>)
    requires x != []
    requires a == Plain(x) || (a == Quantised(Each(x, ops.quant)) && f.gateUpOurs && !f.expertGate)
    requires fl.actFused ==> f.downOurs && f.downAligned
    requires fl.downReduces != f.downReduces ==> f.downReduces && !f.expertGate
    ensures var y := StreamMlp(ops, w, f, fl, a);
            y.Some? && StockMlp(ops, w, f, x) == if fl.downReduces != f.downReduces then AllReduce(ops, y.value)
                else y.value
  {
  }

  lemma AttentionSimulates<T, Q>(ops: Ops<T, Q>, w: Weights<T, Q>, f: Facts, fl: Flags, h: seq<T>, hs: seq<T>,
                                 r: Option<seq<T>>)
    requires hs != [] && |h| == |hs| && (r.Some? ==> |r.value| == |h|)
    requires h == if fl.fp8In then AllReduce(ops, hs) else hs
    requires fl.fp8In ==> r.Some? && f.attnOurs
    requires fl.rowReduces == (f.rowReduces && !fl.fp8Mid) && (fl.fp8Mid ==> f.rowReduces)
    requires fl.normFused ==> f.linearAttention && f.NormQuantOk()
    ensures var res := if r.None? then h else Added(ops, h, r.value);
            var attn := StockAttention(ops, w, f, res);
            var a := StreamAttention(ops, w, f, fl, hs, r);
            a.Some? && a.value.1 == res && attn == if fl.fp8Mid then AllReduce(ops, a.value.0) else a.value.0
  {
    var res := if r.None? then h else Added(ops, h, r.value);
    var core := StockLinear(ops, f.attnOurs, w.attnQ, w.attnP, Each(res, w.norm1));
    RowSimulates(ops, w, f, fl, core);
    hide RowOutput, StockRow, GatedNorm;
  }

  lemma RowSimulates<T, Q>(ops: Ops<T, Q>, w: Weights<T, Q>, f: Facts, fl: Flags, core: seq<T>)
    requires core != []
    requires fl.rowReduces == (f.rowReduces && !fl.fp8Mid) && (fl.fp8Mid ==> f.rowReduces)
    requires fl.normFused ==> f.linearAttention && f.NormQuantOk()
    ensures var y := RowOutput(ops, w, f, fl, core);
            var attn := StockRow(ops, f.rowOurs, f.rowReduces, w.rowQ, w.rowP, RowBias(w, f), GatedNorm(w, f, core));
            && y.Some?
            && (if f.rowReduces then AllReduce(ops, y.value) else y.value) == attn
  {
    if fl.normFused { EachTwice(ops, w, f); }
  }

  lemma EachTwice<T, Q>(ops: Ops<T, Q>, w: Weights<T, Q>, f: Facts)
    requires f.linearAttention && f.NormQuantOk()
    ensures forall core: seq<T> :: GatedNorm(w, f, core) == Each(core, w.gdnNorm)
    ensures RowBias(w, f).None?
  {
  }

  lemma LayerSimulates<T, Q>(ops: Ops<T, Q>, w: Weights<T, Q>, f: Facts, fl: Flags, h: seq<T>, hs: seq<T>,
                             r: Option<seq<T>>)
    requires hs != [] && |h| == |hs| && (r.Some? ==> |r.value| == |h|)
    requires h == if fl.fp8In then AllReduce(ops, hs) else hs
    requires !f.layerScale && (fl.fp8In ==> r.Some? && f.attnOurs)
    requires fl.rowReduces == (f.rowReduces && !fl.fp8Mid)
    requires fl.fp8Mid ==> f.rowReduces && f.gateUpOurs && !f.expertGate
    requires fl.normFused ==> f.linearAttention && f.NormQuantOk()
    requires fl.actFused ==> f.downOurs && f.downAligned
    requires fl.downReduces != f.downReduces ==> f.downReduces && !f.expertGate
    ensures var out := StreamLayer(ops, w, f, fl, hs, r);
            var stock := StockLayer(ops, w, f, h, r);
            && out.Some? && out.value.1 == stock.1
            && stock.0 == if fl.downReduces != f.downReduces then AllReduce(ops, out.value.0) else out.value.0
  {
    hide StreamMlp, StockMlp, StreamAttention, StockAttention;
    AttentionSimulates(ops, w, f, fl, h, hs, r);
    var res := if r.None? then h else Added(ops, h, r.value);
    var x := Each(Added(ops, StockAttention(ops, w, f, res), res), w.norm2);
    MlpSimulates(ops, w, f, fl, x, if fl.fp8Mid then Quantised(Each(x, ops.quant)) else Plain(x));
  }

  lemma InstalledFits(fs: seq<Facts>, i: nat, gnq: bool)
    requires i < |fs| && Safe(fs) && !fs[i].sequenceParallel
    ensures var f, fl := fs[i], Installed(fs, i, gnq);
            && !f.layerScale && (fl.fp8In ==> f.attnOurs)
            && fl.rowReduces == (f.rowReduces && !fl.fp8Mid)
            && (fl.fp8Mid ==> f.rowReduces && f.gateUpOurs && !f.expertGate)
            && (fl.normFused ==> f.linearAttention && f.NormQuantOk()) && (fl.actFused ==> f.downOurs && f.downAligned)
            && (fl.downReduces != f.downReduces ==> f.downReduces && !f.expertGate)
            && (fl.downReduces != f.downReduces <==> DownOn(fs, i))
            && (fl.fp8In <==> 0 < i && DownOn(fs, i - 1))
  {
  }

  /** The flags, from the layers' own properties alone.  The attention side is streamed exactly when the layer is
      ordinary and its consumers and output projection are the kernel's, unbiased and reducing; a down projection hands
      its partial sum over exactly when there is a next layer, whose consumers are the kernel's and which is neither
      layer_scale nor sequence-parallel, and the next layer then takes it unless it is an expert-gate layer. */
  lemma FlagsFromFacts(fs: seq<Facts>, i: nat, gnq: bool)
    requires i < |fs|
    ensures var f, fl := fs[i], Installed(fs, i, gnq);
            && (fl.fp8Mid <==>
                 !f.layerScale && !f.sequenceParallel && !f.expertGate && f.attnOurs && f.gateUpOurs
                 && f.rowOurs && !f.rowHasBias && f.rowReduces)
            && (fl.rowReduces <==> f.rowReduces && !fl.fp8Mid)
            && (f.downReduces && !fl.downReduces <==>
                 !f.layerScale && !f.sequenceParallel && !f.expertGate && f.downOurs && !f.downHasBias && f.downReduces
                 && i + 1 < |fs| && fs[i + 1].attnOurs && fs[i + 1].gateUpOurs
                 && !fs[i + 1].layerScale && !fs[i + 1].sequenceParallel)
            && (fl.downReduces ==> f.downReduces)
            && (i + 1 < |fs| ==>
                 (Installed(fs, i + 1, gnq).fp8In <==> f.downReduces && !fl.downReduces && !fs[i + 1].expertGate))
            && (fl.actFused <==>
                 !f.layerScale && !f.sequenceParallel && !f.expertGate && f.downOurs && f.downAligned)
            && (fl.normFused <==>
                 gnq && !f.layerScale && !f.sequenceParallel && !f.expertGate && f.linearAttention
                 && f.normShapeOk && f.rowOurs && !f.rowHasBias)
    ensures i == 0 ==> !Installed(fs, i, gnq).fp8In
  {
  }

  /** Fusing only the gated norms, which leaves every reduction alone, changes nothing in any layer. */
  lemma NormOnlySimulates<T, Q>(ops: Ops<T, Q>, w: Weights<T, Q>, f: Facts, gnq: bool, h: seq<T>, r: Option<seq<T>>)
    requires h != [] && (r.Some? ==> |r.value| == |h|) && !f.layerScale
    ensures var fl := Flags(false, false, f.rowReduces, f.downReduces, false,
                            gnq && f.linearAttention && f.NormQuantOk());
            StreamLayer(ops, w, f, fl, h, r) == Some(StockLayer(ops, w, f, h, r))
  {
    hide StreamLayer, StockLayer;
    LayerSimulates(ops, w, f, Flags(false, false, f.rowReduces, f.downReduces, false,
                                    gnq && f.linearAttention && f.NormQuantOk()), h, h, r);
  }

  /** After n layers the residuals agree, and the stock hidden states are the streamed ones, all-reduced if
      layer n - 1 left them partial. */
  ghost predicate Related<T, Q>(ops: Ops<T, Q>, fs: seq<Facts>, n: nat, a: Option<(seq<T>, Option<seq<T>>)>,
                                b: (seq<T>, Option<seq<T>>))
    requires n <= |fs|
  {
    && a.Some? && a.value.0 != [] && a.value.1 == b.1
    && b.0 == if 0 < n && DownOn(fs, n - 1) then AllReduce(ops, a.value.0) else a.value.0
  }

  lemma StepSimulates<T, Q>(ops: Ops<T, Q>, ws: seq<Weights<T, Q>>, fs: seq<Facts>, gnq: bool, x: seq<T>, n: nat)
    requires 0 < n <= |fs| && Fits(fs, ws) && x != [] && Safe(fs)
    requires Related(ops, fs, n - 1, StreamRun(ops, ws, fs, gnq, x, n - 1), StockRun(ops, ws, fs, x, n - 1))
    ensures Related(ops, fs, n, StreamRun(ops, ws, fs, gnq, x, n), StockRun(ops, ws, fs, x, n))
  {
    hide StreamLayer, StockLayer, Safe, DownOn, Installed, AllReduce, MidOn;
    var a := StreamRun(ops, ws, fs, gnq, x, n - 1);
    var b := StockRun(ops, ws, fs, x, n - 1);
    InstalledFits(fs, n - 1, gnq);
    LayerSimulates(ops, ws[n - 1], fs[n - 1], Installed(fs, n - 1, gnq), b.0, a.value.0, b.1);
  }

  lemma {:induction false} RunsSimulate<T, Q>(ops: Ops<T, Q>, ws: seq<Weights<T, Q>>, fs: seq<Facts>, gnq: bool,
                                              x: seq<T>, n: nat)
    requires n <= |fs| && Fits(fs, ws) && x != [] && Safe(fs)
    ensures Related(ops, fs, n, StreamRun(ops, ws, fs, gnq, x, n), StockRun(ops, ws, fs, x, n))
  {
    hide StreamLayer, StockLayer, Safe, DownOn, Installed, AllReduce, MidOn, Fits;
    if n != 0 {
      hide StreamRun, StockRun, Related;
      RunsSimulate(ops, ws, fs, gnq, x, n - 1);
      StepSimulates(ops, ws, fs, gnq, x, n);
    }
  }

  /** On a safe layer list the streamed decoder computes the stock decoder's hidden states and residual on
      every rank: whatever the layers compute, each partial sum is reduced once. */
  lemma StreamEqualsStock<T, Q>(ops: Ops<T, Q>, ws: seq<Weights<T, Q>>, fs: seq<Facts>, gnq: bool, x: seq<T>)
    requires Fits(fs, ws) && x != [] && Safe(fs)
    ensures StreamRun(ops, ws, fs, gnq, x, |fs|) == Some(StockRun(ops, ws, fs, x, |fs|))
  {
    RunsSimulate(ops, ws, fs, gnq, x, |fs|);
  }

  // A layer list that is not safe: integer tensors on which the two decoders differ.

  const INTS: Ops<int, int> := Ops((a, b) => a + b, (a, s) => a * (s + 1), a => a)

  /** A layer whose down projection puts out `down` on every rank and which is otherwise silent; `scale` is its
      learned mlp scale. */
  function Quiet(down: int, scale: int): Weights<int, int> {
    Weights(_ => 0, _ => 0, (_, _) => 0, (_, _) => 0, _ => 0, _ => 0, (_, _) => 0, (_, _) => 0, 0,
            (_, _) => 0, (_, _) => 0, _ => 0, (_, _) => down, (_, _) => down, 0, (_, _, y) => y, 0, scale)
  }

  function Const(tp: nat, v: int): (c: seq<int>)
    ensures |c| == tp && forall r :: 0 <= r < tp ==> c[r] == v
  {
    seq(tp, _ => v)
  }

  lemma {:induction false} SumConst(tp: nat, v: int)
    requires 0 < tp
    ensures Sum(INTS, Const(tp, v)) == tp * v
  {
    if tp != 1 {
      assert Const(tp, v)[..tp - 1] == Const(tp - 1, v);
      SumConst(tp - 1, v);
    }
  }

  lemma AllReduceConst(tp: nat, v: int)
    requires 0 < tp
    ensures AllReduce(INTS, Const(tp, v)) == Const(tp, tp * v)
  {
    SumConst(tp, v);
  }

  lemma AddedConst(tp: nat, a: int, b: int)
    ensures Added(INTS, Const(tp, a), Const(tp, b)) == Const(tp, a + b)
  {
  }

  /** What a projection that outputs v on every rank returns. */
  function Out(reduces: bool, tp: nat, v: int): int {
    if reduces then tp * v else v
  }

  ghost predicate Always(f: (nat, int) -> int, v: int) {
    forall r: nat, x: int :: f(r, x) == v
  }

  lemma ConstLinear(ours: bool, q: (nat, int) -> int, p: (nat, int) -> int, x: Act<int, int>, v: int)
    requires Always(q, v) && Always(p, v)
    ensures var y := Linear(INTS, ours, q, p, x); y.Some? ==> y.value == Const(Ranks(x), v)
    ensures x.Plain? ==> Linear(INTS, ours, q, p, x) == Some(StockLinear(INTS, ours, q, p, x.x))
  {
    match x {
      case Plain(t) => EachRankConst(Each(t, INTS.quant), q, v); EachRankConst(t, p, v);
      case Quantised(t) => EachRankConst(t, q, v);
    }
  }

  lemma EachRankConst(x: seq<int>, f: (nat, int) -> int, v: int)
    requires Always(f, v)
    ensures EachRank(x, f) == Const(|x|, v)
  {
    forall r: nat | r < |x| ensures EachRank(x, f)[r] == v {
      var t := x[r];
      assert f(r, t) == v;
    }
  }

  lemma NoBias(bias: Option<int>, tp: nat, v: int)
    requires 0 < tp && (bias.Some? ==> bias.value == 0)
    ensures Biased(INTS, bias, Const(tp, v)) == Const(tp, v)
  {
  }

  lemma ConstReduced(reduces: bool, tp: nat, v: int)
    requires 0 < tp
    ensures Reduced(INTS, reduces, Some(Const(tp, v))) == Some(Const(tp, Out(reduces, tp, v)))
  {
    AllReduceConst(tp, v);
  }

  lemma ConstRow(ours: bool, reduces: bool, q: (nat, int) -> int, p: (nat, int) -> int, bias: Option<int>, x: seq<int>,
                 v: int)
    requires x != [] && Always(q, v) && Always(p, v) && (bias.Some? ==> bias.value == 0)
    ensures StockRow(INTS, ours, reduces, q, p, bias, x) == Const(|x|, Out(reduces, |x|, v))
  {
    AllReduceConst(|x|, v);
    ConstLinear(ours, q, p, Plain(x), v);
    NoBias(bias, |x|, v);
    hide Linear, StockLinear, AllReduce, Biased;
  }

  lemma ConstBiased(ours: bool, q: (nat, int) -> int, p: (nat, int) -> int, bias: Option<int>, x: Act<int, int>, v: int)
    requires Ranks(x) != 0 && Always(q, v) && Always(p, v) && (bias.Some? ==> bias.value == 0)
    ensures var y := Linear(INTS, ours, q, p, x);
            y.Some? ==> y.value == Const(Ranks(x), v) && WithBias(INTS, bias, y) == y
  {
    ConstLinear(ours, q, p, x, v);
    NoBias(bias, Ranks(x), v);
  }

  /** What a layer_scale layer makes of an output. */
  function Gain(f: Facts, scale: int, v: int): int {
    if f.layerScale then v * (scale + 1) else v
  }

  lemma RescaledConst(on: bool, tp: nat, v: int, scale: int)
    ensures Rescaled(INTS, on, Const(tp, v), scale) == Const(tp, if on then v * (scale + 1) else v)
  {
  }

  function ConstResidual(tp: nat, r: Option<int>): Option<seq<int>> {
    if r.None? then None else Some(Const(tp, r.value))
  }

  function Base(r: Option<int>): int {
    if r.None? then 0 else r.value
  }

  lemma QuietStockLayer(f: Facts, down: int, scale: int, tp: nat, a: int, r: Option<int>)
    requires 0 < tp
    ensures StockLayer(INTS, Quiet(down, scale), f, Const(tp, a), ConstResidual(tp, r))
         == (Const(tp, Gain(f, scale, Out(f.downReduces, tp, down))), Const(tp, a + Base(r)))
  {
    hide StockMlp, StockAttention, Rescaled;
    AddedConst(tp, a, Base(r));
    var w := Quiet(down, scale);
    var res := Const(tp, a + Base(r));
    QuietStockAttention(f, down, scale, res);
    RescaledConst(f.layerScale, tp, 0, 0);
    AddedConst(tp, 0, a + Base(r));
    QuietStockMlp(f, down, scale, Each(res, w.norm2));
    RescaledConst(f.layerScale, tp, Out(f.downReduces, tp, down), scale);
  }

  lemma QuietStockAttention(f: Facts, down: int, scale: int, res: seq<int>)
    requires res != []
    ensures StockAttention(INTS, Quiet(down, scale), f, res) == Const(|res|, 0)
  {
    hide StockRow;
    var w := Quiet(down, scale);
    var core := GatedNorm(w, f, StockLinear(INTS, f.attnOurs, w.attnQ, w.attnP, Each(res, w.norm1)));
    ConstRow(f.rowOurs, f.rowReduces, w.rowQ, w.rowP, RowBias(w, f), core, 0);
    assert Out(f.rowReduces, |res|, 0) == 0;
  }

  lemma QuietStockMlp(f: Facts, down: int, scale: int, x: seq<int>)
    requires x != []
    ensures StockMlp(INTS, Quiet(down, scale), f, x) == Const(|x|, Out(f.downReduces, |x|, down))
  {
    var w := Quiet(down, scale);
    var gu := StockLinear(INTS, f.gateUpOurs, w.gateUpQ, w.gateUpP, x);
    ConstRow(f.downOurs, f.downReduces, w.downQ, w.downP, DownBias(w, f), Each(gu, w.act), down);
  }

  lemma QuietStreamLayer(f: Facts, fl: Flags, down: int, scale: int, tp: nat, a: int, r: Option<int>)
    requires 0 < tp
    ensures var out := StreamLayer(INTS, Quiet(down, scale), f, fl, Const(tp, a), ConstResidual(tp, r));
            out.Some? ==> out.value == (Const(tp, Out(fl.downReduces, tp, down)),
                                        Const(tp, Out(r.Some? && fl.fp8In, tp, a) + Base(r)))
  {
    hide StreamAttention, StreamMlp;
    QuietStreamAttention(f, fl, down, scale, tp, a, r);
    var w := Quiet(down, scale);
    var at := StreamAttention(INTS, w, f, fl, Const(tp, a), ConstResidual(tp, r));
    if at.Some? {
      AllReduceConst(tp, 0);
      AddedConst(tp, 0, Out(r.Some? && fl.fp8In, tp, a) + Base(r));
      var (hs2, res2) := if fl.fp8Mid then Epilogue(INTS, w.norm2, at.value.0, at.value.1)
                         else var r := Added(INTS, at.value.0, at.value.1); (Plain(Each(r, w.norm2)), r);
      QuietStreamMlp(f, fl, down, scale, hs2);
    }
  }

  lemma QuietStreamAttention(f: Facts, fl: Flags, down: int, scale: int, tp: nat, a: int, r: Option<int>)
    requires 0 < tp
    ensures var out := StreamAttention(INTS, Quiet(down, scale), f, fl, Const(tp, a), ConstResidual(tp, r));
            out.Some? ==> out.value == (Const(tp, 0), Const(tp, Out(r.Some? && fl.fp8In, tp, a) + Base(r)))
  {
    hide RowOutput;
    var w := Quiet(down, scale);
    AllReduceConst(tp, a);
    AddedConst(tp, Out(r.Some? && fl.fp8In, tp, a), Base(r));
    var hs := if r.Some? && fl.fp8In then Epilogue(INTS, w.norm1, Const(tp, a), Const(tp, r.value)).0
              else Plain(Each(if r.None? then Const(tp, a)
                  else Added(INTS, Const(tp, a), Const(tp, r.value)), w.norm1));
    var core := Linear(INTS, f.attnOurs, w.attnQ, w.attnP, hs);
    if core.Some? {
      QuietRowOutput(f, fl, down, scale, core.value);
      ConstReduced(fl.rowReduces, |core.value|, 0);
      assert Out(fl.rowReduces, |core.value|, 0) == 0;
    }
  }

  lemma QuietRowOutput(f: Facts, fl: Flags, down: int, scale: int, core: seq<int>)
    requires core != []
    ensures var y := RowOutput(INTS, Quiet(down, scale), f, fl, core); y.Some? ==> y.value == Const(|core|, 0)
  {
    var w := Quiet(down, scale);
    ConstBiased(f.rowOurs, w.rowQ, w.rowP, RowBias(w, f), Plain(GatedNorm(w, f, core)), 0);
    ConstBiased(f.rowOurs, w.rowQ, w.rowP, None, Quantised(Each(Each(core, w.gdnNorm), INTS.quant)), 0);
  }

  lemma QuietDownOutput(f: Facts, fl: Flags, down: int, scale: int, a: seq<int>)
    requires a != []
    ensures var w := Quiet(down, scale); var y := WithBias(INTS, DownBias(w, f), DownInput(INTS, w, f, fl, a));
            y.Some? ==> y.value == Const(|a|, down)
  {
    var w := Quiet(down, scale);
    ConstBiased(f.downOurs, w.downQ, w.downP, DownBias(w, f), Plain(a), down);
    ConstBiased(f.downOurs, w.downQ, w.downP, DownBias(w, f), Quantised(Each(a, INTS.quant)), down);
  }

  lemma QuietStreamMlp(f: Facts, fl: Flags, down: int, scale: int, x: Act<int, int>)
    requires Ranks(x) != 0
    ensures var y := StreamMlp(INTS, Quiet(down, scale), f, fl, x);
            y.Some? ==> y.value == Const(Ranks(x), Out(fl.downReduces, Ranks(x), down))
  {
    var w := Quiet(down, scale);
    var gu := Linear(INTS, f.gateUpOurs, w.gateUpQ, w.gateUpP, x);
    if gu.Some? {
      var a := Each(gu.value, w.act);
      QuietDownOutput(f, fl, down, scale, a);
      ConstReduced(fl.downReduces, Ranks(x), down);
    }
  }

  /** Every layer quiet but layer c. */
  function OneLoud(n: nat, c: nat, down: int, scale: int): seq<Weights<int, int>> {
    seq(n, m => if m == c then Quiet(down, scale) else Quiet(0, 0))
  }

  function Pulse(c: nat, v: int, n: nat): int {
    if n == c + 1 then v else 0
  }

  function Carried(c: nat, v: int, n: nat): Option<int> {
    if n == 0 then None else Some(if n > c + 1 then v else 0)
  }

  lemma {:induction false} LoudStock(fs: seq<Facts>, c: nat, down: int, scale: int, tp: nat, n: nat)
    requires n <= |fs| && c < |fs| && 0 < tp
    requires Fits(fs, OneLoud(|fs|, c, down, scale))
    ensures var v := Gain(fs[c], scale, Out(fs[c].downReduces, tp, down));
            (StockRun(INTS, OneLoud(|fs|, c, down, scale), fs, Const(tp, 0), n)
             == (Const(tp, Pulse(c, v, n)), ConstResidual(tp, Carried(c, v, n))))
  {
    hide StockLayer;
    if n != 0 {
      LoudStock(fs, c, down, scale, tp, n - 1);
      var v := Gain(fs[c], scale, Out(fs[c].downReduces, tp, down));
      var w := OneLoud(|fs|, c, down, scale)[n - 1];
      QuietStockLayer(fs[n - 1], if n - 1 == c then down else 0, if n - 1 == c then scale else 0, tp,
                      Pulse(c, v, n - 1), Carried(c, v, n - 1));
    }
  }

  lemma {:induction false} LoudStream(fs: seq<Facts>, gnq: bool, c: nat, down: int, scale: int, tp: nat, n: nat)
    requires n <= |fs| && c < |fs| && 0 < tp
    requires Fits(fs, OneLoud(|fs|, c, down, scale))
    requires c + 1 < |fs| ==> !InOn(fs, c + 1)
    ensures var v := Out(Installed(fs, c, gnq).downReduces, tp, down);
            var a := StreamRun(INTS, OneLoud(|fs|, c, down, scale), fs, gnq, Const(tp, 0), n);
            a.Some? ==> a.value == (Const(tp, Pulse(c, v, n)), ConstResidual(tp, Carried(c, v, n)))
  {
    hide StreamLayer;
    if n != 0 {
      LoudStream(fs, gnq, c, down, scale, tp, n - 1);
      var v := Out(Installed(fs, c, gnq).downReduces, tp, down);
      QuietStreamLayer(fs[n - 1], Installed(fs, n - 1, gnq),
                       if n - 1 == c then down else 0, if n - 1 == c then scale else 0, tp,
                       Pulse(c, v, n - 1), Carried(c, v, n - 1));
    }
  }

  /** On a layer list that is not safe, some weights make the two decoders differ: a layer_scale layer whose mlp scale
      is not zero, or one partial sum handed to an expert-gate layer. */
  lemma UnsafeDiffers(fs: seq<Facts>, gnq: bool, tp: nat) returns (ws: seq<Weights<int, int>>, x: seq<int>)
    requires !Safe(fs) && 2 <= tp && forall f <- fs :: !f.sequenceParallel
    ensures |x| == tp && Fits(fs, ws)
    ensures StreamRun(INTS, ws, fs, gnq, x, |fs|) != Some(StockRun(INTS, ws, fs, x, |fs|))
  {
    hide StreamRun, StockRun;
    var i :| 0 <= i < |fs| && !(!fs[i].layerScale && (0 < i && fs[i].expertGate ==> !DownOn(fs, i - 1)));
    var c, scale := if fs[i].layerScale then i else i - 1, if fs[i].layerScale then 1 else 0;
    ws := OneLoud(|fs|, c, 1, scale);
    x := Const(tp, 0);
    LoudStock(fs, c, 1, scale, tp, |fs|);
    LoudStream(fs, gnq, c, 1, scale, tp, |fs|);
    var v := Gain(fs[c], scale, Out(fs[c].downReduces, tp, 1));
    var v' := Out(Installed(fs, c, gnq).downReduces, tp, 1);
    assert v != v';
    var n := |fs|;
    assert Const(tp, Pulse(c, v, n))[0] != Const(tp, Pulse(c, v', n))[0]
        || Const(tp, Base(Carried(c, v, n)))[0] != Const(tp, Base(Carried(c, v', n)))[0];
  }

  ghost predicate Preserved(fs: seq<Facts>, gnq: bool, tp: nat) {
    forall ws: seq<Weights<int, int>>, x: seq<int> {:trigger StreamRun(INTS, ws, fs, gnq, x, |fs|)} ::
      |x| == tp && 0 < tp && Fits(fs, ws) ==>
        StreamRun(INTS, ws, fs, gnq, x, |fs|) == Some(StockRun(INTS, ws, fs, x, |fs|))
  }

  /** The installer preserves the decoder's meaning for all weights and inputs exactly on safe layer lists. */
  lemma PreservedIffSafe(fs: seq<Facts>, gnq: bool, tp: nat)
    requires 2 <= tp && forall f <- fs :: !f.sequenceParallel
    ensures Safe(fs) <==> Preserved(fs, gnq, tp)
  {
    if Safe(fs) {
      forall ws: seq<Weights<int, int>>, x: seq<int> | |x| == tp && 0 < tp && Fits(fs, ws)
        ensures StreamRun(INTS, ws, fs, gnq, x, |fs|) == Some(StockRun(INTS, ws, fs, x, |fs|))
      {
        StreamEqualsStock(INTS, ws, fs, gnq, x);
      }
    } else {
      var ws, x := UnsafeDiffers(fs, gnq, tp);
      assert Fits(fs, ws);
    }
  }
}
