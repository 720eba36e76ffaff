/** The 2-bit draft head (radiance_drafthead.py): quarter-split packing, the bf16 bit pattern that decodes a code
    with a bias of one, premultiplied scales that cancel the bias, and the candidates each block emits.

    Arithmetic is over the reals; the bf16 patterns are exact bit vectors. */
module DraftHead {
  import opened Arithmetic
  import opened Logits

  const GROUP: nat := 128
  const BLOCK_N: nat := 64
  const KCAND: nat := 8

  type Code = c: nat | c < 4

  // ---------------------------------------------------------------------------
  // Bits
  // ---------------------------------------------------------------------------

  function Bits(c: Code): bv8 {
    if c == 0 then 0 else if c == 1 then 1 else if c == 2 then 2 else 3
  }

  /** One packed byte: the codes of k = j, K/4+j, K/2+j and 3K/4+j. */
  function PackByte(c0: Code, c1: Code, c2: Code, c3: Code): bv8 {
    Bits(c0) | (Bits(c1) << 2) | (Bits(c2) << 4) | (Bits(c3) << 6)
  }

  /** The kernel's bit pattern for plane q. */
  function Pattern(b: bv8, q: nat): bv16
    requires q < 4
  {
    var b16 := b as bv16;
    if q == 0 then ((b16 << 5) & 0x60) | 0x3F80
    else if q == 1 then ((b16 << 3) & 0x60) | 0x3F80
    else if q == 2 then ((b16 << 1) & 0x60) | 0x3F80
    else ((b16 >> 1) & 0x60) | 0x3F80
  }

  function PowerOfTwo(e: int): real
    decreases if e < 0 then -e else e
  {
    if e == 0 then 1.0 else if e > 0 then 2.0 * PowerOfTwo(e - 1) else PowerOfTwo(e + 1) / 2.0
  }

  /** The value of a normal bf16 number: sign, 8 exponent bits, 7 mantissa bits. */
  function Bf16(bits: bv16): real {
    var sign := if bits & 0x8000 == 0 then 1.0 else -1.0;
    var exponent := ((bits >> 7) & 0xFF) as int;
    var mantissa := (bits & 0x7F) as int;
    sign * PowerOfTwo(exponent - 127) * (1.0 + mantissa as real / 128.0)
  }

  function PlaneOf(c: Code): bv16 {
    if c == 0 then 0x3F80 else if c == 1 then 0x3FA0 else if c == 2 then 0x3FC0 else 0x3FE0
  }

  /** Each plane's pattern depends on that plane's code alone. */
  lemma PatternSelects(c0: Code, c1: Code, c2: Code, c3: Code, q: nat)
    requires q < 4
    ensures Pattern(PackByte(c0, c1, c2, c3), q) == PlaneOf(Pick(c0, c1, c2, c3, q))
  {
    var a, b, c, d := Bits(c0), Bits(c1), Bits(c2), Bits(c3);
    PlanesApart(a, b, c, d);
  }

  lemma PlanesApart(a: bv8, b: bv8, c: bv8, d: bv8)
    requires a < 4 && b < 4 && c < 4 && d < 4
    ensures var p := a | (b << 2) | (c << 4) | (d << 6);
            Pattern(p, 0) == ((a as bv16) << 5) | 0x3F80 && Pattern(p, 1) == ((b as bv16) << 5) | 0x3F80
            && Pattern(p, 2) == ((c as bv16) << 5) | 0x3F80 && Pattern(p, 3) == ((d as bv16) << 5) | 0x3F80
  {
  }

  /** The pattern reads as one plus a quarter of the code. */
  lemma PatternValue(c: Code)
    ensures Bf16(PlaneOf(c)) == Biased(c)
  {
    assert PowerOfTwo(0) == 1.0;
    if c == 0 {
      assert (PlaneOf(0) >> 7) & 0xFF == 0x7F && PlaneOf(0) & 0x7F == 0;
    } else if c == 1 {
      assert (PlaneOf(1) >> 7) & 0xFF == 0x7F && PlaneOf(1) & 0x7F == 0x20;
    } else if c == 2 {
      assert (PlaneOf(2) >> 7) & 0xFF == 0x7F && PlaneOf(2) & 0x7F == 0x40;
    } else {
      assert (PlaneOf(3) >> 7) & 0xFF == 0x7F && PlaneOf(3) & 0x7F == 0x60;
    }
  }

  // ---------------------------------------------------------------------------
  // One output column
  // ---------------------------------------------------------------------------

  /** A quantised weight row: K codes, one scale and one zero point per group. */
  datatype Column = Column(codes: seq<Code>, s: seq<real>, z: seq<real>) {
    predicate Valid(k: nat) {
      k % (2 * GROUP) == 0 && |codes| == k && |s| == |z| == k / GROUP
    }
  }

  /** What the quantiser stores for a row: packed bytes and premultiplied scales. */
  datatype Packed = Packed(bytes: seq<bv8>, scale: seq<real>, zs: seq<real>)

  /** Byte j of a row's quarter-split codes. */
  function QuarterByte(q: seq<Code>, j: nat): bv8
    requires |q| % 4 == 0 && j < |q| / 4
  {
    var n := |q| / 4;
    PackByte(q[j], q[n + j], q[2 * n + j], q[3 * n + j])
  }

  /** The scale against the biased dot product: four of the bias units. */
  function PlusScale(s: real): real {
    4.0 * s
  }

  /** The scale against the group's sum: the bias and the zero point together. */
  function MinusScale(s: real, z: real): real {
    4.0 * s + z * s
  }

  lemma QuarterRow(k: nat)
    requires k % (2 * GROUP) == 0
    ensures k % 4 == 0
  {
  }

  function PackRow(col: Column, k: nat): (p: Packed)
    requires col.Valid(k)
    ensures |p.bytes| == k / 4 && |p.scale| == |p.zs| == k / GROUP
  {
    QuarterRow(k);
    Packed(seq(k / 4, j requires 0 <= j < k / 4 => QuarterByte(col.codes, j)),
           seq(k / GROUP, g requires 0 <= g < k / GROUP => PlusScale(col.s[g])),
           seq(k / GROUP, g requires 0 <= g < k / GROUP => MinusScale(col.s[g], col.z[g])))
  }

  /** One activation times one dequantised weight. */
  function Term(x: real, c: Code, s: real, z: real): real {
    x * (s * (c as real - z))
  }

  /** The reference: dequantise, then multiply; the first i terms. */
  function Dequantised(x: seq<real>, col: Column, k: nat, i: nat): real
    requires col.Valid(k) && |x| == k && i <= k
  {
    if i == 0 then 0.0
    else
      Dequantised(x, col, k, i - 1) +
      Term(x[i - 1], col.codes[i - 1], col.s[(i - 1) / GROUP], col.z[(i - 1) / GROUP])
  }

  /** A weight as the kernel reads it. */
  function Biased(c: Code): real {
    1.0 + c as real / 4.0
  }

  function Read(x: real, c: Code): real {
    x * Biased(c)
  }

  /** A tile's dot product against the premultiplied scale, less the group sum against the premultiplied zero. */
  function Combined(dot: real, sum: real, s: real, z: real): real {
    dot * (4.0 * s) - sum * (4.0 * s + z * s)
  }

  function Dot(x: seq<real>, codes: seq<Code>, base: nat, n: nat): real
    requires |x| == |codes| && base + n <= |x|
  {
    if n == 0 then 0.0 else Dot(x, codes, base, n - 1) + Read(x[base + n - 1], codes[base + n - 1])
  }

  function SumFrom(x: seq<real>, base: nat, n: nat): real
    requires base + n <= |x|
  {
    if n == 0 then 0.0 else SumFrom(x, base, n - 1) + x[base + n - 1]
  }

  function Groups(k: nat): nat {
    k / 4 / GROUP
  }

  lemma TileInside(k: nat, g: nat, q: nat)
    requires k % (2 * GROUP) == 0 && g < Groups(k) && q < 4
    ensures q * (k / 4) + g * GROUP + GROUP <= k && (g + 1) * GROUP <= k / 4
    ensures q * Groups(k) + g < k / GROUP
    ensures (q * Groups(k) + g + 1) * GROUP <= k
  {
  }

  /** What tile (g, q) adds to the accumulator. */
  function Tile(x: seq<real>, col: Column, k: nat, g: nat, q: nat): real
    requires col.Valid(k) && |x| == k && g < Groups(k) && q < 4
  {
    TileInside(k, g, q);
    var gi := q * Groups(k) + g;
    Combined(Dot(x, col.codes, q * (k / 4) + g * GROUP, GROUP), SumFrom(x, gi * GROUP, GROUP), col.s[gi], col.z[gi])
  }

  /** The accumulator after t tiles, quarters inside groups. */
  function Accumulated(x: seq<real>, col: Column, k: nat, t: nat): real
    requires col.Valid(k) && |x| == k && t <= 4 * Groups(k)
  {
    if t == 0 then 0.0 else Accumulated(x, col, k, t - 1) + Tile(x, col, k, (t - 1) / 4, (t - 1) % 4)
  }

  /** The group sums of the activations the kernel is handed. */
  function GroupSums(x: seq<real>): (xs: seq<real>)
    ensures |xs| == |x| / GROUP
  {
    seq(|x| / GROUP, g requires 0 <= g < |x| / GROUP => SumFrom(x, g * GROUP, GROUP))
  }

  /** The code of plane q among the four in a byte. */
  function Pick(c0: Code, c1: Code, c2: Code, c3: Code, q: nat): Code {
    if q == 0 then c0 else if q == 1 then c1 else if q == 2 then c2 else c3
  }

  lemma PlaneDecodes(c0: Code, c1: Code, c2: Code, c3: Code, q: nat)
    requires q < 4
    ensures Bf16(Pattern(PackByte(c0, c1, c2, c3), q)) == Biased(Pick(c0, c1, c2, c3, q))
  {
    PatternSelects(c0, c1, c2, c3, q);
    PatternValue(Pick(c0, c1, c2, c3, q));
    hide PackByte, Pattern, PlaneOf, Bf16, Biased, Pick;
  }

  lemma PlaneIndex(n: nat, j: nat, q: nat)
    requires j < n && q < 4
    ensures q * n + j < 4 * n
    ensures q * n + j == if q == 0 then j else if q == 1 then n + j else if q == 2 then 2 * n + j else 3 * n + j
  {
  }

  /** The kernel's read of byte j, plane q is the code of k = q K/4 + j. */
  lemma ByteDecodes(col: Column, k: nat, j: nat, q: nat)
    requires col.Valid(k) && j < k / 4 && q < 4
    ensures q * (k / 4) + j < k && Bf16(Pattern(PackRow(col, k).bytes[j], q)) == Biased(col.codes[q * (k / 4) + j])
  {
    var n := k / 4;
    PlaneIndex(n, j, q);
    var c0, c1, c2, c3 := col.codes[j], col.codes[n + j], col.codes[2 * n + j], col.codes[3 * n + j];
    assert PackRow(col, k).bytes[j] == PackByte(c0, c1, c2, c3);
    PlaneDecodes(c0, c1, c2, c3, q);
    hide Bf16, Pattern, PackByte, Biased, PackRow;
  }

  method TileDot(x: seq<real>, bytes: seq<bv8>, ghost col: Column, k: nat, g: nat, q: nat) returns (dot: real)
    requires col.Valid(k) && |x| == k && bytes == PackRow(col, k).bytes && g < Groups(k) && q < 4
    ensures q * (k / 4) + g * GROUP + GROUP <= k
    ensures dot == Dot(x, col.codes, q * (k / 4) + g * GROUP, GROUP)
  {
    hide Bf16, Pattern, PackRow, Biased;
    TileInside(k, g, q);
    dot := 0.0;
    for o := 0 to GROUP
      invariant dot == Dot(x, col.codes, q * (k / 4) + g * GROUP, o)
    {
      var j := g * GROUP + o;
      ByteDecodes(col, k, j, q);
      var wv := Bf16(Pattern(bytes[j], q));
      dot := dot + x[q * (k / 4) + j] * wv;
    }
  }

  /** The two accumulator updates of tile (g, q). */
  method TileTerms(x: seq<real>, xs: seq<real>, w: Packed, ghost col: Column, k: nat, g: nat, q: nat)
    returns (plus: real, minus: real)
    requires col.Valid(k) && |x| == k && w == PackRow(col, k) && xs == GroupSums(x) && g < Groups(k) && q < 4
    ensures plus - minus == Tile(x, col, k, g, q)
  {
    hide PackRow, Dot, SumFrom;
    TileInside(k, g, q);
    var gi := q * Groups(k) + g;
    Premultiplied(col, k, gi);
    var dot := TileDot(x, w.bytes, col, k, g, q);
    plus := dot * w.scale[gi];
    minus := xs[gi] * w.zs[gi];
  }

  lemma NoTiles(x: seq<real>, col: Column, k: nat)
    requires col.Valid(k) && |x| == k
    ensures Accumulated(x, col, k, 0) == 0.0
  {
  }

  lemma NextTile(x: seq<real>, col: Column, k: nat, g: nat, q: nat)
    requires col.Valid(k) && |x| == k && g < Groups(k) && q < 4
    ensures Accumulated(x, col, k, 4 * g + q + 1) == Accumulated(x, col, k, 4 * g + q) + Tile(x, col, k, g, q)
  {
    assert (4 * g + q) / 4 == g && (4 * g + q) % 4 == q;
    hide Tile;
  }

  /** _draft_head_int2 for one activation row and one weight row. */
  method ColumnLogit(x: seq<real>, xs: seq<real>, w: Packed, ghost col: Column, k: nat) returns (acc: real)
    requires col.Valid(k) && |x| == k && w == PackRow(col, k) && xs == GroupSums(x)
    ensures acc == Accumulated(x, col, k, 4 * Groups(k))
  {
    hide *;
    NoTiles(x, col, k);
    acc := 0.0;
    for g := 0 to Groups(k)
      invariant acc == Accumulated(x, col, k, 4 * g)
    {
      for q := 0 to 4
        invariant acc == Accumulated(x, col, k, 4 * g + q)
      {
        var plus, minus := TileTerms(x, xs, w, col, k, g, q);
        NextTile(x, col, k, g, q);
        acc := acc + plus;
        acc := acc - minus;
      }
    }
  }

  lemma Premultiplied(col: Column, k: nat, gi: nat)
    requires col.Valid(k) && gi < k / GROUP
    ensures PackRow(col, k).scale[gi] == 4.0 * col.s[gi] &&
            PackRow(col, k).zs[gi] == 4.0 * col.s[gi] + col.z[gi] * col.s[gi]
  {
  }

  // ---------------------------------------------------------------------------
  // The kernel equals dequantise-then-multiply
  // ---------------------------------------------------------------------------

  /** The reference terms of group gi, the first o of them. */
  function GroupRef(x: seq<real>, col: Column, k: nat, gi: nat, o: nat): real
    requires col.Valid(k) && |x| == k && gi < k / GROUP && o <= GROUP
  {
    if o == 0 then 0.0
    else
      GroupRef(x, col, k, gi, o - 1) +
      Term(x[gi * GROUP + o - 1], col.codes[gi * GROUP + o - 1], col.s[gi], col.z[gi])
  }

  lemma BiasStep(dot: real, sum: real, x: real, c: Code, s: real, z: real)
    ensures Combined(dot + Read(x, c), sum + x, s, z) == Combined(dot, sum, s, z) + Term(x, c, s, z)
  {
  }

  /** The premultiplied scales cancel the bias, term by term. */
  lemma {:induction false} BiasCancels(x: seq<real>, col: Column, k: nat, gi: nat, o: nat)
    requires col.Valid(k) && |x| == k && gi < k / GROUP && o <= GROUP
    ensures Combined(Dot(x, col.codes, gi * GROUP, o), SumFrom(x, gi * GROUP, o), col.s[gi], col.z[gi]) ==
            GroupRef(x, col, k, gi, o)
  {
    if o == 0 {
      assert Combined(0.0, 0.0, col.s[gi], col.z[gi]) == 0.0;
      hide Combined;
    } else {
      hide Combined, Term, Read;
      BiasCancels(x, col, k, gi, o - 1);
      var i := gi * GROUP + o - 1;
      BiasStep(Dot(x, col.codes, gi * GROUP, o - 1), SumFrom(x, gi * GROUP, o - 1), x[i], col.codes[i], col.s[gi],
          col.z[gi]);
    }
  }

  /** The reference, group by group. */
  lemma {:induction false} DequantisedByGroup(x: seq<real>, col: Column, k: nat, gi: nat, o: nat)
    requires col.Valid(k) && |x| == k && gi < k / GROUP && o <= GROUP
    ensures Dequantised(x, col, k, gi * GROUP + o) == Dequantised(x, col, k, gi * GROUP) + GroupRef(x, col, k, gi, o)
  {
    hide Term;
    if o != 0 {
      DequantisedByGroup(x, col, k, gi, o - 1);
      var i := gi * GROUP + o - 1;
      assert i / GROUP == gi;
      assert Dequantised(x, col, k, i + 1) ==
             Dequantised(x, col, k, i) + Term(x[i], col.codes[i], col.s[gi], col.z[gi]);
    }
  }

  /** The reference over groups lo..hi-1. */
  function RefGroups(x: seq<real>, col: Column, k: nat, lo: nat, hi: nat): real
    requires col.Valid(k) && |x| == k && lo <= hi <= k / GROUP
  {
    if lo == hi then 0.0 else RefGroups(x, col, k, lo, hi - 1) + GroupRef(x, col, k, hi - 1, GROUP)
  }

  lemma {:induction false} DequantisedIsGroups(x: seq<real>, col: Column, k: nat, gi: nat)
    requires col.Valid(k) && |x| == k && gi <= k / GROUP
    ensures Dequantised(x, col, k, gi * GROUP) == RefGroups(x, col, k, 0, gi)
  {
    hide GroupRef;
    if gi != 0 {
      DequantisedIsGroups(x, col, k, gi - 1);
      DequantisedByGroup(x, col, k, gi - 1, GROUP);
    }
  }

  lemma {:induction false} RefGroupsSplit(x: seq<real>, col: Column, k: nat, lo: nat, mid: nat, hi: nat)
    requires col.Valid(k) && |x| == k && lo <= mid <= hi <= k / GROUP
    ensures RefGroups(x, col, k, lo, hi) == RefGroups(x, col, k, lo, mid) + RefGroups(x, col, k, mid, hi)
  {
    hide GroupRef;
    if mid < hi { RefGroupsSplit(x, col, k, lo, mid, hi - 1); }
  }

  /** The groups each quarter has covered after g rounds. */
  function Quarters(x: seq<real>, col: Column, k: nat, g: nat): real
    requires col.Valid(k) && |x| == k && k % (4 * GROUP) == 0 && g <= Groups(k)
  {
    var ng := Groups(k);
    RefGroups(x, col, k, 0, g) + RefGroups(x, col, k, ng, ng + g) + RefGroups(x, col, k, 2 * ng, 2 * ng + g) +
        RefGroups(x, col, k, 3 * ng, 3 * ng + g)
  }

  lemma FourGroups(k: nat)
    requires k % (4 * GROUP) == 0
    ensures k / 4 == Groups(k) * GROUP && k / GROUP == 4 * Groups(k) && k / GROUP * GROUP == k
  {
    var m := k / (4 * GROUP);
    assert k == 512 * m;
  }

  lemma TileIsGroup(x: seq<real>, col: Column, k: nat, g: nat, q: nat)
    requires col.Valid(k) && |x| == k && k % (4 * GROUP) == 0 && g < Groups(k) && q < 4
    ensures q * Groups(k) + g < k / GROUP
    ensures Tile(x, col, k, g, q) == GroupRef(x, col, k, q * Groups(k) + g, GROUP)
  {
    hide Combined, GroupRef, Dot, SumFrom;
    TileInside(k, g, q);
    FourGroups(k);
    var gi := q * Groups(k) + g;
    assert q * (k / 4) + g * GROUP == gi * GROUP;
    BiasCancels(x, col, k, gi, GROUP);
  }

  lemma {:induction false} AccumulatedIsQuarters(x: seq<real>, col: Column, k: nat, g: nat)
    requires col.Valid(k) && |x| == k && k % (4 * GROUP) == 0 && g <= Groups(k)
    ensures Accumulated(x, col, k, 4 * g) == Quarters(x, col, k, g)
  {
    hide Tile, GroupRef;
    if g != 0 {
      AccumulatedIsQuarters(x, col, k, g - 1);
      RoundOfTiles(x, col, k, g - 1);
      QuartersNext(x, col, k, g - 1);
      hide Accumulated, Quarters;
    }
  }

  lemma RoundOfTiles(x: seq<real>, col: Column, k: nat, g: nat)
    requires col.Valid(k) && |x| == k && k % (4 * GROUP) == 0 && g < Groups(k)
    ensures Accumulated(x, col, k, 4 * (g + 1)) == Accumulated(x, col, k, 4 * g)
              + GroupRef(x, col, k, g, GROUP) + GroupRef(x, col, k, Groups(k) + g, GROUP)
              + GroupRef(x, col, k, 2 * Groups(k) + g, GROUP) + GroupRef(x, col, k, 3 * Groups(k) + g, GROUP)
  {
    hide Accumulated, Tile, GroupRef;
    NextTile(x, col, k, g, 0);
    NextTile(x, col, k, g, 1);
    NextTile(x, col, k, g, 2);
    NextTile(x, col, k, g, 3);
    TileIsGroup(x, col, k, g, 0);
    TileIsGroup(x, col, k, g, 1);
    TileIsGroup(x, col, k, g, 2);
    TileIsGroup(x, col, k, g, 3);
  }

  lemma QuartersNext(x: seq<real>, col: Column, k: nat, g: nat)
    requires col.Valid(k) && |x| == k && k % (4 * GROUP) == 0 && g < Groups(k)
    ensures Quarters(x, col, k, g + 1) == Quarters(x, col, k, g)
              + GroupRef(x, col, k, g, GROUP) + GroupRef(x, col, k, Groups(k) + g, GROUP)
              + GroupRef(x, col, k, 2 * Groups(k) + g, GROUP) + GroupRef(x, col, k, 3 * Groups(k) + g, GROUP)
  {
    hide GroupRef;
  }

  /** When K is a multiple of four groups the kernel's accumulator is the dequantised product. */
  lemma KernelIsExact(x: seq<real>, col: Column, k: nat)
    requires col.Valid(k) && |x| == k && k % (4 * GROUP) == 0
    ensures Accumulated(x, col, k, 4 * Groups(k)) == Dequantised(x, col, k, k)
  {
    hide Accumulated, Dequantised, RefGroups, GroupRef, Groups;
    var ng := Groups(k);
    FourGroups(k);
    AccumulatedIsQuarters(x, col, k, ng);
    DequantisedIsGroups(x, col, k, 4 * ng);
    RefGroupsSplit(x, col, k, 0, ng, 4 * ng);
    RefGroupsSplit(x, col, k, ng, 2 * ng, 4 * ng);
    RefGroupsSplit(x, col, k, 2 * ng, 3 * ng, 4 * ng);
  }

  // At an odd multiple of two groups the last half group of each quarter is never read.

  function Unit(k: nat, at: nat): (x: seq<real>)
    ensures |x| == k && forall i :: 0 <= i < k ==> x[i] == if i == at then 1.0 else 0.0
  {
    seq(k, i => if i == at then 1.0 else 0.0)
  }

  function Plain(k: nat): (col: Column)
    requires k % (2 * GROUP) == 0
    ensures col.Valid(k)
    ensures forall i :: 0 <= i < k ==> col.codes[i] == 1
    ensures forall g :: 0 <= g < k / GROUP ==> col.s[g] == 1.0 && col.z[g] == 0.0
  {
    var one: Code := 1;
    Column(seq(k, _ => one), seq(k / GROUP, _ => 1.0), seq(k / GROUP, _ => 0.0))
  }

  lemma {:induction false} UnitDot(k: nat, at: nat, base: nat, n: nat)
    requires k % (2 * GROUP) == 0 && base + n <= k && (at < base || base + n <= at)
    ensures Dot(Unit(k, at), Plain(k).codes, base, n) == 0.0
  {
    if n != 0 { UnitDot(k, at, base, n - 1); }
  }

  lemma {:induction false} UnitSum(k: nat, at: nat, base: nat, n: nat)
    requires base + n <= k
    ensures 0.0 <= SumFrom(Unit(k, at), base, n)
  {
    if n != 0 { UnitSum(k, at, base, n - 1); }
  }

  lemma UnitStep(k: nat, at: nat, i: nat)
    requires k % (2 * GROUP) == 0 && 0 < i <= k
    ensures Dequantised(Unit(k, at), Plain(k), k, i) == Dequantised(Unit(k, at), Plain(k), k, i - 1) +
            if at == i - 1 then 1.0 else 0.0
  {
    hide Term, Unit, Plain;
    var x, col := Unit(k, at), Plain(k);
    assert (i - 1) / GROUP < k / GROUP;
    PlainTerm(x[i - 1], col.codes[i - 1]);
  }

  lemma PlainTerm(x: real, c: Code)
    requires c == 1
    ensures Term(x, c, 1.0, 0.0) == x
  {
  }

  lemma {:induction false} UnitDequantised(k: nat, at: nat, i: nat)
    requires k % (2 * GROUP) == 0 && i <= k
    ensures Dequantised(Unit(k, at), Plain(k), k, i) == if at < i then 1.0 else 0.0
  {
    hide Unit, Plain, Term;
    if i != 0 {
      UnitDequantised(k, at, i - 1);
      UnitStep(k, at, i);
      hide Dequantised;
    }
  }

  lemma NoDotIsNegative(sum: real)
    requires 0.0 <= sum
    ensures Combined(0.0, sum, 1.0, 0.0) <= 0.0
  {
  }

  lemma SkippedTile(k: nat, g: nat, q: nat)
    requires k % (2 * GROUP) == 0 && k % (4 * GROUP) != 0 && g < Groups(k) && q < 4
    ensures Tile(Unit(k, k / 4 - 1), Plain(k), k, g, q) <= 0.0
  {
    hide Dot, SumFrom, Unit, Combined;
    TileInside(k, g, q);
    var at, base, gi := k / 4 - 1, q * (k / 4) + g * GROUP, q * Groups(k) + g;
    assert at < base || base + GROUP <= at by { UnreadEnd(k, g, q); }
    UnitDot(k, at, base, GROUP);
    UnitSum(k, at, gi * GROUP, GROUP);
    NoDotIsNegative(SumFrom(Unit(k, at), gi * GROUP, GROUP));
  }

  lemma UnreadEnd(k: nat, g: nat, q: nat)
    requires k % (2 * GROUP) == 0 && k % (4 * GROUP) != 0 && g < Groups(k) && q < 4
    ensures var base := q * (k / 4) + g * GROUP; k / 4 - 1 < base || base + GROUP <= k / 4 - 1
  {
    var m := k / (2 * GROUP);
    assert k == 256 * m && m % 2 == 1 && k / 4 == 64 * m;
  }

  lemma {:induction false} SkippedAccumulated(k: nat, t: nat)
    requires k % (2 * GROUP) == 0 && k % (4 * GROUP) != 0 && t <= 4 * Groups(k)
    ensures Accumulated(Unit(k, k / 4 - 1), Plain(k), k, t) <= 0.0
  {
    hide Tile, Unit, Plain;
    if t != 0 {
      SkippedAccumulated(k, t - 1);
      SkippedTile(k, (t - 1) / 4, (t - 1) % 4);
    }
  }

  /** The kernel is exact for every input precisely when K is a multiple of four groups; the guard admits
      every multiple of two. */
  lemma ExactIffFourGroups(k: nat)
    requires k % (2 * GROUP) == 0
    ensures k % (4 * GROUP) == 0 <==>
            forall x: seq<real>, col: Column :: |x| == k && col.Valid(k) ==>
              Accumulated(x, col, k, 4 * Groups(k)) == Dequantised(x, col, k, k)
  {
    hide Accumulated, Dequantised, Unit, Plain;
    if k % (4 * GROUP) == 0 {
      forall x: seq<real>, col: Column | |x| == k && col.Valid(k)
        ensures Accumulated(x, col, k, 4 * Groups(k)) == Dequantised(x, col, k, k)
      {
        KernelIsExact(x, col, k);
      }
    } else {
      var at := k / 4 - 1;
      SkippedAccumulated(k, 4 * Groups(k));
      UnitDequantised(k, at, k);
      assert Accumulated(Unit(k, at), Plain(k), k, 4 * Groups(k)) != Dequantised(Unit(k, at), Plain(k), k, k);
    }
  }

  // ---------------------------------------------------------------------------
  // The quantiser
  // ---------------------------------------------------------------------------

  function ToCode(i: int): Code {
    if i < 0 then 0 else if i > 3 then 3 else i
  }

  function Least(ws: seq<real>): real
    requires ws != []
  {
    if |ws| == 1 then ws[0] else var m := Least(ws[..|ws| - 1]); if ws[|ws| - 1] < m then ws[|ws| - 1] else m
  }

  function Greatest(ws: seq<real>): real
    requires ws != []
  {
    if |ws| == 1 then ws[0] else var m := Greatest(ws[..|ws| - 1]); if ws[|ws| - 1] > m then ws[|ws| - 1] else m
  }

  function Step(ws: seq<real>): (s: real)
    requires ws != []
    ensures 0.0 < s && Greatest(ws) - Least(ws) <= 3.0 * s
  {
    var s := (Greatest(ws) - Least(ws)) / 3.0;
    if s < 0.00000001 then 0.00000001 else s
  }

  function Zero(ws: seq<real>): Code
    requires ws != []
  {
    ToCode(Round(-Least(ws) / Step(ws)))
  }

  function Quantised(ws: seq<real>, w: real): Code
    requires ws != []
  {
    ToCode(Round(w / Step(ws) + Zero(ws) as real))
  }

  lemma {:induction false} RangeHolds(ws: seq<real>, i: nat)
    requires i < |ws|
    ensures Least(ws) <= ws[i] <= Greatest(ws)
  {
    if |ws| > 1 && i < |ws| - 1 { RangeHolds(ws[..|ws| - 1], i); }
  }

  /** Dividing by a positive step keeps comparisons. */
  lemma QuotientAtMost(a: real, s: real, hi: real)
    requires 0.0 < s
    ensures a <= hi * s <==> a / s <= hi
    ensures hi * s <= a <==> hi <= a / s
  {
    var q := a / s;
    assert q * s == a;
    if q <= hi { assert q * s <= hi * s; } else { assert hi * s < q * s; }
    if hi <= q { assert hi * s <= q * s; } else { assert q * s < hi * s; }
  }

  lemma HalfScaled(s: real, e: real)
    requires 0.0 < s
    ensures -s / 2.0 <= s * e <= s / 2.0 <==> -0.5 <= e <= 0.5
  {
    if e > 0.5 { assert s * e > s * 0.5; }
    if e < -0.5 { assert s * e < s * -0.5; }
  }

  /** The error in steps is the error in units, scaled. */
  lemma HalfUnit(w: real, s: real, z: real, c: Code)
    requires 0.0 < s
    ensures ReadsNear(w, c, s, z, s / 2.0) <==> -0.5 <= w / s + z - c as real <= 0.5
  {
    var q := w / s;
    assert w == q * s;
    var e := q + z - c as real;
    assert w - s * (c as real - z) == s * e;
    HalfScaled(s, e);
  }

  /** Rounding to a code loses at most half a unit exactly between half a unit below the first and above the last. */
  lemma ToCodeNear(v: real)
    ensures -0.5 <= v - ToCode(Round(v)) as real <= 0.5 <==> -0.5 <= v <= 3.5
  {
    hide Round;
  }

  lemma NegatedQuotient(a: real, s: real)
    requires 0.0 < s
    ensures -a / s == -(a / s)
  {
  }

  /** The clamped zero point shifts a range of at most three units onto the codes, give or take half a unit, exactly
      when the range lies within 3.5 units of zero. */
  lemma ZeroFits(lo: real, hi: real)
    requires lo <= hi <= lo + 3.0
    ensures var z := ToCode(Round(-lo)) as real; -0.5 <= lo + z && hi + z <= 3.5 <==> -3.5 <= lo && hi <= 3.5
  {
    hide Round;
  }

  /** The dequantised weight is within half a step of the original. */
  predicate NearStep(ws: seq<real>, i: nat)
    requires i < |ws|
  {
    ReadsNear(ws[i], Quantised(ws, ws[i]), Step(ws), Zero(ws) as real, Step(ws) / 2.0)
  }

  /** Code c with scale s and zero point z is dequantised within d of w. */
  predicate ReadsNear(w: real, c: Code, s: real, z: real, d: real) {
    -d <= w - s * (c as real - z) <= d
  }

  lemma NearIff(ws: seq<real>, i: nat)
    requires i < |ws|
    ensures NearStep(ws, i) <==> -0.5 <= ws[i] / Step(ws) + Zero(ws) as real <= 3.5
  {
    hide Step, Zero, ToCode, Round, ReadsNear;
    var s, z := Step(ws), Zero(ws) as real;
    HalfUnit(ws[i], s, z, Quantised(ws, ws[i]));
    ToCodeNear(ws[i] / s + z);
  }

  lemma {:induction false} RangeAttained(ws: seq<real>) returns (i: nat, j: nat)
    requires ws != []
    ensures i < |ws| && j < |ws| && ws[i] == Least(ws) && ws[j] == Greatest(ws)
  {
    i, j := |ws| - 1, |ws| - 1;
    if |ws| > 1 {
      var a, b := RangeAttained(ws[..|ws| - 1]);
      if ws[i] != Least(ws) { i := a; }
      if ws[j] != Greatest(ws) { j := b; }
    }
  }

  lemma RangeQuotients(least: real, greatest: real, s: real)
    requires 0.0 < s && least <= greatest <= least + 3.0 * s
    ensures least / s <= greatest / s <= least / s + 3.0
  {
    var lo := least / s;
    assert least == lo * s;
    assert (lo + 3.0) * s == least + 3.0 * s;
    QuotientAtMost(greatest, s, lo);
    QuotientAtMost(greatest, s, lo + 3.0);
  }

  /** The range of a group in steps. */
  lemma RangeInSteps(ws: seq<real>)
    requires ws != []
    ensures var s, lo, hi := Step(ws), Least(ws) / Step(ws), Greatest(ws) / Step(ws);
            && lo <= hi <= lo + 3.0 && Zero(ws) == ToCode(Round(-lo))
            && (-3.5 * s <= Least(ws) <==> -3.5 <= lo) && (Greatest(ws) <= 3.5 * s <==> hi <= 3.5)
  {
    hide Step, Least, Greatest, ToCode, Round;
    RangeHolds(ws, 0);
    var s := Step(ws);
    NegatedQuotient(Least(ws), s);
    QuotientAtMost(Least(ws), s, -3.5);
    QuotientAtMost(Greatest(ws), s, 3.5);
    RangeQuotients(Least(ws), Greatest(ws), s);
  }

  /** Every weight of a group is dequantised within half a step exactly when the group's range lies within 3.5
      steps of zero; the clamped zero point loses the rest. */
  lemma WithinHalfStep(ws: seq<real>)
    requires ws != []
    ensures (forall i: nat :: i < |ws| ==> NearStep(ws, i)) <==>
            -3.5 * Step(ws) <= Least(ws) && Greatest(ws) <= 3.5 * Step(ws)
  {
    hide NearStep, Step, Least, Greatest, Zero, ToCode, Round;
    RangeInSteps(ws);
    var s, z := Step(ws), Zero(ws) as real;
    var lo, hi := Least(ws) / s, Greatest(ws) / s;
    ZeroFits(lo, hi);
    var a, b := RangeAttained(ws);
    NearIff(ws, a);
    NearIff(ws, b);
    if -0.5 <= lo + z && hi + z <= 3.5 {
      forall i: nat | i < |ws| ensures NearStep(ws, i) {
        RangeHolds(ws, i);
        NearIff(ws, i);
        InStepRange(ws[i], Least(ws), Greatest(ws), s);
      }
    }
  }

  lemma InStepRange(w: real, lo: real, hi: real, s: real)
    requires 0.0 < s && lo <= w <= hi
    ensures lo / s <= w / s <= hi / s
  {
    var q := w / s;
    assert q * s == w;
    QuotientAtMost(lo, s, q);
    QuotientAtMost(hi, s, q);
  }

  lemma GroupInside(k: nat, i: nat)
    requires k % (2 * GROUP) == 0 && i < k
    ensures i / GROUP < k / GROUP && (k / GROUP) * GROUP == k
  {
  }

  /** The g-th group of a row. */
  function RowGroup(row: seq<real>, g: nat): (ws: seq<real>)
    requires g < |row| / GROUP
    ensures |ws| == GROUP && forall o :: 0 <= o < GROUP ==> ws[o] == row[g * GROUP + o]
  {
    Stretch(row, GROUP, g)
  }

  function QuantisedAt(row: seq<real>, i: nat): Code
    requires |row| % (2 * GROUP) == 0 && i < |row|
  {
    GroupInside(|row|, i);
    Quantised(RowGroup(row, i / GROUP), row[i])
  }

  function QuantisedRow(row: seq<real>): (col: Column)
    requires |row| % (2 * GROUP) == 0
    ensures col.Valid(|row|)
  {
    var k := |row|;
    Column(seq(k, i requires 0 <= i < k => QuantisedAt(row, i)),
           seq(k / GROUP, g requires 0 <= g < k / GROUP => Step(RowGroup(row, g))),
           seq(k / GROUP, g requires 0 <= g < k / GROUP => Zero(RowGroup(row, g)) as real))
  }

  /** What is stored for weight i reads back within d of it. */
  predicate StoredNear(row: seq<real>, i: nat, d: real)
    requires |row| % (2 * GROUP) == 0 && i < |row|
  {
    GroupInside(|row|, i);
    var col, g := QuantisedRow(row), i / GROUP;
    ReadsNear(row[i], col.codes[i], col.s[g], col.z[g], d)
  }

  lemma StoredNearIs(row: seq<real>, g: nat, o: nat)
    requires |row| % (2 * GROUP) == 0 && g < |row| / GROUP && o < GROUP
    ensures var i, ws := g * GROUP + o, RowGroup(row, g);
            i < |row| && (StoredNear(row, i, Step(ws) / 2.0) <==> NearStep(ws, o))
  {
    hide Step, Zero, Quantised, ReadsNear;
    DivModUnique(g * GROUP + o, GROUP, g, o);
  }

  predicate GroupSpans(row: seq<real>, g: nat, lo: real, hi: real)
    requires g < |row| / GROUP
  {
    && lo in RowGroup(row, g) && hi in RowGroup(row, g)
    && forall w <- RowGroup(row, g) :: lo <= w <= hi
  }

  lemma SpanIs(row: seq<real>, g: nat, lo: real, hi: real)
    requires g < |row| / GROUP && GroupSpans(row, g, lo, hi)
    ensures Least(RowGroup(row, g)) == lo && Greatest(RowGroup(row, g)) == hi
  {
    hide Least, Greatest;
    var ws := RowGroup(row, g);
    var a, b := RangeAttained(ws);
    var i :| 0 <= i < |ws| && ws[i] == lo;
    var j :| 0 <= j < |ws| && ws[j] == hi;
    RangeHolds(ws, i);
    RangeHolds(ws, j);
    assert ws[a] in ws && ws[b] in ws;
  }

  /** Three steps reach over a group's range, or over 3e-8 where it is narrower.  All its weights read back within a
      sixth of that reach exactly when none lies further than seven sixths of it from zero. */
  lemma StoredWithinSixth(row: seq<real>, g: nat, lo: real, hi: real)
    requires |row| % (2 * GROUP) == 0 && g < |row| / GROUP && GroupSpans(row, g, lo, hi)
    ensures var reach := if hi - lo < 0.00000003 then 0.00000003 else hi - lo;
            && 3.0 * QuantisedRow(row).s[g] == reach
            && ((forall i: nat :: i < |row| && i / GROUP == g ==> StoredNear(row, i, reach / 6.0)) <==>
                 -7.0 * reach <= 6.0 * lo && 6.0 * hi <= 7.0 * reach)
  {
    hide StoredNear, NearStep, Least, Greatest, GroupSpans, Zero, Quantised;
    var ws := RowGroup(row, g);
    SpanIs(row, g, lo, hi);
    WithinHalfStep(ws);
    var d := Step(ws) / 2.0;
    forall o: nat | o < GROUP
      ensures g * GROUP + o < |row| && (StoredNear(row, g * GROUP + o, d) <==> NearStep(ws, o)) {
      StoredNearIs(row, g, o);
    }
    forall i: nat | i < |row| && i / GROUP == g
      ensures StoredNear(row, i, d) <==> NearStep(ws, i - g * GROUP) {
      StoredNearIs(row, g, i - g * GROUP);
    }
    if forall i: nat :: i < |row| && i / GROUP == g ==> StoredNear(row, i, d) {
      forall o: nat | o < GROUP ensures NearStep(ws, o) {
        StoredNearIs(row, g, o);
        DivModUnique(g * GROUP + o, GROUP, g, o);
      }
    }
  }

  method Extremes(ws: seq<real>) returns (lo: real, hi: real)
    requires ws != []
    ensures lo == Least(ws) && hi == Greatest(ws)
  {
    lo, hi := ws[0], ws[0];
    for i := 1 to |ws|
      invariant lo == Least(ws[..i]) && hi == Greatest(ws[..i])
    {
      assert ws[..i + 1][..i] == ws[..i];
      if ws[i] < lo { lo := ws[i]; }
      if ws[i] > hi { hi := ws[i]; }
    }
    assert ws[..|ws|] == ws;
  }

  /** Step, zero point and codes of one group. */
  method QuantizeGroup(ws: seq<real>) returns (sc: real, zp: Code, q: seq<Code>)
    requires ws != []
    ensures sc == Step(ws) && zp == Zero(ws)
    ensures |q| == |ws| && forall o :: 0 <= o < |ws| ==> q[o] == Quantised(ws, ws[o])
  {
    hide Least, Greatest, Round, ToCode;
    var lo, hi := Extremes(ws);
    sc := (hi - lo) / 3.0;
    if sc < 0.00000001 { sc := 0.00000001; }
    zp := ToCode(Round(-lo / sc));
    q := [];
    for o := 0 to |ws|
      invariant |q| == o && forall m :: 0 <= m < o ==> q[m] == Quantised(ws, ws[m])
    {
      q := q + [ToCode(Round(ws[o] / sc + zp as real))];
    }
  }

  predicate CodesSoFar(row: seq<real>, q: seq<Code>)
    requires |row| % (2 * GROUP) == 0
  {
    |q| <= |row| && forall i :: 0 <= i < |q| ==> q[i] == QuantisedAt(row, i)
  }

  lemma CodesAppend(row: seq<real>, g: nat, q: seq<Code>, codes: seq<Code>)
    requires |row| % (2 * GROUP) == 0 && g < |row| / GROUP
    requires CodesSoFar(row, q) && |q| == g * GROUP && |codes| == GROUP
    requires forall o :: 0 <= o < GROUP ==> codes[o] == Quantised(RowGroup(row, g), RowGroup(row, g)[o])
    ensures CodesSoFar(row, q + codes)
  {
    hide Quantised;
    forall i | |q| <= i < |q| + GROUP ensures i < |row| && codes[i - |q|] == QuantisedAt(row, i) {
      DivModUnique(i, GROUP, g, i - |q|);
    }
  }

  lemma AllCodes(row: seq<real>, q: seq<Code>)
    requires |row| % (2 * GROUP) == 0 && CodesSoFar(row, q) && |q| == |row|
    ensures q == QuantisedRow(row).codes
  {
    hide QuantisedAt, Step, Zero;
  }

  /** Codes, steps and zero points of one row, group by group. */
  method QuantizeRow(row: seq<real>) returns (q: seq<Code>, sc: seq<real>, zp: seq<real>)
    requires |row| % (2 * GROUP) == 0
    ensures Column(q, sc, zp) == QuantisedRow(row)
  {
    hide Step, Zero, Quantised, QuantisedAt, CodesSoFar, QuantisedRow, RowGroup, Round, Stretch;
    q, sc, zp := [], [], [];
    NoCodes(row);
    for g := 0 to |row| / GROUP
      invariant |q| == g * GROUP && CodesSoFar(row, q)
      invariant sc == QuantisedRow(row).s[..g] && zp == QuantisedRow(row).z[..g]
    {
      var step, zero, codes := QuantizeGroup(RowGroup(row, g));
      CodesAppend(row, g, q, codes);
      ScalesOf(row, g);
      q, sc, zp := q + codes, sc + [step], zp + [zero as real];
    }
    AllCodes(row, q);
  }

  lemma NoCodes(row: seq<real>)
    requires |row| % (2 * GROUP) == 0
    ensures CodesSoFar(row, [])
  {
  }

  lemma ScalesOf(row: seq<real>, g: nat)
    requires |row| % (2 * GROUP) == 0 && g < |row| / GROUP
    ensures QuantisedRow(row).s[g] == Step(RowGroup(row, g)) && QuantisedRow(row).z[g] == Zero(RowGroup(row, g)) as real
  {
    hide Step, Zero, QuantisedAt;
  }

  /** The quarter-split bytes of one row. */
  method PackBytes(q: seq<Code>) returns (bytes: seq<bv8>)
    requires |q| % 4 == 0
    ensures |bytes| == |q| / 4 && forall j :: 0 <= j < |q| / 4 ==> bytes[j] == QuarterByte(q, j)
  {
    hide PackByte, QuarterByte;
    bytes := [];
    for j := 0 to |q| / 4
      invariant |bytes| == j && forall m :: 0 <= m < j ==> bytes[m] == QuarterByte(q, m)
    {
      bytes := bytes + [QuarterByte(q, j)];
    }
  }

  /** The premultiplied scales of one row. */
  method Premultiply(sc: seq<real>, zp: seq<real>) returns (scale: seq<real>, zs: seq<real>)
    requires |sc| == |zp|
    ensures |scale| == |zs| == |sc|
    ensures forall g :: 0 <= g < |sc| ==> scale[g] == PlusScale(sc[g]) && zs[g] == MinusScale(sc[g], zp[g])
  {
    hide PlusScale, MinusScale;
    scale, zs := [], [];
    for g := 0 to |sc|
      invariant |scale| == |zs| == g
      invariant forall m :: 0 <= m < g ==> scale[m] == PlusScale(sc[m]) && zs[m] == MinusScale(sc[m], zp[m])
    {
      scale, zs := scale + [PlusScale(sc[g])], zs + [MinusScale(sc[g], zp[g])];
    }
  }

  method StoreRow(row: seq<real>) returns (p: Packed)
    requires |row| % (2 * GROUP) == 0
    ensures p == PackRow(QuantisedRow(row), |row|)
  {
    hide QuantisedRow, PackRow, QuarterByte, PlusScale, MinusScale;
    var q, sc, zp := QuantizeRow(row);
    var bytes := PackBytes(q);
    var scale, zs := Premultiply(sc, zp);
    p := Packed(bytes, scale, zs);
    PackedIs(QuantisedRow(row), |row|, p);
  }

  lemma PackedIs(col: Column, k: nat, p: Packed)
    requires col.Valid(k) && |p.bytes| == k / 4 && |p.scale| == |p.zs| == k / GROUP
    requires forall j :: 0 <= j < k / 4 ==> p.bytes[j] == QuarterByte(col.codes, j)
    requires forall g :: 0 <= g < k / GROUP ==>
               p.scale[g] == PlusScale(col.s[g]) && p.zs[g] == MinusScale(col.s[g], col.z[g])
    ensures p == PackRow(col, k)
  {
    hide QuarterByte, PlusScale, MinusScale;
    var spec := PackRow(col, k);
    assert p.bytes == spec.bytes;
    assert p.scale == spec.scale;
    assert p.zs == spec.zs;
  }

  const CHUNK_ROWS: nat := 8192

  /** _quantize_head_now: refuse an unsuitable width, else quantise and pack every row, a chunk of rows at a time. */
  method QuantizeHead(w: seq<seq<real>>, k: nat) returns (done: bool, packed: array<Packed>)
    requires forall r :: 0 <= r < |w| ==> |w[r]| == k
    ensures done <==> k % (2 * GROUP) == 0
    ensures done ==> packed.Length == |w| && forall r :: 0 <= r < |w| ==> packed[r] == PackRow(QuantisedRow(w[r]), k)
  {
    hide PackRow, QuantisedRow;
    if k % (2 * GROUP) != 0 {
      packed := new Packed[0](_ => Packed([], [], []));
      return false, packed;
    }
    done := true;
    packed := new Packed[|w|](_ => Packed([], [], []));
    var i := 0;
    while i < |w|
      invariant 0 <= i <= |w|
      invariant forall r :: 0 <= r < i ==> packed[r] == PackRow(QuantisedRow(w[r]), k)
    {
      var j := if i + CHUNK_ROWS < |w| then i + CHUNK_ROWS else |w|;
      for r := i to j
        invariant forall m :: 0 <= m < r ==> packed[m] == PackRow(QuantisedRow(w[m]), k)
      {
        packed[r] := StoreRow(w[r]);
      }
      i := j;
    }
  }

  // ---------------------------------------------------------------------------
  // The candidates a block emits
  // ---------------------------------------------------------------------------

  /** One block's candidates in the order emitted, each a lane and its value. */
  datatype Candidate = Candidate(lane: nat, value: Logit)

  /** Finite candidates are distinct live lanes with their values; a lane left out is beaten or equalled by every
      candidate, all of which are then finite. */
  ghost predicate TopOfBlock(acc: seq<real>, live: nat, cands: seq<Candidate>) {
    && live <= |acc|
    && (forall c :: 0 <= c < |cands| && cands[c].value.Num? ==>
         cands[c].lane < live && cands[c].value.x == acc[cands[c].lane])
    && (forall c, d :: 0 <= c < d < |cands| && cands[c].value.Num? && cands[d].value.Num? ==>
         cands[c].lane != cands[d].lane)
    && (forall l: nat :: l < live && !Emitted(cands, l) ==>
          forall c :: 0 <= c < |cands| ==> cands[c].value.Num? && acc[l] <= cands[c].value.x)
  }

  predicate Emitted(cands: seq<Candidate>, l: nat) {
    exists c :: 0 <= c < |cands| && cands[c].value.Num? && cands[c].lane == l
  }

  /** The maximum and the first place that holds it. */
  method MaxAndArg(xs: seq<Logit>) returns (mx: Logit, am: nat)
    requires xs != []
    ensures am < |xs| && xs[am] == mx && forall i :: 0 <= i < |xs| ==> !Less(mx, xs[i])
    ensures mx.NegInf? ==> am == 0
  {
    mx, am := xs[0], 0;
    for i := 1 to |xs|
      invariant am < |xs| && xs[am] == mx && forall j :: 0 <= j < i ==> !Less(mx, xs[j])
      invariant mx.NegInf? ==> am == 0
    {
      if Less(mx, xs[i]) { mx, am := xs[i], i; }
    }
  }

  /** The candidates as the block stores them: a value, and a token id from the block's first one on. */
  function Stored(bm: seq<Logit>, bi: seq<nat>, base: nat): (cands: seq<Candidate>)
    requires |bm| == |bi| && forall c :: 0 <= c < |bi| ==> base <= bi[c]
    ensures |cands| == |bm|
  {
    seq(|bm|, c requires 0 <= c < |bm| => Candidate(bi[c] - base, bm[c]))
  }

  function Live(pid: nat, n: nat): nat
    requires pid * BLOCK_N < n
  {
    if n - pid * BLOCK_N < BLOCK_N then n - pid * BLOCK_N else BLOCK_N
  }

  /** _emit for one row of one block: successive maximum and mask. */
  method Emit(acc: seq<real>, pid: nat, n: nat) returns (bm: seq<Logit>, bi: seq<nat>)
    requires |acc| == BLOCK_N && pid * BLOCK_N < n
    ensures |bm| == |bi| == KCAND && forall c :: 0 <= c < KCAND ==> pid * BLOCK_N <= bi[c] < (pid + 1) * BLOCK_N
    ensures forall c :: 0 <= c < KCAND ==> bi[c] < n
    ensures TopOfBlock(acc, Live(pid, n), Stored(bm, bi, pid * BLOCK_N))
  {
    var live := Live(pid, n);
    var base := pid * BLOCK_N;
    var masked := seq(BLOCK_N, l requires 0 <= l < BLOCK_N => if base + l < n then Num(acc[l]) else NegInf);
    bm, bi := [], [];
    ghost var cands: seq<Candidate> := [];
    for c := 0 to KCAND
      invariant |bm| == |bi| == |cands| == c && |masked| == BLOCK_N
      invariant forall d :: 0 <= d < c ==> base <= bi[d] < base + BLOCK_N && cands[d] == Candidate(bi[d] - base, bm[d])
      invariant forall l: nat :: l < BLOCK_N ==>
                masked[l] == if l < live && !Emitted(cands, l) then Num(acc[l]) else NegInf
      invariant TopOfBlock(acc, live, cands) && forall d :: 0 <= d < c ==> bi[d] < n
    {
      var mx, am := MaxAndArg(masked);
      EmitNext(acc, live, cands, masked, mx, am);
      bm, bi := bm + [mx], bi + [base + am];
      masked := seq(BLOCK_N, l requires 0 <= l < BLOCK_N => if l == am then NegInf else masked[l]);
      cands := cands + [Candidate(am, mx)];
    }
    assert Stored(bm, bi, base) == cands;
  }

  lemma EmitNext(acc: seq<real>, live: nat, cands: seq<Candidate>, masked: seq<Logit>, mx: Logit, am: nat)
    requires TopOfBlock(acc, live, cands) && |masked| == |acc| && am < |acc| && masked[am] == mx
    requires forall l: nat :: l < |acc| ==> masked[l] == if l < live && !Emitted(cands, l) then Num(acc[l]) else NegInf
    requires forall i :: 0 <= i < |masked| ==> !Less(mx, masked[i])
    ensures TopOfBlock(acc, live, cands + [Candidate(am, mx)])
    ensures forall l: nat :: Emitted(cands + [Candidate(am, mx)], l) <==> Emitted(cands, l) || (l == am && mx.Num?)
  {
    var next := cands + [Candidate(am, mx)];
    EmittedSnoc(cands, Candidate(am, mx));
    forall l: nat | l < live && !Emitted(next, l)
      ensures forall c :: 0 <= c < |next| ==> next[c].value.Num? && acc[l] <= next[c].value.x
    {
      assert masked[l] == Num(acc[l]) && !Less(mx, masked[l]);
    }
  }

  lemma EmittedSnoc(cands: seq<Candidate>, e: Candidate)
    ensures forall l: nat :: Emitted(cands + [e], l) <==> Emitted(cands, l) || (l == e.lane && e.value.Num?)
  {
    forall l: nat ensures Emitted(cands + [e], l) <==> Emitted(cands, l) || (l == e.lane && e.value.Num?) {
      if Emitted(cands, l) {
        var c :| 0 <= c < |cands| && cands[c].value.Num? && cands[c].lane == l;
        assert (cands + [e])[c] == cands[c];
      }
      if l == e.lane && e.value.Num? { assert (cands + [e])[|cands|] == e; }
    }
  }
}
