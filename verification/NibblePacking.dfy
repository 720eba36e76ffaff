/** The drafter's 4-bit weights (radiance_w4.py): the clip search that picks each group's grid, and the lane order in
    which signed codes are packed eight to a word.

    Codes are int8 bit patterns; the f16 rounding of a scale is a parameter. */
module NibblePacking {
  import opened Arithmetic
  import opened FragmentOrder
  import opened Options

  const GROUP: nat := 128
  const KPB: nat := 64
  const ROWS: nat := 2048
  const KOFF: seq<nat> := [0, 8, 1, 9, 2, 10, 3, 11]

  // ---------------------------------------------------------------------------
  // Where each code goes
  // ---------------------------------------------------------------------------

  function KOff(i: nat): (o: nat)
    requires i < 8
    ensures o == i % 2 * 8 + i / 2
  {
    KOFF[i]
  }

  /** The word and nibble of code (row, k): tile, row, block and half, step, then the nibble within the step. */
  function Place(row: nat, k: nat): (Coord, nat) {
    (Coord(row / 16, row % 16, k / 64, k / 4 % 2, k / 16 % 4), 2 * (k % 4) + k / 8 % 2)
  }

  /** The code stored in nibble i of the word at c. */
  function Source(c: Coord, i: nat): (nat, nat)
    requires i < 8
  {
    (16 * c.nt + c.row, 64 * c.ks + 16 * c.byte + 4 * c.half + KOff(i))
  }

  /** k in digits: block, step, upper half, lane half, offset. */
  lemma KDigits(kb: nat, s: nat, hi: nat, lh: nat, j: nat)
    requires s < 4 && hi < 2 && lh < 2 && j < 4
    ensures var k := 64 * kb + 16 * s + 8 * hi + 4 * lh + j;
            k / 64 == kb && k / 16 % 4 == s && k / 8 % 2 == hi && k / 4 % 2 == lh && k % 4 == j
  {
    var k := 64 * kb + 16 * s + 8 * hi + 4 * lh + j;
    DivModUnique(k, 64, kb, 16 * s + 8 * hi + 4 * lh + j);
    DivModUnique(k, 16, 4 * kb + s, 8 * hi + 4 * lh + j);
    DivModUnique(4 * kb + s, 4, kb, s);
    DivModUnique(k, 8, 8 * kb + 2 * s + hi, 4 * lh + j);
    DivModUnique(8 * kb + 2 * s + hi, 2, 4 * kb + s, hi);
    DivModUnique(k, 4, 16 * kb + 4 * s + 2 * hi + lh, j);
    DivModUnique(16 * kb + 4 * s + 2 * hi + lh, 2, 8 * kb + 2 * s + hi, lh);
  }

  lemma PlaceOfSource(c: Coord, i: nat, steps: nat)
    requires InShape(c, steps) && i < 8
    ensures Place(Source(c, i).0, Source(c, i).1) == (c, i)
  {
    hide Place;
    var (row, k) := Source(c, i);
    KDigits(c.ks, c.byte, i % 2, c.half, i / 2);
    assert k == 64 * c.ks + 16 * c.byte + 8 * (i % 2) + 4 * c.half + i / 2;
    DivModUnique(row, 16, c.nt, c.row);
    PlaceIs(row, k, c, i);
  }

  lemma PlaceIs(row: nat, k: nat, c: Coord, i: nat)
    requires row / 16 == c.nt && row % 16 == c.row && i < 8
    requires k / 64 == c.ks && k / 16 % 4 == c.byte && k / 4 % 2 == c.half && k % 4 == i / 2 && k / 8 % 2 == i % 2
    ensures Place(row, k) == (c, i)
  {
  }

  lemma SourceOfPlace(row: nat, k: nat, kb: nat)
    requires k < 64 * kb
    ensures var (c, i) := Place(row, k); InShape(c, kb) && i < 8 && Source(c, i) == (row, k)
  {
    var a, j := k / 4, k % 4;
    var b, lh := a / 2, a % 2;
    var d, hi := b / 2, b % 2;
    KDigits(d / 4, d % 4, hi, lh, j);
    DivModUnique(2 * j + hi, 2, j, hi);
  }

  // ---------------------------------------------------------------------------
  // Words
  // ---------------------------------------------------------------------------

  /** A 4-bit two's complement code in an int8. */
  predicate IsCode(c: bv8) {
    c <= 7 || c >= 0xF8
  }

  function SignExtend(n: bv8): bv8 {
    if n & 0x8 == 0 then n else n | 0xF0
  }

  /** An n-row, 64 kb-column matrix of codes. */
  predicate Rect(q: seq<seq<bv8>>, n: nat, kb: nat) {
    |q| == n && n % 16 == 0 && forall r :: 0 <= r < n ==> |q[r]| == 64 * kb
  }

  predicate AllCodes(q: seq<seq<bv8>>) {
    forall r, k :: 0 <= r < |q| && 0 <= k < |q[r]| ==> IsCode(q[r][k])
  }

  function At4(x: bv32, i: nat): bv32
    requires i < 8
  {
    if i == 0 then x else if i == 1 then x << 4 else if i == 2 then x << 8 else if i == 3 then x << 12
    else if i == 4 then x << 16 else if i == 5 then x << 20 else if i == 6 then x << 24 else x << 28
  }

  predicate IsNibble(x: bv32) {
    x < 16
  }

  function Low(w: bv32): (x: bv32)
    ensures IsNibble(x)
  {
    w & 0xF
  }

  function NibbleAt(w: bv32, i: nat): (x: bv32)
    requires i < 8
    ensures IsNibble(x)
  {
    if i == 0 then Low(w) else if i == 1 then Low(w >> 4) else if i == 2 then Low(w >> 8)
        else if i == 3 then Low(w >> 12)
    else if i == 4 then Low(w >> 16) else if i == 5 then Low(w >> 20) else if i == 6 then Low(w >> 24) else Low(w >> 28)
  }

  lemma SourceInside(n: nat, kb: nat, c: Coord, i: nat)
    requires n % 16 == 0 && c.nt < n / 16 && InShape(c, kb) && i < 8
    ensures Source(c, i).0 < n && Source(c, i).1 < 64 * kb
  {
    MulMonotone(c.ks + 1, kb, 64);
  }

  function Code(q: seq<seq<bv8>>, n: nat, kb: nat, c: Coord, i: nat): bv8
    requires Rect(q, n, kb) && c.nt < n / 16 && InShape(c, kb) && i < 8
  {
    SourceInside(n, kb, c, i);
    q[Source(c, i).0][Source(c, i).1]
  }

  /** The word at c after its first m nibbles. */
  function Partial(q: seq<seq<bv8>>, n: nat, kb: nat, c: Coord, m: nat): bv32
    requires Rect(q, n, kb) && c.nt < n / 16 && InShape(c, kb) && m <= 8
  {
    if m == 0 then 0 else Partial(q, n, kb, c, m - 1) | At4(Nibble(q, n, kb, c, m - 1), m - 1)
  }

  lemma WordInside(p: nat, n: nat, kb: nat)
    requires p < TileBytes(n / 16, kb)
    ensures 0 < kb && InShape(FromFragment(p, kb), kb) && FromFragment(p, kb).nt < n / 16
  {
    HasSteps(n / 16, kb);
    FromFragmentInverse(p, kb);
    hide Fragment, FromFragment, TileBytes;
    TileRange(FromFragment(p, kb), kb, n / 16);
  }

  function PartialAt(q: seq<seq<bv8>>, n: nat, kb: nat, p: nat, m: nat): bv32
    requires Rect(q, n, kb) && p < TileBytes(n / 16, kb) && m <= 8
  {
    WordInside(p, n, kb);
    Partial(q, n, kb, FromFragment(p, kb), m)
  }

  /** The packed weight. */
  function Words(q: seq<seq<bv8>>, n: nat, kb: nat): (ws: seq<bv32>)
    requires Rect(q, n, kb)
    ensures |ws| == TileBytes(n / 16, kb)
  {
    seq(TileBytes(n / 16, kb), p requires 0 <= p < TileBytes(n / 16, kb) => PartialAt(q, n, kb, p, 8))
  }

  function Or8(a: bv32, b: bv32, c: bv32, d: bv32, e: bv32, f: bv32, g: bv32, h: bv32): bv32 {
    0 | a | (b << 4) | (c << 8) | (d << 12) | (e << 16) | (f << 20) | (g << 24) | (h << 28)
  }

  predicate AllNibbles(a: bv32, b: bv32, c: bv32, d: bv32, e: bv32, f: bv32, g: bv32, h: bv32) {
    IsNibble(a) && IsNibble(b) && IsNibble(c) && IsNibble(d) && IsNibble(e) && IsNibble(f) && IsNibble(g) && IsNibble(h)
  }

  /** Eight disjoint nibbles read back one by one. */
  lemma NibblesApart(a: bv32, b: bv32, c: bv32, d: bv32, e: bv32, f: bv32, g: bv32, h: bv32)
    requires AllNibbles(a, b, c, d, e, f, g, h)
    ensures var w := Or8(a, b, c, d, e, f, g, h);
            NibbleAt(w, 0) == a && NibbleAt(w, 1) == b && NibbleAt(w, 2) == c && NibbleAt(w, 3) == d
            && NibbleAt(w, 4) == e && NibbleAt(w, 5) == f && NibbleAt(w, 6) == g && NibbleAt(w, 7) == h
  {
  }

  function Nibble(q: seq<seq<bv8>>, n: nat, kb: nat, c: Coord, i: nat): (x: bv32)
    requires Rect(q, n, kb) && c.nt < n / 16 && InShape(c, kb) && i < 8
    ensures IsNibble(x)
  {
    Masked(Code(q, n, kb, c, i));
    (Code(q, n, kb, c, i) & 0xF) as bv32
  }

  lemma Masked(c: bv8)
    ensures (c & 0xF) as bv32 < 16
    ensures IsCode(c) ==> SignExtend(((c & 0xF) as bv32) as bv8) == c
  {
  }

  lemma WordDecodes(q: seq<seq<bv8>>, n: nat, kb: nat, c: Coord, i: nat)
    requires Rect(q, n, kb) && c.nt < n / 16 && InShape(c, kb) && i < 8
    ensures NibbleAt(Partial(q, n, kb, c, 8), i) == Nibble(q, n, kb, c, i)
  {
    hide Nibble, NibbleAt, Partial, Or8, IsNibble;
    var n0, n1, n2, n3 := Nibble(q, n, kb, c, 0), Nibble(q, n, kb, c, 1), Nibble(q, n, kb, c, 2),
        Nibble(q, n, kb, c, 3);
    var n4, n5, n6, n7 := Nibble(q, n, kb, c, 4), Nibble(q, n, kb, c, 5), Nibble(q, n, kb, c, 6),
        Nibble(q, n, kb, c, 7);
    PartialIs(q, n, kb, c);
    NibblesApart(n0, n1, n2, n3, n4, n5, n6, n7);
    assert i == 0 || i == 1 || i == 2 || i == 3 || i == 4 || i == 5 || i == 6 || i == 7;
  }

  lemma PartialIs(q: seq<seq<bv8>>, n: nat, kb: nat, c: Coord)
    requires Rect(q, n, kb) && c.nt < n / 16 && InShape(c, kb)
    ensures Partial(q, n, kb, c, 8) ==
            Or8(Nibble(q, n, kb, c, 0), Nibble(q, n, kb, c, 1), Nibble(q, n, kb, c, 2), Nibble(q, n, kb, c, 3),
                Nibble(q, n, kb, c, 4), Nibble(q, n, kb, c, 5), Nibble(q, n, kb, c, 6), Nibble(q, n, kb, c, 7))
  {
    hide Nibble, Partial, At4;
    assert Partial(q, n, kb, c, 0) == 0 by { NoNibbles(q, n, kb, c); }
    PartialNext(q, n, kb, c, 0);
    PartialNext(q, n, kb, c, 1);
    PartialNext(q, n, kb, c, 2);
    PartialNext(q, n, kb, c, 3);
    PartialNext(q, n, kb, c, 4);
    PartialNext(q, n, kb, c, 5);
    PartialNext(q, n, kb, c, 6);
    PartialNext(q, n, kb, c, 7);
  }

  lemma NoNibbles(q: seq<seq<bv8>>, n: nat, kb: nat, c: Coord)
    requires Rect(q, n, kb) && c.nt < n / 16 && InShape(c, kb)
    ensures Partial(q, n, kb, c, 0) == 0
  {
  }

  lemma PartialNext(q: seq<seq<bv8>>, n: nat, kb: nat, c: Coord, m: nat)
    requires Rect(q, n, kb) && c.nt < n / 16 && InShape(c, kb) && m < 8
    ensures Partial(q, n, kb, c, m + 1) == Partial(q, n, kb, c, m) | At4(Nibble(q, n, kb, c, m), m)
    ensures var x := Nibble(q, n, kb, c, m);
            At4(x, m) == if m == 0 then x else if m == 1 then x << 4 else if m == 2 then x << 8
                else if m == 3 then x << 12
                         else if m == 4 then x << 16 else if m == 5 then x << 20 else if m == 6 then x << 24
                             else x << 28
  {
    hide Nibble;
  }

  lemma PlaceInside(row: nat, k: nat, n: nat, kb: nat)
    requires n % 16 == 0 && row < n && k < 64 * kb
    ensures var (c, i) := Place(row, k);
            InShape(c, kb) && i < 8 && c.nt < n / 16 && Source(c, i) == (row, k) &&
                Fragment(c, kb) < TileBytes(n / 16, kb)
  {
    hide Fragment, TileBytes;
    SourceOfPlace(row, k, kb);
    TileRange(Place(row, k).0, kb, n / 16);
  }

  /** The decoder: find the word, take the nibble, extend the sign. */
  function Unpack(ws: seq<bv32>, n: nat, kb: nat, row: nat, k: nat): bv8
    requires n % 16 == 0 && |ws| == TileBytes(n / 16, kb) && row < n && k < 64 * kb
  {
    PlaceInside(row, k, n, kb);
    var (c, i) := Place(row, k);
    SignExtend(NibbleAt(ws[Fragment(c, kb)], i) as bv8)
  }

  /** Every signed code is read back exactly. */
  lemma UnpackPack(q: seq<seq<bv8>>, n: nat, kb: nat, row: nat, k: nat)
    requires Rect(q, n, kb) && AllCodes(q) && row < n && k < 64 * kb
    ensures Unpack(Words(q, n, kb), n, kb, row, k) == q[row][k]
  {
    hide Partial, NibbleAt, Fragment, FromFragment, TileBytes, Place, Source, SignExtend;
    PlaceInside(row, k, n, kb);
    var (c, i) := Place(row, k);
    HasSteps(n / 16, kb);
    FragmentInverse(c, kb);
    WordDecodes(q, n, kb, c, i);
    Masked(q[row][k]);
  }

  /** The layout in plain numbers: words run over tile, block, lane half, row and step, and nibble i holds the k at
      offset 4 lh + (0, 8, 1, 9, 2, 10, 3, 11)[i] of its step. */
  lemma NibbleHolds(q: seq<seq<bv8>>, n: nat, kb: nat, t: nat, b: nat, lh: nat, r: nat, s: nat, i: nat)
    requires Rect(q, n, kb) && t < n / 16 && b < kb && lh < 2 && r < 16 && s < 4 && i < 8
    ensures var p := (((t * kb + b) * 2 + lh) * 16 + r) * 4 + s;
            var k := 64 * b + 16 * s + 4 * lh + [0, 8, 1, 9, 2, 10, 3, 11][i];
            && p < |Words(q, n, kb)| && 16 * t + r < n && k < 64 * kb
            && NibbleAt(Words(q, n, kb)[p], i) == (q[16 * t + r][k] & 0xF) as bv32
  {
    var c := Coord(t, r, b, lh, s);
    var p := Fragment(c, kb);
    assert p == (((t * kb + b) * 2 + lh) * 16 + r) * 4 + s;
    SourceInside(n, kb, c, i);
    assert Source(c, i) == (16 * t + r, 64 * b + 16 * s + 4 * lh + [0, 8, 1, 9, 2, 10, 3, 11][i]);
    hide Partial, NibbleAt, Fragment, FromFragment, TileBytes, Source;
    FragmentBelow(c, kb, n / 16);
    FragmentInverse(c, kb);
    WordDecodes(q, n, kb, c, i);
  }

  lemma FragmentBelow(c: Coord, steps: nat, tiles: nat)
    requires InShape(c, steps) && c.nt < tiles
    ensures Fragment(c, steps) < TileBytes(tiles, steps)
  {
    FlatBelow(c.nt, steps, c.ks, tiles);
    hide Flat;
  }

  /** Every nibble of every word holds one code: the two index maps undo each other. */
  lemma EachCodeOnce(n: nat, kb: nat, p: nat, i: nat)
    requires n % 16 == 0 && p < TileBytes(n / 16, kb) && i < 8
    ensures 0 < kb
    ensures var (row, k) := Source(FromFragment(p, kb), i);
            row < n && k < 64 * kb && Place(row, k) == (FromFragment(p, kb), i) && Fragment(Place(row, k).0, kb) == p
  {
    WordInside(p, n, kb);
    hide Fragment, FromFragment, TileBytes, Place, Source;
    SourceInside(n, kb, FromFragment(p, kb), i);
    PlaceOfSource(FromFragment(p, kb), i, kb);
    FromFragmentInverse(p, kb);
  }

  /** pack's accumulation loop: nibble after nibble into every word. */
  method PackWords(q: seq<seq<bv8>>, n: nat, kb: nat) returns (wq: array<bv32>)
    requires Rect(q, n, kb)
    ensures fresh(wq) && wq[..] == Words(q, n, kb)
  {
    hide Fragment, FromFragment, TileBytes, Nibble, At4, Partial;
    var size := TileBytes(n / 16, kb);
    wq := new bv32[size](_ => 0);
    StartZero(q, n, kb);
    for i := 0 to 8
      invariant forall p :: 0 <= p < size ==> wq[p] == PartialAt(q, n, kb, p, i)
    {
      for p := 0 to size
        invariant forall r :: 0 <= r < p ==> wq[r] == PartialAt(q, n, kb, r, i + 1)
        invariant forall r :: p <= r < size ==> wq[r] == PartialAt(q, n, kb, r, i)
      {
        WordInside(p, n, kb);
        NextNibble(q, n, kb, p, i);
        wq[p] := wq[p] | At4(Nibble(q, n, kb, FromFragment(p, kb), i), i);
      }
    }
  }

  lemma StartZero(q: seq<seq<bv8>>, n: nat, kb: nat)
    requires Rect(q, n, kb)
    ensures forall p :: 0 <= p < TileBytes(n / 16, kb) ==> PartialAt(q, n, kb, p, 0) == 0
  {
  }

  lemma NextNibble(q: seq<seq<bv8>>, n: nat, kb: nat, p: nat, i: nat)
    requires Rect(q, n, kb) && p < TileBytes(n / 16, kb) && i < 8
    ensures InShape(FromFragment(p, kb), kb) && 0 < kb && FromFragment(p, kb).nt < n / 16
    ensures PartialAt(q, n, kb, p, i + 1) ==
            PartialAt(q, n, kb, p, i) | At4(Nibble(q, n, kb, FromFragment(p, kb), i), i)
  {
    hide Fragment, FromFragment, TileBytes, Nibble, At4;
    WordInside(p, n, kb);
  }

  // ---------------------------------------------------------------------------
  // Scale words
  // ---------------------------------------------------------------------------

  /** The f16 pattern of -(1024 + 8). */
  const BIAS: bv32 := 0xE408

  function ScaleWord(bits: bv16): bv32 {
    (bits as bv32) | (BIAS << 16)
  }

  predicate ScaleRect(sc: seq<seq<bv16>>, n: nat, g: nat) {
    |sc| == n && n % 16 == 0 && forall r :: 0 <= r < n ==> |sc[r]| == g
  }

  function ScaleCount(n: nat, g: nat): nat {
    16 * Flat(n / 16, g, 0)
  }

  /** The row and group whose scale is word p. */
  function ScaleRow(p: nat, g: nat): nat
    requires 0 < g
  {
    16 * (p / 16 / g) + p % 16
  }

  function ScaleGroup(p: nat, g: nat): (gi: nat)
    requires 0 < g
    ensures gi < g
  {
    p / 16 % g
  }

  lemma ScaleInside(p: nat, n: nat, g: nat)
    requires n % 16 == 0 && p < ScaleCount(n, g)
    ensures 0 < g && ScaleRow(p, g) < n
  {
    if g == 0 {
      assert false;
    }
    FlatOfDivMod(p / 16, g);
    FlatBelow(p / 16 / g, g, p / 16 % g, n / 16);
    hide Flat;
  }

  /** [n-tile][group][row] order. */
  function ScaleWords(sc: seq<seq<bv16>>, n: nat, g: nat): (ws: seq<bv32>)
    requires ScaleRect(sc, n, g)
    ensures |ws| == ScaleCount(n, g)
  {
    seq(ScaleCount(n, g),
        p requires 0 <= p < ScaleCount(n, g) => ScaleInside(p, n, g); ScaleWord(sc[ScaleRow(p, g)][ScaleGroup(p, g)]))
  }

  function ScalePlace(row: nat, gi: nat, g: nat): nat {
    16 * Flat(row / 16, g, gi) + row % 16
  }

  lemma ScaleSlot(row: nat, gi: nat, n: nat, g: nat)
    requires n % 16 == 0 && row < n && gi < g
    ensures var p := ScalePlace(row, gi, g); p < ScaleCount(n, g) && ScaleRow(p, g) == row && ScaleGroup(p, g) == gi
  {
    FlatBelow(row / 16, g, gi, n / 16);
    FlatInverse(row / 16, g, gi);
    hide Flat;
    DivModUnique(16 * Flat(row / 16, g, gi) + row % 16, 16, Flat(row / 16, g, gi), row % 16);
  }

  lemma ScaleHalves(bits: bv16)
    ensures ScaleWord(bits) & 0xFFFF == bits as bv32 && ScaleWord(bits) >> 16 == BIAS
  {
  }

  /** Each group's scale is read back from the low half of its word; the high half is the constant. */
  lemma ScaleDecodes(sc: seq<seq<bv16>>, n: nat, g: nat, row: nat, gi: nat)
    requires ScaleRect(sc, n, g) && row < n && gi < g
    ensures ScalePlace(row, gi, g) < ScaleCount(n, g)
    ensures var w := ScaleWords(sc, n, g)[ScalePlace(row, gi, g)]; w & 0xFFFF == sc[row][gi] as bv32 && w >> 16 == BIAS
  {
    hide Flat, ScaleWord, ScaleRow, ScaleGroup, ScalePlace, ScaleCount;
    ScaleSlot(row, gi, n, g);
    ScaleHalves(sc[row][gi]);
  }

  // ---------------------------------------------------------------------------
  // Rows appended
  // ---------------------------------------------------------------------------

  lemma RectConcat(a: seq<seq<bv8>>, b: seq<seq<bv8>>, na: nat, nb: nat, kb: nat)
    requires Rect(a, na, kb) && Rect(b, nb, kb)
    ensures Rect(a + b, na + nb, kb) && (na + nb) / 16 == na / 16 + nb / 16
  {
  }

  /** Packing whole tiles of rows one batch after another packs all of them. */
  lemma WordsConcat(a: seq<seq<bv8>>, b: seq<seq<bv8>>, na: nat, nb: nat, kb: nat)
    requires Rect(a, na, kb) && Rect(b, nb, kb)
    ensures Rect(a + b, na + nb, kb) && Words(a + b, na + nb, kb) == Words(a, na, kb) + Words(b, nb, kb)
  {
    hide Fragment, FromFragment, TileBytes, PartialAt, Words, Flat, Rect;
    RectConcat(a, b, na, nb, kb);
    TileBytesSum(na / 16, nb / 16, kb);
    var whole, parts := Words(a + b, na + nb, kb), Words(a, na, kb) + Words(b, nb, kb);
    forall p | 0 <= p < |whole| ensures whole[p] == parts[p] {
      WordsConcatAt(a, b, na, nb, kb, p);
    }
  }

  lemma TileBytesSum(ta: nat, tb: nat, steps: nat)
    ensures TileBytes(ta + tb, steps) == TileBytes(ta, steps) + TileBytes(tb, steps)
  {
    FlatShift(ta, steps, 0, tb);
  }

  lemma WordsConcatAt(a: seq<seq<bv8>>, b: seq<seq<bv8>>, na: nat, nb: nat, kb: nat, p: nat)
    requires Rect(a, na, kb) && Rect(b, nb, kb) && Rect(a + b, na + nb, kb)
    requires (na + nb) / 16 == na / 16 + nb / 16 &&
             TileBytes((na + nb) / 16, kb) == TileBytes(na / 16, kb) + TileBytes(nb / 16, kb)
    requires p < TileBytes((na + nb) / 16, kb)
    ensures Words(a + b, na + nb, kb)[p] ==
            if p < TileBytes(na / 16, kb) then Words(a, na, kb)[p] else Words(b, nb, kb)[p - TileBytes(na / 16, kb)]
  {
    hide Fragment, FromFragment, TileBytes, Partial, Flat;
    WordInside(p, na + nb, kb);
    FromFragmentInverse(p, kb);
    var c := FromFragment(p, kb);
    TileRange(c, kb, na / 16);
    if p < TileBytes(na / 16, kb) {
      PartialSame(a + b, a, na + nb, na, kb, c, c, 0, 8);
    } else {
      var d := c.(nt := c.nt - na / 16);
      assert c == d.(nt := d.nt + na / 16);
      TileShift(d, kb, na / 16);
      FragmentInverse(d, kb);
      WordInside(p - TileBytes(na / 16, kb), nb, kb);
      PartialSame(a + b, b, na + nb, nb, kb, c, d, na, 8);
    }
  }

  /** A word depends only on its own sixteen rows. */
  lemma {:induction false} PartialSame(q: seq<seq<bv8>>, r: seq<seq<bv8>>, n: nat, m: nat, kb: nat, c: Coord, d: Coord,
                                       shift: nat, i: nat)
    requires Rect(q, n, kb) && Rect(r, m, kb) && c.nt < n / 16 && d.nt < m / 16 && InShape(c, kb) && InShape(d, kb) &&
             i <= 8
    requires c == d.(nt := c.nt) && 16 * c.nt == 16 * d.nt + shift
    requires forall x :: 0 <= x < m && x + shift < n ==> q[x + shift] == r[x]
    ensures Partial(q, n, kb, c, i) == Partial(r, m, kb, d, i)
  {
    hide At4, Code, Source, Rect;
    if i != 0 {
      PartialSame(q, r, n, m, kb, c, d, shift, i - 1);
      CodeSame(q, r, n, m, kb, c, d, shift, i - 1);
    }
  }

  lemma CodeSame(q: seq<seq<bv8>>, r: seq<seq<bv8>>, n: nat, m: nat, kb: nat, c: Coord, d: Coord, shift: nat, i: nat)
    requires Rect(q, n, kb) && Rect(r, m, kb) && c.nt < n / 16 && d.nt < m / 16 && InShape(c, kb) && InShape(d, kb)
    requires i < 8 && c == d.(nt := c.nt) && 16 * c.nt == 16 * d.nt + shift
    requires forall x :: 0 <= x < m && x + shift < n ==> q[x + shift] == r[x]
    ensures Code(q, n, kb, c, i) == Code(r, m, kb, d, i)
  {
    SourceInside(n, kb, c, i);
    SourceInside(m, kb, d, i);
    var x := Source(d, i).0;
    assert q[x + shift] == r[x];
  }

  lemma ScaleWordsConcat(a: seq<seq<bv16>>, b: seq<seq<bv16>>, na: nat, nb: nat, g: nat)
    requires ScaleRect(a, na, g) && ScaleRect(b, nb, g)
    ensures ScaleRect(a + b, na + nb, g) && ScaleWords(a + b, na + nb, g) == ScaleWords(a, na, g) + ScaleWords(b, nb, g)
  {
    assert (na + nb) / 16 == na / 16 + nb / 16;
    hide ScaleWords, Flat, ScaleWord, ScaleRect;
    ScaleRectConcat(a, b, na, nb, g);
    FlatShift(na / 16, g, 0, nb / 16);
    var whole, parts := ScaleWords(a + b, na + nb, g), ScaleWords(a, na, g) + ScaleWords(b, nb, g);
    forall p | 0 <= p < |whole| ensures whole[p] == parts[p] {
      ScaleConcatAt(a, b, na, nb, g, p);
    }
  }

  lemma ScaleRectConcat(a: seq<seq<bv16>>, b: seq<seq<bv16>>, na: nat, nb: nat, g: nat)
    requires ScaleRect(a, na, g) && ScaleRect(b, nb, g)
    ensures ScaleRect(a + b, na + nb, g)
  {
  }

  lemma ScaleConcatAt(a: seq<seq<bv16>>, b: seq<seq<bv16>>, na: nat, nb: nat, g: nat, p: nat)
    requires ScaleRect(a, na, g) && ScaleRect(b, nb, g) && ScaleRect(a + b, na + nb, g)
    requires ScaleCount(na + nb, g) == ScaleCount(na, g) + ScaleCount(nb, g) && p < ScaleCount(na + nb, g)
    ensures ScaleWords(a + b, na + nb, g)[p] ==
            if p < ScaleCount(na, g) then ScaleWords(a, na, g)[p] else ScaleWords(b, nb, g)[p - ScaleCount(na, g)]
  {
    hide ScaleWord, ScaleRow, ScaleGroup, ScaleCount;
    ScaleInside(p, na + nb, g);
    if p < ScaleCount(na, g) {
      ScaleInside(p, na, g);
    } else {
      ScaleInside(p - ScaleCount(na, g), nb, g);
      ScaleShift(p - ScaleCount(na, g), na, g);
    }
  }

  lemma ScaleShift(p: nat, n: nat, g: nat)
    requires 0 < g && n % 16 == 0
    ensures ScaleRow(p + ScaleCount(n, g), g) == ScaleRow(p, g) + n &&
            ScaleGroup(p + ScaleCount(n, g), g) == ScaleGroup(p, g)
  {
    var t := n / 16;
    var x := p + 16 * (t * g);
    DivModUnique(x, 16, p / 16 + t * g, p % 16);
    DivModUnique(p / 16 + t * g, g, p / 16 / g + t, p / 16 % g);
  }

  // ---------------------------------------------------------------------------
  // The clip search
  // ---------------------------------------------------------------------------

  /** One grid tried for a group: its codes, its scale, its squared error (None is NaN). */
  datatype Grid = Grid(codes: seq<int>, scale: real, sse: Option<real>)

  function Clamp(i: int): (c: int)
    ensures -8 <= c <= 7
  {
    if i < -8 then -8 else if i > 7 then 7 else i
  }

  function Floored(amax: real): (s: real)
    ensures 0.0 < s
  {
    if amax / 7.0 < 0.000000000001 then 0.000000000001 else amax / 7.0
  }

  /** What rounding to f16 does to scales: it keeps order, and takes small ones to zero. */
  ghost predicate Half(f16: real -> real) {
    && (forall s :: 0.0 < s ==> 0.0 <= f16(s))
    && (forall s, t :: s <= t ==> f16(s) <= f16(t))
  }

  /** How far a code lands from the weight. */
  function Off(c: int, s: real, x: real): real {
    c as real * s - x
  }

  function Square(x: real): (y: real)
    ensures 0.0 <= y
  {
    x * x
  }

  function SquaredError(w: seq<real>, codes: seq<int>, s16: real): (e: real)
    requires |codes| == |w|
    ensures 0.0 <= e
  {
    if w == [] then 0.0
    else
      var m := |w| - 1;
      SquaredError(w[..m], codes[..m], s16) + Square(Off(codes[m], s16, w[m]))
  }

  /** The code of one weight.  A scale of zero makes the quotient infinite, which the clamp catches, or 0 / 0, whose
      NaN is taken to convert to the integer 0. */
  function CodeFor(x: real, s16: real): (c: int)
    ensures -8 <= c <= 7
  {
    if s16 != 0.0 then Clamp(Round(x / s16)) else if 0.0 < x then 7 else if x < 0.0 then -8 else 0
  }

  /** Whether some quotient is 0 / 0, which makes the error NaN. */
  predicate Undefined(w: seq<real>, s16: real) {
    s16 == 0.0 && 0.0 in w
  }

  /** _grid for one group. */
  function GridFor(f16: real -> real, w: seq<real>, amax: real): (g: Grid)
    ensures |g.codes| == |w| && forall i :: 0 <= i < |w| ==> -8 <= g.codes[i] <= 7
    ensures g.sse.Some? ==> 0.0 <= g.sse.value
  {
    var scale := Floored(amax);
    var s16 := f16(scale);
    var codes := seq(|w|, i requires 0 <= i < |w| => CodeFor(w[i], s16));
    Grid(codes, scale, if Undefined(w, s16) then None else Some(SquaredError(w, codes, s16)))
  }

  /** `take`: a comparison with NaN is false. */
  predicate Beats(cand: Grid, best: Grid) {
    cand.sse.Some? && best.sse.Some? && cand.sse.value < best.sse.value
  }

  function Abs(x: real): real {
    if x < 0.0 then -x else x
  }

  function AbsMax(w: seq<real>): (m: real)
    ensures 0.0 <= m && forall i :: 0 <= i < |w| ==> Abs(w[i]) <= m
  {
    if w == [] then 0.0
    else
      var m := AbsMax(w[..|w| - 1]);
      if m < Abs(w[|w| - 1]) then Abs(w[|w| - 1]) else m
  }

  /** The i-th clip tried, of `steps`. */
  function Clip(amax: real, i: nat, steps: nat): real
    requires i == 0 || i < steps
  {
    if i == 0 then amax else amax * (1.0 - 0.5 * i as real / steps as real)
  }

  function Tried(f16: real -> real, w: seq<real>, i: nat, steps: nat): Grid
    requires i == 0 || i < steps
  {
    GridFor(f16, w, Clip(AbsMax(w), i, steps))
  }

  /** The grid kept after the first n tries. */
  function Best(f16: real -> real, w: seq<real>, n: nat, steps: nat): Grid
    requires 1 <= n && (n == 1 || n <= steps)
  {
    if n == 1 then Tried(f16, w, 0, steps)
    else
      var best := Best(f16, w, n - 1, steps);
      var cand := Tried(f16, w, n - 1, steps);
      if Beats(cand, best) then cand else best
  }

  function Tries(steps: nat): (n: nat)
    ensures 1 <= n && (n == 1 || n <= steps)
  {
    if steps < 1 then 1 else steps
  }

  // Why the codes are right: nearest for their scale, hence of least error for it.

  function Miss(x: real, s: real, c: int): real {
    Abs(Off(c, s, x))
  }

  lemma RoundNearest(q: real, c: int)
    ensures Abs(Round(q) as real - q) <= Abs(c as real - q)
  {
    hide Round;
    NearestInt(Round(q), q, c);
  }

  lemma NearestInt(r: int, q: real, c: int)
    requires -0.5 <= r as real - q <= 0.5
    ensures Abs(r as real - q) <= Abs(c as real - q)
  {
    if c < r { assert c as real <= (r - 1) as real; }
    if r < c { assert (r + 1) as real <= c as real; }
  }

  lemma ClampNearest(q: real, c: int)
    requires -8 <= c <= 7
    ensures Abs(Clamp(Round(q)) as real - q) <= Abs(c as real - q)
  {
    hide Round;
    RoundNearest(q, c);
  }

  lemma MissInUnits(x: real, s: real, c: int)
    requires 0.0 < s
    ensures Miss(x, s, c) == s * Abs(c as real - x / s)
  {
    var q := x / s;
    assert x == q * s;
    assert c as real * s - x == s * (c as real - q);
    ScaledAbs(s, c as real - q);
  }

  lemma ScaledAbs(s: real, d: real)
    requires 0.0 < s
    ensures Abs(s * d) == s * Abs(d)
  {
    if d < 0.0 { assert s * d < 0.0; } else { assert 0.0 <= s * d; }
  }

  lemma Scaled(s: real, a: real, b: real)
    requires 0.0 < s && a <= b
    ensures s * a <= s * b
  {
  }

  /** No other code is nearer to the weight. */
  lemma CodeIsNearest(x: real, s: real, c: int)
    requires 0.0 < s && -8 <= c <= 7
    ensures Miss(x, s, CodeFor(x, s)) <= Miss(x, s, c)
  {
    hide Round, Clamp, Abs, Miss;
    var q := x / s;
    ClampNearest(q, c);
    MissInUnits(x, s, CodeFor(x, s));
    MissInUnits(x, s, c);
    Scaled(s, Abs(Clamp(Round(q)) as real - q), Abs(c as real - q));
  }

  /** A scale too small for its weight, zero included, leaves the code at the end of the range on the weight's side. */
  lemma EndCode(x: real, s: real)
    requires x != 0.0 && 0.0 <= 9.0 * s <= Abs(x)
    ensures CodeFor(x, s) == if 0.0 < x then 7 else -8
  {
    if s != 0.0 {
      var q := x / s;
      assert x == q * s;
      if 0.0 < x { QuotientPast(q, s, x); } else { QuotientPast(-q, s, -x); }
    }
  }

  lemma QuotientPast(q: real, s: real, x: real)
    requires 0.0 < s && x == q * s && 9.0 * s <= x
    ensures 9.0 <= q
  {
    assert (q - 9.0) * s >= 0.0;
  }

  lemma SquareGrows(a: real, b: real)
    requires 0.0 <= a <= b
    ensures Square(a) <= Square(b)
  {
    var d := b - a;
    assert 0.0 <= a * d && 0.0 <= d * b;
    assert b * b == a * a + a * d + d * b;
    assert Square(a) == a * a && Square(b) == b * b;
  }

  lemma SquareOfMiss(x: real, s: real, c: int)
    ensures Square(Off(c, s, x)) == Square(Miss(x, s, c)) && 0.0 <= Miss(x, s, c)
  {
  }

  /** The error is the sum of the squared misses: of no weight, and of a weight more. */
  lemma ErrorIsSquares(w: seq<real>, codes: seq<int>, x: real, c: int, s: real)
    requires |codes| == |w|
    ensures SquaredError(w + [x], codes + [c], s) == SquaredError(w, codes, s) + Square(Miss(x, s, c))
    ensures SquaredError([], [], s) == 0.0
  {
    SquareOfMiss(x, s, c);
    hide Square, Miss, Off;
    assert (w + [x])[..|w|] == w && (codes + [c])[..|w|] == codes;
    assert (w + [x])[|w|] == x && (codes + [c])[|w|] == c;
    assert SquaredError(w + [x], codes + [c], s) == SquaredError(w, codes, s) + Square(Off(c, s, x));
  }

  /** For its scale a grid's codes have the least error of all codes. */
  lemma {:induction false} NearestHaveLeastError(w: seq<real>, near: seq<int>, codes: seq<int>, s: real)
    requires 0.0 < s && |near| == |codes| == |w|
    requires forall i :: 0 <= i < |w| ==> near[i] == CodeFor(w[i], s) && -8 <= codes[i] <= 7
    ensures SquaredError(w, near, s) <= SquaredError(w, codes, s)
  {
    hide CodeFor, SquaredError, Miss, Square;
    if w == [] {
      ErrorIsSquares([], [], 0.0, 0, s);
    } else {
      var m := |w| - 1;
      NearestHaveLeastError(w[..m], near[..m], codes[..m], s);
      assert w == w[..m] + [w[m]] && near == near[..m] + [near[m]] && codes == codes[..m] + [codes[m]];
      ErrorIsSquares(w[..m], near[..m], w[m], near[m], s);
      ErrorIsSquares(w[..m], codes[..m], w[m], codes[m], s);
      CodeIsNearest(w[m], s, codes[m]);
      SquareOfMiss(w[m], s, near[m]);
      SquareGrows(Miss(w[m], s, near[m]), Miss(w[m], s, codes[m]));
    }
  }

  /** The first scale spans the group: seven steps reach its largest magnitude, unless that is below the floor. */
  lemma FirstScale(f16: real -> real, w: seq<real>, steps: nat)
    requires w != []
    ensures exists k :: 0 <= k < |w| && Abs(w[k]) == AbsMax(w)
    ensures var scale := Tried(f16, w, 0, steps).scale;
            if 0.000000000007 <= AbsMax(w) then 7.0 * scale == AbsMax(w) else scale == 0.000000000001
  {
    hide AbsMax, SquaredError, CodeFor;
    var k := AbsMaxAttained(w);
  }

  /** The i-th of `steps` clips takes i / (2 steps) off the largest magnitude, never more than half, and its scale spans
      what is left in seven steps. */
  lemma ClippedScale(f16: real -> real, w: seq<real>, i: nat, steps: nat)
    requires 0 < i < steps
    ensures AbsMax(w) / 2.0 <= Clip(AbsMax(w), i, steps) <= AbsMax(w)
    ensures 2.0 * (steps as real * (AbsMax(w) - Clip(AbsMax(w), i, steps))) == i as real * AbsMax(w)
    ensures var top, scale := Clip(AbsMax(w), i, steps), Tried(f16, w, i, steps).scale;
            if 0.000000000007 <= top then 7.0 * scale == top else scale == 0.000000000001
  {
    hide AbsMax, SquaredError, CodeFor, Clip;
    ClipShrinks(AbsMax(w), i, steps);
    ClipParts(AbsMax(w), i, steps);
  }

  lemma ShareBelowHalf(i: real, n: real)
    requires 0.0 <= i < n
    ensures 0.0 <= 0.5 * i / n <= 0.5 && (0.5 * i / n) * n == 0.5 * i
  {
  }

  lemma ClipParts(amax: real, i: nat, steps: nat)
    requires 0.0 <= amax && 0 < i < steps
    ensures amax / 2.0 <= Clip(amax, i, steps)
    ensures 2.0 * (steps as real * (amax - Clip(amax, i, steps))) == i as real * amax
  {
    var n, x := steps as real, i as real;
    ShareBelowHalf(x, n);
    var part := 0.5 * x / n;
    CutShare(amax, part, n, x);
    assert Clip(amax, i, steps) == amax * (1.0 - part);
  }

  lemma CutShare(amax: real, part: real, n: real, x: real)
    requires 0.0 <= amax && 0.0 <= part <= 0.5 && part * n == 0.5 * x
    ensures amax / 2.0 <= amax * (1.0 - part)
    ensures 2.0 * (n * (amax - amax * (1.0 - part))) == x * amax
  {
    assert amax - amax * (1.0 - part) == amax * part;
    assert amax * part <= amax * 0.5;
    assert n * (amax * part) == amax * (part * n);
  }

  lemma {:induction false} AbsMaxAttained(w: seq<real>) returns (k: nat)
    requires w != []
    ensures k < |w| && Abs(w[k]) == AbsMax(w)
  {
    var m := |w| - 1;
    if AbsMax(w[..m]) < Abs(w[m]) || m == 0 {
      k := m;
    } else {
      k := AbsMaxAttained(w[..m]);
    }
  }

  /** Clips after the first are no larger. */
  lemma ClipShrinks(amax: real, i: nat, steps: nat)
    requires 0.0 <= amax && (i == 0 || i < steps)
    ensures Clip(amax, i, steps) <= amax
  {
    if i != 0 {
      var part := 0.5 * i as real / steps as real;
      assert 0.0 <= part;
      assert amax * (1.0 - part) == amax - amax * part;
    }
  }

  /** Once the largest scale rounds to zero so does every other: if the first error is NaN, all are. */
  lemma NanStays(f16: real -> real, w: seq<real>, i: nat, steps: nat)
    requires Half(f16) && (i == 0 || i < steps) && Tried(f16, w, 0, steps).sse.None?
    ensures Tried(f16, w, i, steps).sse.None?
  {
    var first, later := Floored(AbsMax(w)), Floored(Clip(AbsMax(w), i, steps));
    hide AbsMax, SquaredError;
    ClipShrinks(AbsMax(w), i, steps);
    assert later <= first;
    assert f16(later) <= f16(first);
  }

  /** The search keeps a grid it tried, of the least error of all tried, and the first such.  NaN errors come all
      together, and then the first grid is kept. */
  lemma {:induction false} BestIsLeast(f16: real -> real, w: seq<real>, n: nat, steps: nat) returns (j: nat)
    requires Half(f16) && 1 <= n && (n == 1 || n <= steps)
    ensures j < n && (j == 0 || j < steps) && Best(f16, w, n, steps) == Tried(f16, w, j, steps)
    ensures forall i: nat :: i < n && Tried(f16, w, i, steps).sse.Some? ==>
              Best(f16, w, n, steps).sse.Some? && Best(f16, w, n, steps).sse.value <= Tried(f16, w, i, steps).sse.value
    ensures forall i: nat :: i < j && Tried(f16, w, i, steps).sse.Some? ==>
              Best(f16, w, n, steps).sse.Some? && Best(f16, w, n, steps).sse.value < Tried(f16, w, i, steps).sse.value
    ensures Best(f16, w, n, steps).sse.Some? <==> Tried(f16, w, 0, steps).sse.Some?
  {
    hide GridFor, Half, Tried;
    if n == 1 {
      j := 0;
    } else {
      j := BestIsLeast(f16, w, n - 1, steps);
      if Beats(Tried(f16, w, n - 1, steps), Best(f16, w, n - 1, steps)) { j := n - 1; }
      if Tried(f16, w, 0, steps).sse.None? { NanStays(f16, w, n - 1, steps); }
    }
  }

  /** The kept error is a number unless the first scale rounds to zero in a group with a zero weight; the group is then
      stored with the scale zero and reads back as zeros whatever its codes. */
  lemma {:induction false} KeptErrorIsNumberIff(f16: real -> real, w: seq<real>, n: nat, steps: nat)
    requires Half(f16) && 1 <= n && (n == 1 || n <= steps)
    ensures Best(f16, w, n, steps).sse.Some? <==> !Undefined(w, f16(Floored(AbsMax(w))))
    ensures Best(f16, w, n, steps).sse.None? ==> f16(Best(f16, w, n, steps).scale) == 0.0
  {
    var j := BestIsLeast(f16, w, n, steps);
    hide Best;
  }

  /** The kept grid beats every choice of codes at every scale tried. */
  lemma BestOverCodes(f16: real -> real, w: seq<real>, n: nat, steps: nat, i: nat, codes: seq<int>)
    requires Half(f16) && 1 <= n && (n == 1 || n <= steps) && i < n && |codes| == |w|
    requires forall k :: 0 <= k < |w| ==> -8 <= codes[k] <= 7
    requires 0.0 < f16(Tried(f16, w, i, steps).scale)
    ensures var best := Best(f16, w, n, steps);
            best.sse.Some? && best.sse.value <= SquaredError(w, codes, f16(Tried(f16, w, i, steps).scale))
  {
    var j := BestIsLeast(f16, w, n, steps);
    var t := Tried(f16, w, i, steps);
    hide Best, SquaredError, CodeFor, Half, Clip, AbsMax;
    NearestHaveLeastError(w, t.codes, codes, f16(t.scale));
  }

  /** The kept codes are those of the kept scale, and the kept error is theirs. */
  lemma {:induction false} BestCodesFor(f16: real -> real, w: seq<real>, n: nat, steps: nat)
    requires 1 <= n && (n == 1 || n <= steps)
    ensures var g := Best(f16, w, n, steps);
            && |g.codes| == |w| && (forall k :: 0 <= k < |w| ==> g.codes[k] == CodeFor(w[k], f16(g.scale)))
            && (g.sse.Some? ==> g.sse.value == SquaredError(w, g.codes, f16(g.scale)))
  {
    hide CodeFor, SquaredError, Clip, AbsMax, Beats;
    if n != 1 { BestCodesFor(f16, w, n - 1, steps); }
  }

  lemma {:induction false} BestIsGrid(f16: real -> real, w: seq<real>, n: nat, steps: nat)
    requires 1 <= n && (n == 1 || n <= steps)
    ensures var g := Best(f16, w, n, steps); |g.codes| == |w| && forall i :: 0 <= i < |w| ==> -8 <= g.codes[i] <= 7
  {
    hide Beats;
    if n != 1 { BestIsGrid(f16, w, n - 1, steps); }
  }

  /** The clip loop of quantize, for one (row, group). */
  method SearchGroup(f16: real -> real, w: seq<real>, steps: nat) returns (best: Grid)
    ensures best == Best(f16, w, Tries(steps), steps)
  {
    hide GridFor;
    best := Tried(f16, w, 0, steps);
    for i := 1 to Tries(steps)
      invariant best == Best(f16, w, i, steps)
    {
      var cand := Tried(f16, w, i, steps);
      if Beats(cand, best) { best := cand; }
    }
  }

  // ---------------------------------------------------------------------------
  // Whole matrices, a chunk of rows at a time
  // ---------------------------------------------------------------------------

  function ToInt8(v: int): (c: bv8)
    requires -8 <= v <= 7
    ensures IsCode(c) && Signed(c) == v
  {
    if v == -8 then 0xF8 else if v == -7 then 0xF9 else if v == -6 then 0xFA else if v == -5 then 0xFB
    else if v == -4 then 0xFC else if v == -3 then 0xFD else if v == -2 then 0xFE else if v == -1 then 0xFF
    else if v == 0 then 0 else if v == 1 then 1 else if v == 2 then 2 else if v == 3 then 3
    else if v == 4 then 4 else if v == 5 then 5 else if v == 6 then 6 else 7
  }

  /** The value of an int8. */
  function Signed(c: bv8): int {
    if c < 0x80 then c as int else c as int - 0x100
  }

  /** The quantiser's parameters: f16 rounding, f16 bit patterns, clip steps. */
  datatype Params = Params(f16: real -> real, bits: real -> bv16, steps: nat)

  function GroupBest(p: Params, row: seq<real>, gi: nat): (g: Grid)
    requires (gi + 1) * GROUP <= |row|
    ensures |g.codes| == GROUP && forall i :: 0 <= i < GROUP ==> -8 <= g.codes[i] <= 7
  {
    BestIsGrid(p.f16, Stretch(row, GROUP, gi), Tries(p.steps), p.steps);
    Best(p.f16, Stretch(row, GROUP, gi), Tries(p.steps), p.steps)
  }

  function RowCodes(p: Params, row: seq<real>): (q: seq<bv8>)
    requires |row| % GROUP == 0
    ensures |q| == |row| && forall k :: 0 <= k < |q| ==> IsCode(q[k])
  {
    seq(|row|, k requires 0 <= k < |row| => ToInt8(GroupBest(p, row, k / GROUP).codes[k % GROUP]))
  }

  function RowScales(p: Params, row: seq<real>): (sc: seq<bv16>)
    requires |row| % GROUP == 0
    ensures |sc| == |row| / GROUP
  {
    seq(|row| / GROUP, gi requires 0 <= gi < |row| / GROUP => p.bits(GroupBest(p, row, gi).scale))
  }

  predicate Matrix(w: seq<seq<real>>, k: nat) {
    k % GROUP == 0 && forall r :: 0 <= r < |w| ==> |w[r]| == k
  }

  lemma WholeBlocks(k: nat)
    requires k % GROUP == 0
    ensures 64 * (k / KPB) == k
  {
    DivModUnique(k, KPB, 2 * (k / GROUP), 0);
  }

  function Codes(p: Params, w: seq<seq<real>>, k: nat): (q: seq<seq<bv8>>)
    requires Matrix(w, k)
    ensures |q| == |w| && AllCodes(q) && (|w| % 16 == 0 ==> Rect(q, |w|, k / KPB))
  {
    hide RowCodes;
    WholeBlocks(k);
    seq(|w|, r requires 0 <= r < |w| => RowCodes(p, w[r]))
  }

  function Scales(p: Params, w: seq<seq<real>>, k: nat): (sc: seq<seq<bv16>>)
    requires Matrix(w, k)
    ensures |sc| == |w| && (|w| % 16 == 0 ==> ScaleRect(sc, |w|, k / GROUP))
  {
    seq(|w|, r requires 0 <= r < |w| => RowScales(p, w[r]))
  }

  method QuantizeRow(p: Params, row: seq<real>) returns (q: seq<bv8>, sc: seq<bv16>)
    requires |row| % GROUP == 0
    ensures q == RowCodes(p, row) && sc == RowScales(p, row)
  {
    hide Best, Tries;
    q, sc := [], [];
    for gi := 0 to |row| / GROUP
      invariant q == RowCodes(p, row)[..gi * GROUP] && sc == RowScales(p, row)[..gi]
    {
      var best := SearchGroup(p.f16, Stretch(row, GROUP, gi), p.steps);
      GroupCodes(p, row, gi, best);
      q := q + seq(GROUP, i requires 0 <= i < GROUP => ToInt8(best.codes[i]));
      sc := sc + [p.bits(best.scale)];
    }
  }

  lemma GroupCodes(p: Params, row: seq<real>, gi: nat, best: Grid)
    requires |row| % GROUP == 0 && gi < |row| / GROUP
    requires best == Best(p.f16, Stretch(row, GROUP, gi), Tries(p.steps), p.steps)
    ensures |best.codes| == GROUP && forall i :: 0 <= i < GROUP ==> -8 <= best.codes[i] <= 7
    ensures RowCodes(p, row)[..(gi + 1) * GROUP] ==
            RowCodes(p, row)[..gi * GROUP] + seq(GROUP, i requires 0 <= i < GROUP => ToInt8(best.codes[i]))
    ensures RowScales(p, row)[gi] == p.bits(best.scale)
  {
    hide Best, Tries, ToInt8;
    assert GroupBest(p, row, gi) == best;
    forall i | 0 <= i < GROUP ensures RowCodes(p, row)[gi * GROUP + i] == ToInt8(best.codes[i]) {
      DivModUnique(gi * GROUP + i, GROUP, gi, i);
    }
  }

  function End(r0: nat, n: nat): nat {
    if r0 + ROWS < n then r0 + ROWS else n
  }

  /** quantize: rows in chunks, written into the outputs. */
  method Quantize(p: Params, w: seq<seq<real>>, k: nat) returns (outQ: array<seq<bv8>>, outS: array<seq<bv16>>)
    requires Matrix(w, k)
    ensures outQ[..] == Codes(p, w, k) && outS[..] == Scales(p, w, k)
  {
    hide RowCodes, RowScales;
    outQ, outS := new seq<bv8>[|w|], new seq<bv16>[|w|];
    var r0 := 0;
    while r0 < |w|
      invariant 0 <= r0 <= |w|
      invariant forall r :: 0 <= r < r0 ==> outQ[r] == RowCodes(p, w[r]) && outS[r] == RowScales(p, w[r])
    {
      var r1 := End(r0, |w|);
      for r := r0 to r1
        invariant forall m :: 0 <= m < r ==> outQ[m] == RowCodes(p, w[m]) && outS[m] == RowScales(p, w[m])
      {
        var q, sc := QuantizeRow(p, w[r]);
        outQ[r], outS[r] := q, sc;
      }
      r0 := r1;
    }
  }

  /** prepare: quantise and pack a chunk of rows at a time, concatenating the results. */
  method Prepare(p: Params, w: seq<seq<real>>, k: nat) returns (wq: seq<bv32>, wsz: seq<bv32>)
    requires Matrix(w, k) && |w| % 16 == 0
    ensures wq == Words(Codes(p, w, k), |w|, k / KPB)
    ensures wsz == ScaleWords(Scales(p, w, k), |w|, k / GROUP)
  {
    hide Matrix, Codes, Scales, Words, ScaleWords, Rect, ScaleRect, End, AllCodes, TileBytes, ScaleCount, Flat;
    wq, wsz := [], [];
    NothingPacked(p, w, k);
    var r0 := 0;
    while r0 < |w|
      invariant 0 <= r0 <= |w| && r0 % 16 == 0 && Matrix(w[..r0], k)
      invariant wq == Words(Codes(p, w[..r0], k), r0, k / KPB)
      invariant wsz == ScaleWords(Scales(p, w[..r0], k), r0, k / GROUP)
    {
      var r1 := End(r0, |w|);
      EndAligned(r0, |w|);
      ChunkAppends(p, w, k, r0, r1);
      var q, sc := Quantize(p, w[r0..r1], k);
      var a := PackWords(q[..], r1 - r0, k / KPB);
      var b := ScaleWords(sc[..], r1 - r0, k / GROUP);
      wq, wsz := wq + a[..], wsz + b;
      r0 := r1;
    }
    assert w[..|w|] == w;
  }

  lemma EndAligned(r0: nat, n: nat)
    requires r0 < n && r0 % 16 == 0 && n % 16 == 0
    ensures var r1 := End(r0, n); r0 < r1 <= n && r1 % 16 == 0 && (r1 - r0) % 16 == 0
  {
  }

  lemma NothingPacked(p: Params, w: seq<seq<real>>, k: nat)
    requires Matrix(w, k)
    ensures Matrix(w[..0], k)
    ensures Words(Codes(p, w[..0], k), 0, k / KPB) == [] && ScaleWords(Scales(p, w[..0], k), 0, k / GROUP) == []
  {
  }

  lemma ChunkAppends(p: Params, w: seq<seq<real>>, k: nat, r0: nat, r1: nat)
    requires Matrix(w, k) && r0 <= r1 <= |w| && r0 % 16 == 0 && r1 % 16 == 0
    ensures Matrix(w[..r0], k) && Matrix(w[r0..r1], k) && Matrix(w[..r1], k)
    ensures Words(Codes(p, w[..r1], k), r1, k / KPB) ==
            Words(Codes(p, w[..r0], k), r0, k / KPB) + Words(Codes(p, w[r0..r1], k), r1 - r0, k / KPB)
    ensures ScaleWords(Scales(p, w[..r1], k), r1, k / GROUP) ==
            ScaleWords(Scales(p, w[..r0], k), r0, k / GROUP) + ScaleWords(Scales(p, w[r0..r1], k), r1 - r0, k / GROUP)
  {
    hide Words, ScaleWords, RowCodes, RowScales;
    assert Codes(p, w[..r1], k) == Codes(p, w[..r0], k) + Codes(p, w[r0..r1], k);
    assert Scales(p, w[..r1], k) == Scales(p, w[..r0], k) + Scales(p, w[r0..r1], k);
    WordsConcat(Codes(p, w[..r0], k), Codes(p, w[r0..r1], k), r0, r1 - r0, k / KPB);
    ScaleWordsConcat(Scales(p, w[..r0], k), Scales(p, w[r0..r1], k), r0, r1 - r0, k / GROUP);
  }

  lemma BlocksCover(k: nat, i: nat)
    requires k % GROUP == 0 && i < k
    ensures i < 64 * (k / KPB) && (i / GROUP + 1) * GROUP <= k
  {
    var g := k / GROUP;
    DivModUnique(k, KPB, 2 * g, 0);
  }

  /** The signed code the kernel reads for (row, i) of a prepared weight. */
  function KernelCode(p: Params, w: seq<seq<real>>, k: nat, row: nat, i: nat): int
    requires Matrix(w, k) && |w| % 16 == 0 && row < |w| && i < k
  {
    BlocksCover(k, i);
    Signed(Unpack(Words(Codes(p, w, k), |w|, k / KPB), |w|, k / KPB, row, i))
  }

  /** What the kernel reads back from a prepared weight is the least-error grid's code. */
  lemma PreparedDecodes(p: Params, w: seq<seq<real>>, k: nat, row: nat, i: nat)
    requires Matrix(w, k) && |w| % 16 == 0 && row < |w| && i < k
    ensures (i / GROUP + 1) * GROUP <= k
    ensures KernelCode(p, w, k, row, i) == GroupBest(p, w[row], i / GROUP).codes[i % GROUP]
  {
    hide Words, Unpack;
    BlocksCover(k, i);
    UnpackPack(Codes(p, w, k), |w|, k / KPB, row, i);
  }

  /** Together with the scale beside it, it is the nearest the kernel can read to the weight: the low half of the scale
      word holds the kept scale, and at that scale no code comes closer. */
  lemma PreparedIsNearest(p: Params, w: seq<seq<real>>, k: nat, row: nat, i: nat, c: int)
    requires Matrix(w, k) && |w| % 16 == 0 && row < |w| && i < k && -8 <= c <= 7
    ensures (i / GROUP + 1) * GROUP <= k && ScalePlace(row, i / GROUP, k / GROUP) < ScaleCount(|w|, k / GROUP)
    ensures var scale := GroupBest(p, w[row], i / GROUP).scale;
            && ScaleWords(Scales(p, w, k), |w|, k / GROUP)[ScalePlace(row, i / GROUP, k / GROUP)] & 0xFFFF
               == p.bits(scale) as bv32
            && (0.0 < p.f16(scale) ==>
                  Miss(w[row][i], p.f16(scale), KernelCode(p, w, k, row, i)) <= Miss(w[row][i], p.f16(scale), c))
  {
    BlocksCover(k, i);
    hide Words, Unpack, ScaleWords, ScalePlace, ScaleCount, Miss, KernelCode, CodeFor, Best;
    PreparedDecodes(p, w, k, row, i);
    ScaleDecodes(Scales(p, w, k), |w|, k / GROUP, row, i / GROUP);
    var ws := Stretch(w[row], GROUP, i / GROUP);
    BestCodesFor(p.f16, ws, Tries(p.steps), p.steps);
    InStretch(w[row], i);
    var scale := GroupBest(p, w[row], i / GROUP).scale;
    if 0.0 < p.f16(scale) { CodeIsNearest(w[row][i], p.f16(scale), c); }
  }

  lemma InStretch(row: seq<real>, i: nat)
    requires |row| % GROUP == 0 && i < |row|
    ensures (i / GROUP + 1) * GROUP <= |row| && i % GROUP < GROUP && Stretch(row, GROUP, i / GROUP)[i % GROUP] == row[i]
  {
    BlocksCover(|row|, i);
  }
}
