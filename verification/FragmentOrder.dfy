/** Row-major and fragment-order positions of a matrix cut into tiles of sixteen rows: the index arithmetic shared by
    the weight layouts. */
module FragmentOrder {
  import opened Arithmetic

  /** n-tile, row in tile, k-step, half, byte. */
  datatype Coord = Coord(nt: nat, row: nat, ks: nat, half: nat, byte: nat)

  predicate InShape(c: Coord, steps: nat) {
    c.row < 16 && c.ks < steps && c.half < 2 && c.byte < 4
  }

  /** Two axes of extents any and m, flattened. */
  function Flat(q: nat, m: nat, r: nat): nat {
    q * m + r
  }

  /** Position in the checkpoint's [n-tile][row][k-step][half][byte] order; `steps` is K/16. */
  function RowMajor(c: Coord, steps: nat): nat {
    8 * Flat(16 * c.nt + c.row, steps, c.ks) + 4 * c.half + c.byte
  }

  /** Position in fragment order, [n-tile][k-step][half][row][byte]. */
  function Fragment(c: Coord, steps: nat): nat {
    128 * Flat(c.nt, steps, c.ks) + 64 * c.half + 4 * c.row + c.byte
  }

  function FromRowMajor(p: nat, steps: nat): Coord
    requires 0 < steps
  {
    var row := p / 8 / steps;
    Coord(row / 16, row % 16, p / 8 % steps, p / 4 % 2, p % 4)
  }

  function FromFragment(p: nat, steps: nat): Coord
    requires 0 < steps
  {
    Coord(p / 128 / steps, p / 4 % 16, p / 128 % steps, p / 64 % 2, p % 4)
  }

  lemma FlatInverse(q: nat, m: nat, r: nat)
    requires r < m
    ensures Flat(q, m, r) / m == q && Flat(q, m, r) % m == r
  {
    DivModUnique(q * m + r, m, q, r);
  }

  lemma FlatOfDivMod(x: nat, m: nat)
    requires 0 < m
    ensures x % m < m && Flat(x / m, m, x % m) == x
  {
  }

  lemma RowMajorDigits(u: nat, h: nat, b: nat)
    requires h < 2 && b < 4
    ensures var x := 8 * u + 4 * h + b; x / 8 == u && x / 4 % 2 == h && x % 4 == b
  {
    var x := 8 * u + 4 * h + b;
    DivModUnique(x, 8, u, 4 * h + b);
    DivModUnique(x, 4, 2 * u + h, b);
    DivModUnique(2 * u + h, 2, u, h);
  }

  lemma FragmentDigits(t: nat, h: nat, r: nat, b: nat)
    requires h < 2 && r < 16 && b < 4
    ensures var x := 128 * t + 64 * h + 4 * r + b; x / 128 == t && x / 64 % 2 == h && x / 4 % 16 == r && x % 4 == b
  {
    var x := 128 * t + 64 * h + 4 * r + b;
    DivModUnique(x, 128, t, 64 * h + 4 * r + b);
    DivModUnique(x, 64, 2 * t + h, 4 * r + b);
    DivModUnique(2 * t + h, 2, t, h);
    DivModUnique(x, 4, 32 * t + 16 * h + r, b);
    DivModUnique(32 * t + 16 * h + r, 16, 2 * t + h, r);
  }

  lemma RowMajorInverse(c: Coord, steps: nat)
    requires 0 < steps && InShape(c, steps)
    ensures FromRowMajor(RowMajor(c, steps), steps) == c
  {
    hide Flat;
    var row := 16 * c.nt + c.row;
    FlatInverse(row, steps, c.ks);
    RowMajorDigits(Flat(row, steps, c.ks), c.half, c.byte);
    DivModUnique(row, 16, c.nt, c.row);
  }

  lemma FragmentInverse(c: Coord, steps: nat)
    requires 0 < steps && InShape(c, steps)
    ensures FromFragment(Fragment(c, steps), steps) == c
  {
    hide Flat;
    FlatInverse(c.nt, steps, c.ks);
    FragmentDigits(Flat(c.nt, steps, c.ks), c.half, c.row, c.byte);
  }

  lemma FromRowMajorInverse(p: nat, steps: nat)
    requires 0 < steps
    ensures InShape(FromRowMajor(p, steps), steps) && RowMajor(FromRowMajor(p, steps), steps) == p
  {
    hide Flat;
    var y := p / 4;
    RowMajorDigits(y / 2, y % 2, p % 4);
    FlatOfDivMod(p / 8, steps);
  }

  lemma FromFragmentInverse(p: nat, steps: nat)
    requires 0 < steps
    ensures InShape(FromFragment(p, steps), steps) && Fragment(FromFragment(p, steps), steps) == p
  {
    hide Flat;
    var y := p / 4;
    var z := y / 16;
    FragmentDigits(z / 2, z % 2, y % 16, p % 4);
    FlatOfDivMod(p / 128, steps);
  }

  /** The number of bytes in `tiles` n-tiles. */
  function TileBytes(tiles: nat, steps: nat): nat {
    128 * Flat(tiles, steps, 0)
  }

  lemma FlatBelow(q: nat, m: nat, r: nat, bound: nat)
    requires r < m
    ensures Flat(q, m, r) < Flat(bound, m, 0) <==> q < bound
  {
    if q < bound { MulMonotone(q + 1, bound, m); } else { MulMonotone(bound, q, m); }
  }

  lemma FlatShift(q: nat, m: nat, r: nat, t: nat)
    ensures Flat(q + t, m, r) == Flat(q, m, r) + Flat(t, m, 0)
  {
  }

  lemma FlatScale(q: nat, m: nat)
    ensures Flat(16 * q, m, 0) == 16 * Flat(q, m, 0)
  {
  }

  /** Both numberings put exactly the n-tiles below `tiles` in the first TileBytes(tiles) positions. */
  lemma TileRange(c: Coord, steps: nat, tiles: nat)
    requires InShape(c, steps)
    ensures Fragment(c, steps) < TileBytes(tiles, steps) <==> c.nt < tiles
    ensures RowMajor(c, steps) < TileBytes(tiles, steps) <==> c.nt < tiles
  {
    hide Flat;
    FlatBelow(c.nt, steps, c.ks, tiles);
    FlatBelow(16 * c.nt + c.row, steps, c.ks, 16 * tiles);
    FlatScale(tiles, steps);
  }

  /** Moving a byte down by whole n-tiles moves it by whole tiles in either numbering. */
  lemma TileShift(c: Coord, steps: nat, tiles: nat)
    ensures Fragment(c.(nt := c.nt + tiles), steps) == Fragment(c, steps) + TileBytes(tiles, steps)
    ensures RowMajor(c.(nt := c.nt + tiles), steps) == RowMajor(c, steps) + TileBytes(tiles, steps)
  {
    hide Flat;
    FlatShift(c.nt, steps, c.ks, tiles);
    FlatShift(16 * c.nt + c.row, steps, c.ks, 16 * tiles);
    FlatScale(tiles, steps);
  }

  lemma HasSteps(tiles: nat, steps: nat)
    requires 0 < TileBytes(tiles, steps)
    ensures 0 < steps
  {
  }
}
