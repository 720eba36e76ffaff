/** The n-gram matcher of the draft controller (radiance_draft_gpu.py): every end position of every context is
    scored by one lane, tiles of lanes race on one packed key per request, and the winning key is decoded into a
    continuation. */
module DraftMatch {
  import opened Arithmetic

  const MAXL: nat := 24
  const MIN: nat := 3
  const SH: nat := 20
  const BLOCK: nat := 512
  const POSITIONS: nat := 0x10_0000

  // ---------------------------------------------------------------------------
  // Bitwise operators on non-negative integers
  // ---------------------------------------------------------------------------

  function Shl(a: nat, k: nat): nat {
    if k == 0 then a else 2 * Shl(a, k - 1)
  }

  function Or(a: nat, b: nat): nat {
    if a == 0 && b == 0 then 0
    else 2 * Or(a / 2, b / 2) + (if a % 2 == 1 || b % 2 == 1 then 1 else 0)
  }

  function And(a: nat, b: nat): nat {
    if a == 0 || b == 0 then 0
    else 2 * And(a / 2, b / 2) + (if a % 2 == 1 && b % 2 == 1 then 1 else 0)
  }

  lemma {:induction false} OrZero(a: nat)
    ensures Or(a, 0) == a
  {
    if a != 0 { OrZero(a / 2); }
  }

  lemma {:induction false} OrAtLeast(a: nat, b: nat)
    ensures Or(a, b) >= a
  {
    if a != 0 || b != 0 { OrAtLeast(a / 2, b / 2); }
  }

  /** A length above a position: the two parts do not touch. */
  lemma {:induction false} OrDisjoint(a: nat, b: nat, k: nat)
    requires b < Shl(1, k)
    ensures Or(Shl(a, k), b) == Shl(a, k) + b
  {
    if k == 0 {
      OrZero(a);
    } else {
      OrDisjoint(a, b / 2, k - 1);
    }
  }

  lemma {:induction false} AndMask(x: nat, k: nat)
    ensures 0 < Shl(1, k) && And(x, Shl(1, k) - 1) == x % Shl(1, k)
  {
    if k != 0 {
      AndMask(x / 2, k - 1);
      var h := Shl(1, k - 1);
      HalvedMod(x, h);
      AndOdd(x, h);
    }
  }

  /** A mask of ones keeps the last bit and masks the rest. */
  lemma AndOdd(x: nat, h: nat)
    requires 0 < h
    ensures And(x, 2 * h - 1) == 2 * And(x / 2, h - 1) + x % 2
  {
    assert (2 * h - 1) / 2 == h - 1 && (2 * h - 1) % 2 == 1;
  }

  lemma HalvedMod(x: nat, h: nat)
    requires 0 < h
    ensures x % (2 * h) == 2 * ((x / 2) % h) + x % 2
  {
    var y := x / 2;
    var d, r := y / h, y % h;
    assert y == d * h + r;
    var rest := 2 * r + x % 2;
    assert x == d * (2 * h) + rest;
    DivModUnique(x, 2 * h, d, rest);
  }

  lemma {:induction false} ShlProduct(a: nat, k: nat)
    ensures Shl(a, k) == a * Shl(1, k)
  {
    if k != 0 { ShlProduct(a, k - 1); }
  }

  lemma Positions()
    ensures Shl(1, SH) == POSITIONS
  {
    assert Shl(1, 7) == 128;
    assert Shl(1, 14) == 16384;
  }

  // ---------------------------------------------------------------------------
  // What a match is
  // ---------------------------------------------------------------------------

  /** The l tokens ending at q equal the last l tokens, q before the last position. */
  predicate Matches(ctx: seq<int>, q: nat, l: nat) {
    q + 1 < |ctx| && l <= q + 1 && ctx[q + 1 - l..q + 1] == ctx[|ctx| - l..]
  }

  /** Token by token: each of the l tokens up to q equals the one as far up to the last. */
  lemma MatchesMeans(ctx: seq<int>, q: nat, l: nat)
    ensures Matches(ctx, q, l) <==>
            q + 1 < |ctx| && l <= q + 1 && forall i :: q + 1 - l <= i <= q ==> ctx[i] == ctx[i + (|ctx| - 1 - q)]
  {
    if q + 1 < |ctx| && l <= q + 1 {
      var a, b := ctx[q + 1 - l..q + 1], ctx[|ctx| - l..];
      if a == b {
        forall i | q + 1 - l <= i <= q ensures ctx[i] == ctx[i + (|ctx| - 1 - q)] {
          assert a[i - (q + 1 - l)] == b[i - (q + 1 - l)];
        }
      } else {
        var t :| 0 <= t < l && a[t] != b[t];
        assert ctx[q + 1 - l + t] != ctx[q + 1 - l + t + (|ctx| - 1 - q)];
      }
    }
  }

  /** The longest suffix match: its end, its length, the latest end on ties. */
  ghost predicate IsBest(ctx: seq<int>, q: nat, l: nat) {
    && 3 <= l <= 24 && Matches(ctx, q, l)
    && forall r: nat, m: nat :: 3 <= m <= 24 && Matches(ctx, r, m) ==> m < l || (m == l && r <= q)
  }

  ghost predicate NoMatch(ctx: seq<int>) {
    forall r: nat, m: nat :: 3 <= m <= 24 ==> !Matches(ctx, r, m)
  }

  function Longest(ctx: seq<int>, q: nat, cap: nat): (l: nat)
    ensures l <= cap && (l != 0 ==> Matches(ctx, q, l))
  {
    if cap == 0 || Matches(ctx, q, cap) then cap else Longest(ctx, q, cap - 1)
  }

  lemma MatchesShorter(ctx: seq<int>, q: nat, l: nat, m: nat)
    requires Matches(ctx, q, l) && m <= l
    ensures Matches(ctx, q, m)
  {
    assert ctx[q + 1 - m..q + 1] == ctx[q + 1 - l..q + 1][l - m..];
    assert ctx[|ctx| - m..] == ctx[|ctx| - l..][l - m..];
  }

  lemma MatchesLonger(ctx: seq<int>, q: nat, l: nat)
    requires Matches(ctx, q, l) && l <= q
    ensures Matches(ctx, q, l + 1) <==> ctx[q - l] == ctx[|ctx| - 1 - l]
  {
    assert ctx[q - l..q + 1] == [ctx[q - l]] + ctx[q + 1 - l..q + 1];
    assert ctx[|ctx| - l - 1..] == [ctx[|ctx| - 1 - l]] + ctx[|ctx| - l..];
  }

  lemma {:induction false} LongestIs(ctx: seq<int>, q: nat, cap: nat, l: nat)
    requires l <= cap && (l == 0 || Matches(ctx, q, l))
    requires forall m :: l < m <= cap ==> !Matches(ctx, q, m)
    ensures Longest(ctx, q, cap) == l
  {
    hide Matches;
    if l < cap { LongestIs(ctx, q, cap - 1, l); }
  }

  lemma {:induction false} LongestBounds(ctx: seq<int>, q: nat, cap: nat, m: nat)
    requires Matches(ctx, q, m) && m <= cap
    ensures m <= Longest(ctx, q, cap)
  {
    if m < cap { LongestBounds(ctx, q, cap - 1, m); }
  }

  // ---------------------------------------------------------------------------
  // The scan kernel
  // ---------------------------------------------------------------------------

  function Pack(l: nat, q: nat): nat {
    if l >= MIN then Or(Shl(l, SH), q) else 0
  }

  function LaneKey(ctx: seq<int>, q: nat): nat {
    Pack(Longest(ctx, q, MAXL), q)
  }

  function Max(a: nat, b: nat): nat {
    if a < b then b else a
  }

  /** The largest key of the lanes lo..hi-1. */
  function SpanKey(ctx: seq<int>, lo: nat, hi: nat): nat
    requires lo <= hi
  {
    if lo == hi then 0 else Max(SpanKey(ctx, lo, hi - 1), LaneKey(ctx, hi - 1))
  }

  function RowKey(ctx: seq<int>): nat {
    SpanKey(ctx, 0, |ctx|)
  }

  lemma {:induction false} SpanHolds(ctx: seq<int>, lo: nat, hi: nat, q: nat)
    requires lo <= q < hi
    ensures LaneKey(ctx, q) <= SpanKey(ctx, lo, hi)
  {
    if q < hi - 1 { SpanHolds(ctx, lo, hi - 1, q); }
  }

  lemma {:induction false} SpanAttained(ctx: seq<int>, lo: nat, hi: nat) returns (q: nat)
    requires lo <= hi && SpanKey(ctx, lo, hi) != 0
    ensures lo <= q < hi && LaneKey(ctx, q) == SpanKey(ctx, lo, hi)
  {
    if SpanKey(ctx, lo, hi) == LaneKey(ctx, hi - 1) {
      q := hi - 1;
    } else {
      q := SpanAttained(ctx, lo, hi - 1);
    }
  }

  /** Whether a lane that has matched k tokens matches one more. */
  lemma LaneStep(row: seq<int>, n: nat, q: nat, k: nat)
    requires n <= |row| && Matches(row[..n], q, k)
    ensures q + 1 < n && k <= q + 1
    ensures Matches(row[..n], q, k + 1) <==> k <= q && row[q - k] == row[n - 1 - k]
  {
    if k <= q { MatchesLonger(row[..n], q, k); }
  }

  lemma LaneStart(ctx: seq<int>, q: nat)
    ensures Matches(ctx, q, 0) <==> q + 1 < |ctx|
    ensures !Matches(ctx, q, 0) ==> !Matches(ctx, q, 1)
  {
    if q + 1 < |ctx| { assert ctx[q + 1..q + 1] == ctx[|ctx|..]; }
  }

  /** A lane that stopped at l has found the longest match. */
  lemma LaneEnds(ctx: seq<int>, q: nat, l: nat)
    requires l <= MAXL && (l == 0 || Matches(ctx, q, l)) && (l < MAXL ==> !Matches(ctx, q, l + 1))
    ensures l == Longest(ctx, q, MAXL)
  {
    hide Longest, Matches;
    forall m | l < m <= MAXL ensures !Matches(ctx, q, m) {
      if Matches(ctx, q, m) { MatchesShorter(ctx, q, m, l + 1); }
    }
    LongestIs(ctx, q, MAXL, l);
  }

  /** One lane of _match_scan: walk back from q and from the last token while both agree. */
  method ScanLane(row: seq<int>, n: nat, q: nat) returns (l: nat)
    requires n <= |row|
    ensures l == Longest(row[..n], q, MAXL)
  {
    hide Longest, Matches;
    var alive := q + 1 < n;
    l := 0;
    LaneStart(row[..n], q);
    for k := 0 to MAXL
      invariant l <= k && (alive ==> l == k && Matches(row[..n], q, k))
      invariant l == 0 || Matches(row[..n], q, l)
      invariant !alive ==> !Matches(row[..n], q, l + 1)
    {
      if alive { LaneStep(row, n, q, k); }
      var sk := n - 1 - k;
      var m := alive && q - k >= 0 && sk >= 0;
      alive := m && row[q - k] == row[sk];
      l := l + if alive then 1 else 0;
    }
    LaneEnds(row[..n], q, l);
  }

  /** One program of _match_scan: the largest key of its tile. */
  method ScanTile(row: seq<int>, n: nat, tile: nat) returns (best: nat)
    requires n <= |row|
    ensures best == SpanKey(row[..n], tile * BLOCK, (tile + 1) * BLOCK)
  {
    hide Longest, Matches;
    best := 0;
    var base := tile * BLOCK;
    for lane := 0 to BLOCK
      invariant best == SpanKey(row[..n], base, base + lane)
    {
      var l := ScanLane(row, n, base + lane);
      best := Max(best, Pack(l, base + lane));
    }
  }

  lemma MatchingLane(ctx: seq<int>, q: nat)
    requires LaneKey(ctx, q) != 0
    ensures q + 1 < |ctx|
  {
    hide Or, Shl;
  }

  /** Lanes past the context are silent, so no tile exceeds its row. */
  lemma TileWithinRow(ctx: seq<int>, lo: nat, hi: nat)
    requires lo <= hi
    ensures SpanKey(ctx, lo, hi) <= RowKey(ctx)
  {
    hide LaneKey;
    if SpanKey(ctx, lo, hi) != 0 {
      var q := SpanAttained(ctx, lo, hi);
      MatchingLane(ctx, q);
      SpanHolds(ctx, 0, |ctx|, q);
    }
  }

  predicate WellFormed(ctx: seq<seq<int>>, ns: seq<nat>) {
    |ctx| == |ns| && forall i :: 0 <= i < |ns| ==> ns[i] <= |ctx[i]|
  }

  function Context(ctx: seq<seq<int>>, ns: seq<nat>, i: nat): seq<int>
    requires WellFormed(ctx, ns) && i < |ns|
  {
    ctx[i][..ns[i]]
  }

  function TileKey(ctx: seq<int>, tile: nat): nat {
    SpanKey(ctx, tile * BLOCK, (tile + 1) * BLOCK)
  }

  /** A launch of rows x tiles programs: any order, each program at least once. */
  ghost predicate CoversGrid(order: seq<(nat, nat)>, rows: nat, tiles: nat) {
    && (forall p <- order :: p.0 < rows && p.1 < tiles)
    && forall i: nat, t: nat :: i < rows && t < tiles ==> (i, t) in order
  }

  function Tiles(nmax: nat): nat {
    (nmax + BLOCK - 1) / BLOCK
  }

  lemma TilesReachRow(ctx: seq<int>, key: nat, tiles: nat)
    requires |ctx| <= tiles * BLOCK && forall t: nat :: t < tiles ==> TileKey(ctx, t) <= key
    ensures RowKey(ctx) <= key
  {
    hide LaneKey;
    if RowKey(ctx) != 0 {
      var q := SpanAttained(ctx, 0, |ctx|);
      var t := q / BLOCK;
      assert TileKey(ctx, t) <= key;
      SpanHolds(ctx, t * BLOCK, (t + 1) * BLOCK, q);
    }
  }

  /** The scan grid, atomic max and all: whatever the order, each key ends as its row's largest lane key. */
  method MatchScan(ctx: seq<seq<int>>, ns: seq<nat>, nmax: nat, key: array<nat>, order: seq<(nat, nat)>)
    requires WellFormed(ctx, ns) && key.Length == |ns| && forall i :: 0 <= i < |ns| ==> ns[i] <= nmax
    requires CoversGrid(order, |ns|, Tiles(nmax)) && forall i :: 0 <= i < key.Length ==> key[i] == 0
    modifies key
    ensures forall i :: 0 <= i < |ns| ==> key[i] == RowKey(Context(ctx, ns, i))
  {
    hide SpanKey, CoversGrid;
    for j := 0 to |order|
      invariant forall i :: 0 <= i < |ns| ==> key[i] <= RowKey(Context(ctx, ns, i))
      invariant forall m :: 0 <= m < j ==>
                order[m].0 < |ns| && TileKey(Context(ctx, ns, order[m].0), order[m].1) <= key[order[m].0]
    {
      var (i, tile) := order[j];
      InGrid(order, |ns|, Tiles(nmax), j);
      var best := ScanTile(ctx[i], ns[i], tile);
      TileWithinRow(Context(ctx, ns, i), tile * BLOCK, (tile + 1) * BLOCK);
      key[i] := Max(key[i], best);
    }
    forall i | 0 <= i < |ns| ensures key[i] == RowKey(Context(ctx, ns, i)) {
      forall t: nat | t < Tiles(nmax) ensures TileKey(Context(ctx, ns, i), t) <= key[i] {
        var m := Launched(order, |ns|, Tiles(nmax), i, t);
      }
      TilesReachRow(Context(ctx, ns, i), key[i], Tiles(nmax));
    }
  }

  lemma InGrid(order: seq<(nat, nat)>, rows: nat, tiles: nat, j: nat)
    requires CoversGrid(order, rows, tiles) && j < |order|
    ensures order[j].0 < rows && order[j].1 < tiles
  {
    assert order[j] in order;
  }

  lemma Launched(order: seq<(nat, nat)>, rows: nat, tiles: nat, i: nat, t: nat) returns (m: nat)
    requires CoversGrid(order, rows, tiles) && i < rows && t < tiles
    ensures m < |order| && order[m] == (i, t)
  {
    assert (i, t) in order;
    m :| 0 <= m < |order| && order[m] == (i, t);
  }

  // ---------------------------------------------------------------------------
  // The gather kernel
  // ---------------------------------------------------------------------------

  function Min(a: nat, b: nat): nat {
    if a < b then a else b
  }

  /** Up to nspec tokens after position q. */
  function After(ctx: seq<int>, q: nat, nspec: nat): seq<int> {
    if q + 1 < |ctx| then ctx[q + 1..Min(q + 1 + nspec, |ctx|)] else []
  }

  function DecodedEnd(key: nat): nat {
    Positions();
    And(key, Shl(1, SH) - 1)
  }

  /** What the controller receives for one context. */
  function Continuation(ctx: seq<int>, nspec: nat): seq<int> {
    if RowKey(ctx) == 0 then [] else After(ctx, DecodedEnd(RowKey(ctx)), nspec)
  }

  /** A slot of the output row: unused slots hold -1. */
  function Slot(c: seq<int>, t: nat): int {
    if t < |c| then c[t] else -1
  }

  /** One program of _match_gather: row i of the output and its count. */
  method GatherRow(row: seq<int>, n: nat, key: nat, i: nat, nspec: nat, cont: array2<int>) returns (count: nat)
    requires n <= |row| && key == RowKey(row[..n]) && i < cont.Length0 && cont.Length1 == nspec
    modifies cont
    ensures count == |Continuation(row[..n], nspec)|
    ensures forall u :: 0 <= u < nspec ==> cont[i, u] == Slot(Continuation(row[..n], nspec), u)
    ensures forall m, u :: 0 <= m < cont.Length0 && 0 <= u < nspec && m != i ==> cont[m, u] == old(cont[m, u])
  {
    hide RowKey, DecodedEnd;
    var start := DecodedEnd(key) + 1;
    var has := key != 0;
    ghost var c := Continuation(row[..n], nspec);
    count := 0;
    for t := 0 to nspec
      invariant count == Min(t, |c|)
      invariant forall m, u :: 0 <= m < cont.Length0 && 0 <= u < nspec && m != i ==> cont[m, u] == old(cont[m, u])
      invariant forall u :: 0 <= u < t ==> cont[i, u] == Slot(c, u)
    {
      var valid := has && start + t < n;
      cont[i, t] := if valid then row[start + t] else -1;
      count := count + if valid then 1 else 0;
    }
  }

  method MatchGather(ctx: seq<seq<int>>, ns: seq<nat>, key: array<nat>, nspec: nat, cont: array2<int>, clen: array<nat>)
    requires WellFormed(ctx, ns) && key.Length == cont.Length0 == clen.Length == |ns| && cont.Length1 == nspec
    requires forall i :: 0 <= i < |ns| ==> key[i] == RowKey(Context(ctx, ns, i))
    requires key != clen
    modifies cont, clen
    ensures forall i :: 0 <= i < |ns| ==> clen[i] == |Continuation(Context(ctx, ns, i), nspec)|
    ensures forall i, t :: 0 <= i < |ns| && 0 <= t < nspec ==>
              cont[i, t] == Slot(Continuation(Context(ctx, ns, i), nspec), t)
  {
    hide RowKey, Continuation, Slot;
    for i := 0 to |ns|
      invariant forall m :: 0 <= m < i ==> clen[m] == |Continuation(Context(ctx, ns, m), nspec)|
      invariant forall m, t :: 0 <= m < i && 0 <= t < nspec ==>
                  cont[m, t] == Slot(Continuation(Context(ctx, ns, m), nspec), t)
    {
      var count := GatherRow(ctx[i], ns[i], key[i], i, nspec, cont);
      clen[i] := count;
    }
  }

  /** match_gpu: fresh keys, the scan grid in any order, then the gather. */
  method MatchGpu(ctx: seq<seq<int>>, ns: seq<nat>, nspec: nat, nmax: nat, order: seq<(nat, nat)>)
    returns (cont: array2<int>, clen: array<nat>)
    requires WellFormed(ctx, ns) && forall i :: 0 <= i < |ns| ==> ns[i] <= nmax
    requires CoversGrid(order, |ns|, Tiles(nmax))
    ensures fresh(cont) && fresh(clen) && cont.Length0 == clen.Length == |ns| && cont.Length1 == nspec
    ensures forall i :: 0 <= i < |ns| ==> clen[i] == |Continuation(Context(ctx, ns, i), nspec)|
    ensures forall i, t :: 0 <= i < |ns| && 0 <= t < nspec ==>
              cont[i, t] == Slot(Continuation(Context(ctx, ns, i), nspec), t)
  {
    hide *;
    var key := new nat[|ns|](_ => 0);
    cont := new int[|ns|, nspec];
    clen := new nat[|ns|];
    MatchScan(ctx, ns, nmax, key, order);
    MatchGather(ctx, ns, key, nspec, cont, clen);
  }

  // ---------------------------------------------------------------------------
  // The packed key finds the longest, latest match
  // ---------------------------------------------------------------------------

  /** `c` holds the tokens right after position q, as many as there are and at most nspec. */
  predicate Continues(ctx: seq<int>, q: nat, nspec: nat, c: seq<int>) {
    && q + 1 < |ctx| && |c| == (if nspec < |ctx| - 1 - q then nspec else |ctx| - 1 - q)
    && forall t :: 0 <= t < |c| ==> c[t] == ctx[q + 1 + t]
  }

  /** What the matcher promises for one context. */
  ghost predicate IsContinuation(ctx: seq<int>, nspec: nat, c: seq<int>) {
    || (NoMatch(ctx) && c == [])
    || exists q: nat, l: nat :: IsBest(ctx, q, l) && Continues(ctx, q, nspec, c)
  }

  lemma AfterContinues(ctx: seq<int>, q: nat, nspec: nat)
    requires q + 1 < |ctx|
    ensures Continues(ctx, q, nspec, After(ctx, q, nspec))
  {
  }

  lemma PackIs(l: nat, q: nat)
    requires MIN <= l && q < POSITIONS
    ensures Pack(l, q) == l * POSITIONS + q
  {
    Positions();
    OrDisjoint(l, q, SH);
    ShlProduct(l, SH);
  }

  lemma LaneKeyIs(ctx: seq<int>, q: nat)
    requires q < POSITIONS
    ensures var l := Longest(ctx, q, MAXL); LaneKey(ctx, q) == if MIN <= l then l * POSITIONS + q else 0
  {
    var l := Longest(ctx, q, MAXL);
    hide Or, Shl;
    if MIN <= l { PackIs(l, q); }
  }

  /** Packed keys order as (length, position). */
  lemma KeyOrder(l: nat, q: nat, m: nat, r: nat)
    requires q < POSITIONS && r < POSITIONS
    ensures m * POSITIONS + r <= l * POSITIONS + q <==> m < l || (m == l && r <= q)
  {
  }

  lemma RowKeyHolds(ctx: seq<int>, r: nat, m: nat)
    requires |ctx| <= POSITIONS + 1 && MIN <= m <= MAXL && Matches(ctx, r, m)
    ensures m * POSITIONS + r <= RowKey(ctx)
  {
    hide Matches, LaneKey;
    MatchInside(ctx, r, m);
    LongestBounds(ctx, r, MAXL, m);
    LaneKeyIs(ctx, r);
    hide Longest;
    SpanHolds(ctx, 0, |ctx|, r);
    KeyOrder(Longest(ctx, r, MAXL), r, m, r);
  }

  lemma MatchInside(ctx: seq<int>, r: nat, m: nat)
    requires Matches(ctx, r, m)
    ensures r + 1 < |ctx|
  {
  }

  lemma LaneDecodes(ctx: seq<int>, q: nat, key: nat)
    requires q < POSITIONS && LaneKey(ctx, q) == key && key != 0
    ensures key % POSITIONS == q && key / POSITIONS == Longest(ctx, q, MAXL) >= MIN && Matches(ctx, q, key / POSITIONS)
  {
    LaneKeyIs(ctx, q);
    hide LaneKey, Matches;
    var l := Longest(ctx, q, MAXL);
    assert MIN <= l && l != 0 && Matches(ctx, q, l);
    DivModUnique(key, POSITIONS, l, q);
  }

  /** The winning key is zero exactly when nothing matches, and otherwise is the best match, packed. */
  lemma KeyDecodes(ctx: seq<int>)
    requires |ctx| <= POSITIONS + 1
    ensures RowKey(ctx) == 0 <==> NoMatch(ctx)
    ensures RowKey(ctx) != 0 ==> IsBest(ctx, RowKey(ctx) % POSITIONS, RowKey(ctx) / POSITIONS)
    ensures DecodedEnd(RowKey(ctx)) == RowKey(ctx) % POSITIONS
  {
    var key := RowKey(ctx);
    Positions();
    AndMask(key, SH);
    hide Matches, And, Shl, LaneKey;
    if key != 0 {
      var q := SpanAttained(ctx, 0, |ctx|);
      MatchingLane(ctx, q);
      LaneDecodes(ctx, q, key);
      hide Longest;
      forall r: nat, m: nat | MIN <= m <= MAXL && Matches(ctx, r, m)
        ensures m < key / POSITIONS || (m == key / POSITIONS && r <= q)
      {
        MatchInside(ctx, r, m);
        RowKeyHolds(ctx, r, m);
        KeyOrder(key / POSITIONS, q, m, r);
      }
    } else {
      forall r: nat, m: nat | MIN <= m <= MAXL ensures !Matches(ctx, r, m) {
        if Matches(ctx, r, m) { RowKeyHolds(ctx, r, m); }
      }
    }
  }

  lemma ExactWithinPositions(ctx: seq<int>, nspec: nat)
    requires |ctx| <= POSITIONS + 1
    ensures IsContinuation(ctx, nspec, Continuation(ctx, nspec))
  {
    KeyDecodes(ctx);
    var q := RowKey(ctx) % POSITIONS;
    if RowKey(ctx) != 0 {
      BestInside(ctx, q, RowKey(ctx) / POSITIONS);
      AfterContinues(ctx, q, nspec);
    }
    hide RowKey, IsBest, NoMatch, After, DecodedEnd, Continues;
  }

  lemma BestInside(ctx: seq<int>, q: nat, l: nat)
    requires IsBest(ctx, q, l)
    ensures q + 1 < |ctx|
  {
  }

  // Beyond 2^20 positions the position bits spill into the length bits: n - 4 equal tokens, then four of another.
  // Three of the four match, one place earlier, and nothing else does.

  /** The low bits of a packed key are those of its position, whether it fits or not. */
  lemma {:induction false} OrLow(a: nat, b: nat, k: nat)
    ensures 0 < Shl(1, k) && Or(Shl(a, k), b) % Shl(1, k) == b % Shl(1, k)
  {
    if k != 0 {
      OrLow(a, b / 2, k - 1);
      HalvedMod(Or(Shl(a, k), b), Shl(1, k - 1));
      HalvedMod(b, Shl(1, k - 1));
    }
  }

  function Tail(n: nat): (ctx: seq<int>)
    requires 4 <= n
    ensures |ctx| == n && forall i :: 0 <= i < n ==> ctx[i] == if i < n - 4 then 7 else 8
  {
    seq(n, i => if i < n - 4 then 7 else 8)
  }

  lemma TailMatches(n: nat, q: nat, m: nat)
    requires 8 <= n && MIN <= m
    ensures Matches(Tail(n), q, m) <==> q == n - 2 && m == MIN
  {
    var ctx := Tail(n);
    if Matches(ctx, q, m) {
      var t := if m == 3 then 0 else m - 4;
      assert ctx[q + 1 - m..q + 1][m - 3] == ctx[n - m..][m - 3] && ctx[q + 1 - m..q + 1][t] == ctx[n - m..][t];
      assert ctx[q - 2] == ctx[n - 3] == 8;
      assert n - 4 <= q - 2;
      assert ctx[q + 1 - m + t] == ctx[n - m + t];
    }
    if q == n - 2 && m == MIN {
      assert ctx[n - 4..n - 1] == [8, 8, 8] == ctx[n - 3..];
      assert q + 1 - m == n - 4 && q + 1 == n - 1 && |ctx| - m == n - 3;
    }
  }

  lemma TailLane(n: nat, q: nat)
    requires 8 <= n
    ensures LaneKey(Tail(n), q) == if q == n - 2 then Or(Shl(MIN, SH), q) else 0
  {
    hide Matches, Or, Shl;
    var l := Longest(Tail(n), q, MAXL);
    TailMatches(n, n - 2, MIN);
    if q == n - 2 { LongestBounds(Tail(n), q, MAXL, MIN); }
    hide Longest;
    if MIN <= l { TailMatches(n, q, l); }
  }

  lemma TailKey(n: nat)
    requires 8 <= n
    ensures RowKey(Tail(n)) != 0 && DecodedEnd(RowKey(Tail(n))) == (n - 2) % POSITIONS
  {
    var ctx := Tail(n);
    OrAtLeast(Shl(MIN, SH), n - 2);
    ShlProduct(MIN, SH);
    OrLow(MIN, n - 2, SH);
    Positions();
    AndMask(RowKey(ctx), SH);
    hide Or, Shl, And, LaneKey;
    TailLane(n, n - 2);
    SpanHolds(ctx, 0, n, n - 2);
    var q := SpanAttained(ctx, 0, n);
    TailLane(n, q);
  }

  /** The length limit is sharp: a context length is matched correctly for every content exactly up to 2^20 + 1. */
  lemma LimitIsSharp(n: nat, nspec: nat)
    requires 1 <= nspec
    ensures (forall ctx: seq<int> :: |ctx| == n ==> IsContinuation(ctx, nspec, Continuation(ctx, nspec))) <==>
            n <= POSITIONS + 1
  {
    if n <= POSITIONS + 1 {
      forall ctx: seq<int> | |ctx| == n ensures IsContinuation(ctx, nspec, Continuation(ctx, nspec)) {
        ExactWithinPositions(ctx, nspec);
      }
    } else {
      WrongBeyond(n, nspec);
    }
  }

  lemma WrongBeyond(n: nat, nspec: nat)
    requires 1 <= nspec && POSITIONS + 1 < n
    ensures !IsContinuation(Tail(n), nspec, Continuation(Tail(n), nspec))
  {
    var ctx := Tail(n);
    TailKey(n);
    TailMatches(n, n - 2, MIN);
    hide RowKey, Matches, DecodedEnd, Tail;
    var e := (n - 2) % POSITIONS;
    assert e + POSITIONS <= n - 2;
    var c := Continuation(ctx, nspec);
    assert c == After(ctx, e, nspec) && c[0] == ctx[e + 1];
    forall q: nat, l: nat | IsBest(ctx, q, l) ensures !Continues(ctx, q, nspec, c) {
      TailMatches(n, q, l);
      assert ctx[n - 1] == 8;
    }
  }
}
