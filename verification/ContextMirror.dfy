/** The incremental token mirror the draft matcher reads (radiance_draft.py, _prepare_match_gpu): each call copies
    only the tokens a request has gained since it was last seen on the same row. */
module ContextMirror {

  type RequestId = nat

  predicate Distinct(ids: seq<RequestId>) {
    forall i, j :: 0 <= i < j < |ids| ==> ids[i] != ids[j]
  }

  /** One call's view of the input batch: the request on each row, its token row, its length. */
  datatype Batch = Batch(ids: seq<RequestId>, src: seq<seq<int>>, ns: seq<nat>) {
    predicate Valid(rows: nat, width: nat) {
      && |ids| == |ns| && |ids| <= |src| == rows
      && (forall i :: 0 <= i < |src| ==> |src[i]| == width)
      && (forall i :: 0 <= i < |ns| ==> ns[i] <= width)
      && Distinct(ids)
    }

    function Tokens(i: nat): seq<int>
      requires i < |ids| == |ns| && |ids| <= |src| && ns[i] <= |src[i]|
    {
      src[i][..ns[i]]
    }
  }

  /** (row, tokens mirrored) by request. */
  type Seen = map<RequestId, (nat, nat)>

  function Mirrored(seen: Seen, id: RequestId, i: nat): nat {
    if id in seen && seen[id].0 == i then seen[id].1 else 0
  }

  function Refresh(row: seq<int>, src: seq<int>, s: nat, n: nat): seq<int>
    requires |row| == |src| && n <= |src|
  {
    if n > s then row[..s] + src[s..n] + row[n..] else row
  }

  /** The mirror's rows and records. */
  datatype State = State(ctx: seq<seq<int>>, seen: Seen) {
    predicate Valid(rows: nat, width: nat) {
      |ctx| == rows && forall i :: 0 <= i < rows ==> |ctx[i]| == width
    }
  }

  function Recorded(b: Batch, rows: nat, width: nat): (seen: Seen)
    requires b.Valid(rows, width)
    ensures forall i :: 0 <= i < |b.ids| ==> b.ids[i] in seen && seen[b.ids[i]] == (i, b.ns[i])
    ensures forall id <- seen :: id in b.ids
  {
    RecordedUpTo(b, |b.ids|, rows, width)
  }

  function RecordedUpTo(b: Batch, k: nat, rows: nat, width: nat): (seen: Seen)
    requires b.Valid(rows, width) && k <= |b.ids|
    ensures forall i :: 0 <= i < k ==> b.ids[i] in seen && seen[b.ids[i]] == (i, b.ns[i])
    ensures forall id <- seen :: id in b.ids[..k]
  {
    if k == 0 then map[] else RecordedUpTo(b, k - 1, rows, width)[b.ids[k - 1] := (k - 1, b.ns[k - 1])]
  }

  function PreparedRow(st: State, b: Batch, i: nat, rows: nat, width: nat): (row: seq<int>)
    requires st.Valid(rows, width) && b.Valid(rows, width) && i < rows
    ensures |row| == width
  {
    if i < |b.ids| then Refresh(st.ctx[i], b.src[i], Mirrored(st.seen, b.ids[i], i), b.ns[i]) else st.ctx[i]
  }

  /** What one call makes of the mirror. */
  function Prepared(st: State, b: Batch, rows: nat, width: nat): (next: State)
    requires st.Valid(rows, width) && b.Valid(rows, width)
    ensures next.Valid(rows, width)
    ensures b.ids == [] ==> next == st
    ensures b.ids != [] ==> next.seen == Recorded(b, rows, width)
    ensures b.ids != [] ==> forall i :: 0 <= i < rows ==> next.ctx[i] == PreparedRow(st, b, i, rows, width)
  {
    if b.ids == [] then st
    else
      hide PreparedRow;
      State(seq(rows, i requires 0 <= i < rows => PreparedRow(st, b, i, rows, width)), Recorded(b, rows, width))
  }

  /** Whether the longest context is worth a matcher launch. */
  method LongEnough(ns: seq<nat>) returns (matched: bool)
    requires ns != []
    ensures matched <==> exists n <- ns :: n >= 3
  {
    var nmax := ns[0];
    for i := 1 to |ns|
      invariant nmax in ns && forall m :: 0 <= m < i ==> ns[m] <= nmax
    {
      if ns[i] > nmax { nmax := ns[i]; }
    }
    matched := nmax >= 3;
  }

  class Mirror {
    const rows: nat
    const width: nat
    const ctx: array<seq<int>>
    var seen: Seen

    ghost predicate Valid()
      reads this, ctx
    {
      ctx.Length == rows && forall i :: 0 <= i < rows ==> |ctx[i]| == width
    }

    ghost function Contents(): State
      reads this, ctx
    {
      State(ctx[..], seen)
    }

    /** The first non-empty call allocates a zeroed mirror. */
    constructor (rows: nat, width: nat)
      ensures Valid() && fresh(ctx) && this.rows == rows && this.width == width
      ensures Contents() == State(seq(rows, _ => seq(width, _ => 0)), map[])
    {
      this.rows, this.width := rows, width;
      ctx := new seq<int>[rows](_ => seq(width, _ => 0));
      seen := map[];
      new;
      assert ctx[..] == seq(rows, _ => seq(width, _ => 0));
    }

    /** Copy the tokens row i has gained past s. */
    method CopyTail(i: nat, src: seq<int>, s: nat, n: nat)
      requires Valid() && i < rows && |src| == width && n <= width
      modifies ctx
      ensures Valid() && ctx[i] == Refresh(old(ctx[i]), src, s, n)
      ensures forall m :: 0 <= m < rows && m != i ==> ctx[m] == old(ctx[m])
    {
      if n > s {
        ctx[i] := ctx[i][..s] + src[s..n] + ctx[i][n..];
      }
    }

    /** The first i requests of the batch are copied and recorded. */
    ghost predicate Copied(b: Batch, st: State, i: nat)
      requires Valid() && b.Valid(rows, width) && st.Valid(rows, width) && i <= |b.ids|
      reads this, ctx
    {
      && (forall m :: 0 <= m < i ==> ctx[m] == PreparedRow(st, b, m, rows, width))
      && (forall m :: i <= m < rows ==> ctx[m] == st.ctx[m])
      && seen == st.seen + RecordedUpTo(b, i, rows, width)
    }

    lemma CopiedNone(b: Batch, st: State)
      requires Valid() && b.Valid(rows, width) && st == Contents() && st.Valid(rows, width)
      ensures Copied(b, st, 0)
    {
      StartRecording(st.seen, b, rows, width);
    }

    /** One request: copy what it gained and record it. */
    method CopyRow(b: Batch, ghost st: State, i: nat)
      requires Valid() && b.Valid(rows, width) && st.Valid(rows, width) && i < |b.ids| && Copied(b, st, i)
      modifies this, ctx
      ensures Valid() && Copied(b, st, i + 1)
    {
      hide RecordedUpTo, Refresh, Mirrored, Distinct;
      RecordOne(st.seen, b, i, rows, width);
      var s := Mirrored(seen, b.ids[i], i);
      CopyTail(i, b.src[i], s, b.ns[i]);
      seen := seen[b.ids[i] := (i, b.ns[i])];
    }

    /** The loop over the batch: copy what each request gained, record where it now stands. */
    method CopyRows(b: Batch, ghost st: State)
      requires Valid() && b.Valid(rows, width) && st == Contents() && st.Valid(rows, width)
      modifies this, ctx
      ensures Valid() && Copied(b, st, |b.ids|)
    {
      hide *;
      CopiedNone(b, st);
      for i := 0 to |b.ids|
        invariant Valid() && Copied(b, st, i)
      {
        CopyRow(b, st, i);
      }
    }

    /** _prepare_match_gpu up to the matcher launch; `matched` says whether the matcher is launched. */
    method Prepare(b: Batch) returns (matched: bool)
      requires Valid() && b.Valid(rows, width)
      modifies this, ctx
      ensures Valid() && Contents() == Prepared(old(Contents()), b, rows, width)
      ensures matched <==> exists n <- b.ns :: n >= 3
    {
      hide RecordedUpTo, PreparedRow, Distinct, Prepared, Recorded, Live;
      ghost var st := Contents();
      assert st.Valid(rows, width);
      if b.ids == [] { return false; }
      CopyRows(b, st);
      Pruned(st.seen, b, rows, width);
      seen := Live(seen, b.ids);
      PreparedIs(st, b, rows, width, ctx[..]);
      matched := LongEnough(b.ns);
    }
  }

  lemma PreparedIs(st: State, b: Batch, rows: nat, width: nat, ctx: seq<seq<int>>)
    requires st.Valid(rows, width) && b.Valid(rows, width) && b.ids != [] && |ctx| == rows
    requires forall m :: 0 <= m < |b.ids| ==> ctx[m] == PreparedRow(st, b, m, rows, width)
    requires forall m :: |b.ids| <= m < rows ==> ctx[m] == st.ctx[m]
    ensures Prepared(st, b, rows, width) == State(ctx, Recorded(b, rows, width))
  {
    hide Refresh, Mirrored, Recorded;
    assert Prepared(st, b, rows, width).ctx == ctx;
  }

  lemma StartRecording(seen: Seen, b: Batch, rows: nat, width: nat)
    requires b.Valid(rows, width)
    ensures seen == seen + RecordedUpTo(b, 0, rows, width)
  {
  }

  /** Recording a request neither looks at nor loses what this call recorded before it. */
  lemma RecordOne(seen: Seen, b: Batch, i: nat, rows: nat, width: nat)
    requires b.Valid(rows, width) && i < |b.ids|
    ensures var now := seen + RecordedUpTo(b, i, rows, width);
            Mirrored(now, b.ids[i], i) == Mirrored(seen, b.ids[i], i)
            && now[b.ids[i] := (i, b.ns[i])] == seen + RecordedUpTo(b, i + 1, rows, width)
  {
    NotYetRecorded(b, i, rows, width);
    assert RecordedUpTo(b, i + 1, rows, width) == RecordedUpTo(b, i, rows, width)[b.ids[i] := (i, b.ns[i])];
    hide *;
    UpdateSum(seen, RecordedUpTo(b, i, rows, width), b.ids[i], i, b.ns[i]);
  }

  lemma UpdateSum(a: Seen, r: Seen, id: RequestId, i: nat, n: nat)
    requires id !in r
    ensures (a + r)[id := (i, n)] == a + r[id := (i, n)] && Mirrored(a + r, id, i) == Mirrored(a, id, i)
  {
  }

  /** Drop the records of requests that are gone. */
  function Live(seen: Seen, ids: seq<RequestId>): Seen {
    map id | id in seen && id in ids :: seen[id]
  }

  lemma NotYetRecorded(b: Batch, i: nat, rows: nat, width: nat)
    requires b.Valid(rows, width) && i < |b.ids|
    ensures b.ids[i] !in RecordedUpTo(b, i, rows, width)
  {
    hide RecordedUpTo;
  }

  lemma Pruned(seen: Seen, b: Batch, rows: nat, width: nat)
    requires b.Valid(rows, width)
    ensures Live(seen + RecordedUpTo(b, |b.ids|, rows, width), b.ids) == Recorded(b, rows, width)
  {
    hide RecordedUpTo;
    assert b.ids[..|b.ids|] == b.ids;
  }

  // ---------------------------------------------------------------------------
  // Whole runs
  // ---------------------------------------------------------------------------

  ghost predicate RunFits(run: seq<Batch>, rows: nat, width: nat) {
    forall b <- run :: b.Valid(rows, width)
  }

  function Fresh(rows: nat, width: nat): (st: State)
    ensures st.Valid(rows, width)
  {
    State(seq(rows, _ => seq(width, _ => 0)), map[])
  }

  /** The mirror after the first t calls. */
  function AfterCalls(run: seq<Batch>, t: nat, rows: nat, width: nat): (st: State)
    requires RunFits(run, rows, width) && t <= |run|
    ensures st.Valid(rows, width)
  {
    if t == 0 then Fresh(rows, width) else Prepared(AfterCalls(run, t - 1, rows, width), run[t - 1], rows, width)
  }

  /** Every live row of the batch is mirrored. */
  predicate Mirrors(st: State, b: Batch, rows: nat, width: nat)
    requires st.Valid(rows, width) && b.Valid(rows, width)
  {
    forall i :: 0 <= i < |b.ids| ==> st.ctx[i][..b.ns[i]] == b.Tokens(i)
  }

  function Least(a: nat, b: nat): nat {
    if a < b then a else b
  }

  /** A request on row i of one batch and row j of another keeps the tokens the two have in common. */
  predicate Keeps(a: Batch, i: nat, b: Batch, j: nat, rows: nat, width: nat)
    requires a.Valid(rows, width) && b.Valid(rows, width) && i < |a.ids| && j < |b.ids|
  {
    var c := Least(a.ns[i], b.ns[j]);
    a.src[i][..c] == b.src[j][..c]
  }

  /** Already-seen tokens of a request live in both batches do not change. */
  predicate Stable(a: Batch, b: Batch, rows: nat, width: nat)
    requires a.Valid(rows, width) && b.Valid(rows, width)
  {
    forall i, j :: 0 <= i < |a.ids| && 0 <= j < |b.ids| && a.ids[i] == b.ids[j] ==> Keeps(a, i, b, j, rows, width)
  }

  /** The mirror holds exactly the batch: its live rows and its records. */
  predicate Holds(st: State, b: Batch, rows: nat, width: nat)
    requires st.Valid(rows, width) && b.Valid(rows, width)
  {
    Mirrors(st, b, rows, width) && st.seen == Recorded(b, rows, width)
  }

  /** One non-empty call carries the mirror from one batch to a stable successor. */
  lemma PreparedHolds(st: State, a: Batch, b: Batch, rows: nat, width: nat)
    requires st.Valid(rows, width) && a.Valid(rows, width) && b.Valid(rows, width) && b.ids != []
    requires Holds(st, a, rows, width) && Stable(a, b, rows, width)
    ensures Holds(Prepared(st, b, rows, width), b, rows, width)
  {
    var next := Prepared(st, b, rows, width);
    forall j | 0 <= j < |b.ids| ensures next.ctx[j][..b.ns[j]] == b.Tokens(j) {
      RowCaughtUp(st, a, b, j, rows, width);
    }
  }

  lemma RowCaughtUp(st: State, a: Batch, b: Batch, j: nat, rows: nat, width: nat)
    requires st.Valid(rows, width) && a.Valid(rows, width) && b.Valid(rows, width) && j < |b.ids|
    requires Holds(st, a, rows, width) && Stable(a, b, rows, width)
    ensures Prepared(st, b, rows, width).ctx[j][..b.ns[j]] == b.Tokens(j)
  {
    var s, n := Mirrored(st.seen, b.ids[j], j), b.ns[j];
    hide Refresh;
    if s != 0 { SeenPrefix(st, a, b, j, rows, width); }
    RefreshCatchesUp(st.ctx[j], b.src[j], s, n);
  }

  lemma SeenPrefix(st: State, a: Batch, b: Batch, j: nat, rows: nat, width: nat)
    requires st.Valid(rows, width) && a.Valid(rows, width) && b.Valid(rows, width) && j < |b.ids|
    requires Holds(st, a, rows, width) && Stable(a, b, rows, width) && Mirrored(st.seen, b.ids[j], j) != 0
    ensures var s := Mirrored(st.seen, b.ids[j], j); s <= width && Agree(st.ctx[j], b.src[j], Least(s, b.ns[j]))
  {
    hide RecordedUpTo, Distinct;
    var s := Mirrored(st.seen, b.ids[j], j);
    var i :| 0 <= i < |a.ids| && a.ids[i] == b.ids[j];
    assert i == j && s == a.ns[j] && Keeps(a, j, b, j, rows, width);
    assert st.ctx[j][..a.ns[j]] == a.Tokens(j);
    var row, one, two := st.ctx[j], a.src[j], b.src[j];
    hide *;
    PrefixChain(row, one, two, s, Least(s, b.ns[j]));
  }

  predicate Agree(x: seq<int>, y: seq<int>, c: nat) {
    c <= |x| && c <= |y| && forall k :: 0 <= k < c ==> x[k] == y[k]
  }

  lemma PrefixChain(x: seq<int>, y: seq<int>, z: seq<int>, s: nat, c: nat)
    requires c <= s <= |x| == |y| == |z| && x[..s] == y[..s] && y[..c] == z[..c]
    ensures Agree(x, z, c)
  {
    forall k | 0 <= k < c ensures x[k] == z[k] {
      assert x[..s][k] == y[..s][k] && y[..c][k] == z[..c][k];
    }
  }

  lemma RefreshCatchesUp(row: seq<int>, src: seq<int>, s: nat, n: nat)
    requires |row| == |src| && n <= |src| && Agree(row, src, Least(s, n))
    ensures Refresh(row, src, s, n)[..n] == src[..n]
  {
  }

  /** The state a mirror with nothing recorded is in before its first non-empty call. */
  lemma FirstHolds(st: State, b: Batch, rows: nat, width: nat)
    requires st.Valid(rows, width) && b.Valid(rows, width) && b.ids != [] && st.seen == map[]
    ensures Holds(Prepared(st, b, rows, width), b, rows, width)
  {
    hide Refresh, RecordedUpTo;
    var next := Prepared(st, b, rows, width);
    forall j | 0 <= j < |b.ids| ensures next.ctx[j][..b.ns[j]] == b.Tokens(j) {
      RefreshCatchesUp(st.ctx[j], b.src[j], 0, b.ns[j]);
    }
  }

  /** The last non-empty call among the first t. */
  function LastLive(run: seq<Batch>, t: nat): (l: int)
    requires t <= |run|
    ensures -1 <= l < t && (l != -1 ==> run[l].ids != []) && forall u :: l < u < t ==> run[u].ids == []
  {
    if t == 0 then -1 else if run[t - 1].ids != [] then t - 1 else LastLive(run, t - 1)
  }

  /** Stability across the calls that matter to the code: each non-empty call and the last non-empty one before. */
  ghost predicate StableAcrossGaps(run: seq<Batch>, rows: nat, width: nat)
    requires RunFits(run, rows, width)
  {
    forall t :: 0 <= t < |run| && run[t].ids != [] && LastLive(run, t) != -1 ==>
      Stable(run[LastLive(run, t)], run[t], rows, width)
  }

  /** After any number of calls the mirror holds the last non-empty batch. */
  lemma {:induction false} MirrorHolds(run: seq<Batch>, t: nat, rows: nat, width: nat)
    requires RunFits(run, rows, width) && t <= |run| && StableAcrossGaps(run, rows, width)
    ensures var l := LastLive(run, t);
            if l == -1 then AfterCalls(run, t, rows, width) == Fresh(rows, width)
            else Holds(AfterCalls(run, t, rows, width), run[l], rows, width)
  {
    hide Holds, Stable, Prepared, Fresh, Recorded;
    if t != 0 {
      MirrorHolds(run, t - 1, rows, width);
      var st, b := AfterCalls(run, t - 1, rows, width), run[t - 1];
      if b.ids == [] {
        EmptyCall(st, b, rows, width);
      } else if LastLive(run, t - 1) == -1 {
        NothingSeen(rows, width);
        FirstHolds(st, b, rows, width);
      } else {
        PreparedHolds(st, run[LastLive(run, t - 1)], b, rows, width);
      }
    }
  }

  lemma EmptyCall(st: State, b: Batch, rows: nat, width: nat)
    requires st.Valid(rows, width) && b.Valid(rows, width) && b.ids == []
    ensures Prepared(st, b, rows, width) == st
  {
  }

  lemma NothingSeen(rows: nat, width: nat)
    ensures Fresh(rows, width).seen == map[]
  {
  }

  /** The mirror is right after every call of a run. */
  ghost predicate AlwaysMirrors(run: seq<Batch>, rows: nat, width: nat)
    requires RunFits(run, rows, width)
  {
    forall t :: 0 <= t < |run| ==> Mirrors(AfterCalls(run, t + 1, rows, width), run[t], rows, width)
  }

  lemma MirrorIsExact(run: seq<Batch>, rows: nat, width: nat)
    requires RunFits(run, rows, width) && StableAcrossGaps(run, rows, width)
    ensures AlwaysMirrors(run, rows, width)
  {
    hide AfterCalls, StableAcrossGaps, Mirrors;
    forall t | 0 <= t < |run| ensures Mirrors(AfterCalls(run, t + 1, rows, width), run[t], rows, width) {
      MirrorsAfter(run, t, rows, width);
    }
  }

  lemma MirrorsAfter(run: seq<Batch>, t: nat, rows: nat, width: nat)
    requires RunFits(run, rows, width) && t < |run| && StableAcrossGaps(run, rows, width)
    ensures Mirrors(AfterCalls(run, t + 1, rows, width), run[t], rows, width)
  {
    hide AfterCalls, StableAcrossGaps, Recorded, Fresh, Prepared;
    MirrorHolds(run, t + 1, rows, width);
  }

  // ---------------------------------------------------------------------------
  // Empty calls
  // ---------------------------------------------------------------------------

  /** Tokens of a request live in two consecutive calls do not change. */
  ghost predicate StableWhileLive(run: seq<Batch>, rows: nat, width: nat)
    requires RunFits(run, rows, width)
  {
    forall t :: 1 <= t < |run| ==> Stable(run[t - 1], run[t], rows, width)
  }

  ghost predicate HasShape(run: seq<Batch>, shape: seq<bool>) {
    |run| == |shape| && forall t :: 0 <= t < |run| ==> (shape[t] <==> run[t].ids != [])
  }

  /** No empty call lies between two non-empty ones. */
  ghost predicate NoGap(shape: seq<bool>) {
    forall t, u, v :: 0 <= t < u < v < |shape| && shape[t] && shape[v] ==> shape[u]
  }

  lemma NoGapIsStable(run: seq<Batch>, shape: seq<bool>, rows: nat, width: nat)
    requires RunFits(run, rows, width) && HasShape(run, shape) && NoGap(shape) && StableWhileLive(run, rows, width)
    ensures StableAcrossGaps(run, rows, width)
  {
    hide Stable;
    forall t | 0 <= t < |run| && run[t].ids != [] && LastLive(run, t) != -1
      ensures Stable(run[LastLive(run, t)], run[t], rows, width)
    {
      var l := LastLive(run, t);
      assert shape[l] && shape[t] && (l < t - 1 ==> shape[t - 1]);
    }
  }

  // A run in which the only request comes back after an empty call with another token.

  function One(token: int): Batch {
    Batch([0], [[token]], [1])
  }

  function Returning(shape: seq<bool>, gap: nat): (run: seq<Batch>)
    ensures |run| == |shape|
  {
    seq(|shape|, t requires 0 <= t < |shape| => if !shape[t] then Batch([], [[0]], [])
        else One(if t < gap then 1 else 2))
  }

  lemma ReturningFits(shape: seq<bool>, gap: nat)
    requires gap < |shape| && !shape[gap]
    ensures RunFits(Returning(shape, gap), 1, 1) && HasShape(Returning(shape, gap), shape)
    ensures StableWhileLive(Returning(shape, gap), 1, 1)
  {
    var run := Returning(shape, gap);
    forall b | b in run ensures b.Valid(1, 1) {
    }
    forall t | 1 <= t < |run| ensures Stable(run[t - 1], run[t], 1, 1) {
    }
  }

  lemma OneRecorded(token: int)
    ensures One(token).Valid(1, 1) && Recorded(One(token), 1, 1) == map[0 := (0, 1)]
  {
    var b := One(token);
    assert b.ids[0] == 0;
    assert 0 in Recorded(b, 1, 1);
  }

  /** The first sighting copies the token. */
  lemma OneFirst(token: int)
    ensures One(token).Valid(1, 1)
    ensures Prepared(Fresh(1, 1), One(token), 1, 1) == State([[token]], map[0 := (0, 1)])
  {
    OneRecorded(token);
    hide Recorded;
    var st := Fresh(1, 1);
    var next := Prepared(st, One(token), 1, 1);
    assert next.ctx[0] == Refresh(st.ctx[0], [token], 0, 1) == [token];
    assert next.ctx == [[token]];
  }

  /** Any later sighting on the same row copies nothing. */
  lemma OneAgain(st: State, token: int)
    requires st.Valid(1, 1) && st.seen == map[0 := (0, 1)]
    ensures One(token).Valid(1, 1) && Prepared(st, One(token), 1, 1) == st
  {
    OneRecorded(token);
    hide Recorded;
    var next := Prepared(st, One(token), 1, 1);
    assert next.ctx[0] == st.ctx[0];
    assert next.ctx == st.ctx;
  }

  /** Up to the gap the mirror is fresh or holds the first token, and through the gap it stays so. */
  lemma {:induction false} StaysAtFirst(shape: seq<bool>, gap: nat, t: nat)
    requires gap < |shape| && t <= |shape| && forall u :: gap <= u < t ==> !shape[u]
    requires RunFits(Returning(shape, gap), 1, 1) && HasShape(Returning(shape, gap), shape)
    ensures AfterCalls(Returning(shape, gap), t, 1, 1) ==
            if LastLive(Returning(shape, gap), t) == -1 then Fresh(1, 1) else State([[1]], map[0 := (0, 1)])
  {
    hide Fresh, Prepared;
    if t != 0 {
      StaysAtFirst(shape, gap, t - 1);
      if shape[t - 1] {
        OneFirst(1);
        OneAgain(State([[1]], map[0 := (0, 1)]), 1);
      }
    }
  }

  /** The returning request is not mirrored. */
  lemma ReturnMissed(shape: seq<bool>, before: nat, gap: nat, after: nat)
    requires before < gap < after < |shape| && shape[before] && !shape[gap] && shape[after]
    requires forall u :: gap <= u < after ==> !shape[u]
    requires RunFits(Returning(shape, gap), 1, 1) && HasShape(Returning(shape, gap), shape)
    ensures !AlwaysMirrors(Returning(shape, gap), 1, 1)
  {
    var run := Returning(shape, gap);
    StaysAtFirst(shape, gap, after);
    assert LastLive(run, after) != -1;
    var st := State([[1]], map[0 := (0, 1)]);
    OneAgain(st, 2);
    assert run[after] == One(2);
    hide Prepared, Returning, Recorded;
    assert AfterCalls(run, after + 1, 1, 1) == st;
    assert st.ctx[0][..1] == [1] && One(2).Tokens(0) == [2];
    assert !Mirrors(st, run[after], 1, 1);
  }

  lemma FirstLiveAfter(shape: seq<bool>, gap: nat, v: nat) returns (after: nat)
    requires gap < v < |shape| && !shape[gap] && shape[v]
    ensures gap < after < |shape| && shape[after] && forall u :: gap <= u < after ==> !shape[u]
  {
    after := gap + 1;
    while !shape[after]
      invariant gap < after <= v && forall u :: gap <= u < after ==> !shape[u]
      decreases v - after
    {
      after := after + 1;
    }
  }

  /** Given stable tokens of continuously live requests, a pattern of empty and non-empty calls keeps every mirror
      exact precisely when no empty call falls between two non-empty ones: an empty call forgets nobody. */
  lemma ExactIffNoGap(shape: seq<bool>)
    ensures NoGap(shape) <==>
            forall run: seq<Batch>, rows: nat, width: nat ::
              RunFits(run, rows, width) && HasShape(run, shape) && StableWhileLive(run, rows, width) ==>
                  AlwaysMirrors(run, rows, width)
  {
    hide AlwaysMirrors, StableWhileLive, HasShape, RunFits;
    if NoGap(shape) {
      forall run: seq<Batch>, rows: nat, width: nat
        | RunFits(run, rows, width) && HasShape(run, shape) && StableWhileLive(run, rows, width)
        ensures AlwaysMirrors(run, rows, width)
      {
        NoGapIsStable(run, shape, rows, width);
        MirrorIsExact(run, rows, width);
      }
    } else {
      var t, u, v :| 0 <= t < u < v < |shape| && shape[t] && shape[v] && !shape[u];
      var after := FirstLiveAfter(shape, u, v);
      ReturningFits(shape, u);
      ReturnMissed(shape, t, u, after);
    }
  }
}
