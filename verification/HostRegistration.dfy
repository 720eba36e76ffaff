/** Row-aligned host-memory registration with exact rollback (radiance_kv_offload.py). */
module HostRegistration {
  import opened Arithmetic
  import opened Options

  /** A byte range of the mapped region: registered as a whole or not at all. */
  datatype Chunk = Chunk(offset: nat, size: nat)

  // ---------------------------------------------------------------------------
  // Planning
  // ---------------------------------------------------------------------------

  /** The arguments for which planning does not raise ValueError. */
  predicate ValidPlan(total: int, stride: int, requested: int) {
    0 < total && 0 < stride && total % stride == 0 && 0 <= requested
  }

  /** The chunks from `offset` up to `total`, each `step` bytes long except perhaps the last. */
  function ChunksFrom(offset: nat, step: nat, total: nat): (chunks: seq<Chunk>)
    requires 0 < step && offset <= total
    decreases total - offset
  {
    if offset == total then []
    else
      var size := if step <= total - offset then step else total - offset;
      [Chunk(offset, size)] + ChunksFrom(offset + size, step, total)
  }

  function ChunkStep(total: nat, stride: nat, requested: nat): (step: nat)
    requires ValidPlan(total, stride, requested)
    ensures 0 < step
  {
    DivAtLeastOne(requested, stride);
    if requested == 0 || total <= requested then total
    else (if stride <= requested then requested / stride else 1) * stride
  }

  function Plan(total: nat, stride: nat, requested: nat): seq<Chunk>
    requires ValidPlan(total, stride, requested)
  {
    ChunksFrom(0, ChunkStep(total, stride, requested), total)
  }

  lemma ChunksNext(chunks: seq<Chunk>, offset: nat, step: nat, total: nat)
    requires 0 < step && offset < total
    ensures var size := if step < total - offset then step else total - offset;
            (chunks + [Chunk(offset, size)]) + ChunksFrom(offset + size, step, total) ==
                chunks + ChunksFrom(offset, step, total)
  {
  }

  method PlanRegistrationChunks(total: int, stride: int, requested: int) returns (r: Option<seq<Chunk>>)
    ensures r.Some? <==> ValidPlan(total, stride, requested)
    ensures r.Some? ==> r.value == Plan(total, stride, requested)
  {
    if total <= 0 { return None; }
    if stride <= 0 || total % stride != 0 { return None; }
    if requested < 0 { return None; }
    if requested == 0 || requested >= total {
      assert ChunksFrom(0, total, total) == [Chunk(0, total)] + ChunksFrom(total, total, total);
      return Some([Chunk(0, total)]);
    }
    var rows := if requested / stride < 1 then 1 else requested / stride;
    var step := rows * stride;
    DivAtLeastOne(requested, stride);
    assert step == ChunkStep(total, stride, requested);
    var chunks: seq<Chunk> := [];
    var offset := 0;
    while offset < total
      invariant 0 <= offset <= total
      invariant chunks + ChunksFrom(offset, step, total) == Plan(total, stride, requested)
    {
      var size := if step < total - offset then step else total - offset;
      ChunksNext(chunks, offset, step, total);
      chunks := chunks + [Chunk(offset, size)];
      offset := offset + size;
    }
    return Some(chunks);
  }

  /** Consecutive chunks leave no gap and no overlap between `offset` and `total`. */
  predicate Tiles(chunks: seq<Chunk>, offset: nat, total: nat) {
    if chunks == [] then offset == total
    else chunks[0].offset == offset && 0 < chunks[0].size && Tiles(chunks[1..], offset + chunks[0].size, total)
  }

  predicate RowAligned(c: Chunk, stride: nat)
    requires 0 < stride
  {
    c.offset % stride == 0 && c.size % stride == 0
  }

  predicate Holds(c: Chunk, b: nat) {
    c.offset <= b < c.offset + c.size
  }

  lemma {:induction false} ChunksFromTile(offset: nat, step: nat, total: nat)
    requires 0 < step && offset <= total
    ensures Tiles(ChunksFrom(offset, step, total), offset, total)
    decreases total - offset
  {
    if offset < total {
      var size := if step <= total - offset then step else total - offset;
      ChunksFromTile(offset + size, step, total);
    }
  }

  /** All chunks but the last have the full step. */
  predicate Steps(chunks: seq<Chunk>, step: nat, total: nat) {
    forall c <- chunks :: c.size == step || (c.size < step && c.offset + c.size == total)
  }

  lemma {:induction false} ChunksFromAligned(offset: nat, step: nat, total: nat, stride: nat)
    requires 0 < stride && 0 < step && offset <= total
    requires offset % stride == 0 && step % stride == 0 && total % stride == 0
    ensures forall c <- ChunksFrom(offset, step, total) :: RowAligned(c, stride)
    ensures Steps(ChunksFrom(offset, step, total), step, total)
    decreases total - offset
  {
    if offset < total {
      var size := if step <= total - offset then step else total - offset;
      ModOfDifference(total, offset, stride);
      ModOfSum(offset, size, stride);
      ChunksFromAligned(offset + size, step, total, stride);
    }
  }

  /** Every byte in the tiled range lies in exactly one chunk, and no chunk reaches outside it. */
  lemma {:induction false} TilesPartition(chunks: seq<Chunk>, offset: nat, total: nat, b: nat)
    requires Tiles(chunks, offset, total)
    ensures offset <= total
    ensures offset <= b < total ==> exists i :: 0 <= i < |chunks| && Holds(chunks[i], b)
    ensures forall i, j :: 0 <= i < |chunks| && 0 <= j < |chunks| && Holds(chunks[i], b) && Holds(chunks[j], b) ==>
            i == j
    ensures forall i :: 0 <= i < |chunks| && Holds(chunks[i], b) ==> offset <= b < total
  {
    if chunks != [] {
      var rest := chunks[1..];
      TilesPartition(rest, offset + chunks[0].size, total, b);
      if offset <= b < total && !Holds(chunks[0], b) {
        var i :| 0 <= i < |rest| && Holds(rest[i], b);
        assert Holds(chunks[i + 1], b);
      }
      forall i | 0 < i < |chunks| && Holds(chunks[i], b)
        ensures offset + chunks[0].size <= b < total
      {
        assert Holds(rest[i - 1], b);
      }
      forall i, j | 0 <= i < |chunks| && 0 <= j < |chunks| && Holds(chunks[i], b) && Holds(chunks[j], b)
        ensures i == j
      {
        if 0 < i && 0 < j { assert Holds(rest[i - 1], b) && Holds(rest[j - 1], b); }
      }
    }
  }

  /** The plan splits the region at row boundaries, and each byte belongs to exactly one chunk. */
  lemma PlanPartitionsRegion(total: nat, stride: nat, requested: nat, b: nat)
    requires ValidPlan(total, stride, requested)
    ensures forall c <- Plan(total, stride, requested) :: RowAligned(c, stride)
    ensures b < total <==>
            exists i :: 0 <= i < |Plan(total, stride, requested)| && Holds(Plan(total, stride, requested)[i], b)
    ensures forall i, j :: 0 <= i < |Plan(total, stride, requested)| && 0 <= j < |Plan(total, stride, requested)|
                           && Holds(Plan(total, stride, requested)[i], b) && Holds(Plan(total, stride, requested)[j], b)
                           ==> i == j
    ensures Distinct(Plan(total, stride, requested)) && Plan(total, stride, requested) != []
  {
    var step := ChunkStep(total, stride, requested);
    StepAligned(total, stride, requested);
    ModOfMultiple(0, stride);
    ChunksFromTile(0, step, total);
    ChunksFromAligned(0, step, total, stride);
    TilesPartition(Plan(total, stride, requested), 0, total, b);
    TilesDistinct(Plan(total, stride, requested), 0, total);
  }

  lemma StepAligned(total: nat, stride: nat, requested: nat)
    requires ValidPlan(total, stride, requested)
    ensures ChunkStep(total, stride, requested) % stride == 0
    ensures stride <= requested < total ==> ChunkStep(total, stride, requested) <= requested
  {
    if !(requested == 0 || total <= requested) {
      var rows := if stride <= requested then requested / stride else 1;
      ModOfMultiple(rows, stride);
    }
  }

  lemma {:induction false} FullBeforeLast(offset: nat, step: nat, total: nat)
    requires 0 < step && offset < total
    ensures var cs := ChunksFrom(offset, step, total);
            && cs != [] && cs[|cs| - 1].size <= step && (step <= total - offset ==> cs[0].size == step)
            && forall i :: 0 <= i < |cs| - 1 ==> cs[i].size == step
    decreases total - offset
  {
    if step < total - offset { FullBeforeLast(offset + step, step, total); }
  }

  /** Without a request, or with one that covers the region, there is one chunk.  Otherwise every chunk but the last
      has one size: the most whole rows that fit the request, and a single row where none does. */
  lemma ChunkSizes(total: nat, stride: nat, requested: nat)
    requires ValidPlan(total, stride, requested)
    ensures var plan := Plan(total, stride, requested);
            if requested == 0 || total <= requested then plan == [Chunk(0, total)]
            else
              && plan != [] && plan[|plan| - 1].size <= plan[0].size && plan[0].size % stride == 0
              && (if stride <= requested then plan[0].size <= requested < plan[0].size + stride
                  else plan[0].size == stride)
              && forall i :: 0 <= i < |plan| - 1 ==> plan[i].size == plan[0].size
  {
    var step := ChunkStep(total, stride, requested);
    if requested == 0 || total <= requested {
      assert ChunksFrom(0, total, total) == [Chunk(0, total)] + ChunksFrom(total, total, total);
    } else {
      StepAligned(total, stride, requested);
      FullBeforeLast(0, step, total);
    }
  }

  predicate Distinct(chunks: seq<Chunk>) {
    forall i, j :: 0 <= i < j < |chunks| ==> chunks[i].offset != chunks[j].offset
  }

  lemma {:induction false} TilesDistinct(chunks: seq<Chunk>, offset: nat, total: nat)
    requires Tiles(chunks, offset, total)
    ensures Distinct(chunks)
    ensures forall c <- chunks :: offset <= c.offset
  {
    if chunks != [] {
      TilesDistinct(chunks[1..], offset + chunks[0].size, total);
      assert forall i :: 0 < i < |chunks| ==> chunks[i] == chunks[1..][i - 1];
    }
  }

  // ---------------------------------------------------------------------------
  // The runtime
  // ---------------------------------------------------------------------------

  /** What a runtime call does: it raises a Python exception or returns a status, zero for success. */
  datatype Call = Raised | Status(code: int)

  /** A call the runtime has seen, with its outcome. */
  datatype Entry = Register(ptr: int, size: nat, reg: Call) | Unregister(ptr: int, unreg: Call) | Drain(drain: Call)

  /** The CUDA/HIP library handle.  Every outcome is chosen arbitrarily on each call. */
  class HostRuntime {
    var registered: set<int>
    var pending: bool
    ghost var log: seq<Entry>

    method HostRegister(ptr: int, size: nat) returns (c: Call)
      modifies this
      ensures registered == if c == Status(0) then old(registered) + {ptr} else old(registered)
      ensures c.Status? ==> pending == (old(pending) || c.code != 0)
      ensures log == old(log) + [Register(ptr, size, c)]
    {
      var choice: int := *;
      var raises: bool := *;
      if raises {
        pending := *;
        log := log + [Register(ptr, size, Raised)];
        return Raised;
      }
      if choice == 0 { registered := registered + {ptr}; } else { pending := true; }
      log := log + [Register(ptr, size, Status(choice))];
      return Status(choice);
    }

    method HostUnregister(ptr: int) returns (c: Call)
      modifies this
      ensures registered == if c == Status(0) then old(registered) - {ptr} else old(registered)
      ensures c.Status? ==> pending == (old(pending) || c.code != 0)
      ensures log == old(log) + [Unregister(ptr, c)]
    {
      var choice: int := *;
      var raises: bool := *;
      if raises {
        pending := *;
        log := log + [Unregister(ptr, Raised)];
        return Raised;
      }
      if choice == 0 { registered := registered - {ptr}; } else { pending := true; }
      log := log + [Unregister(ptr, Status(choice))];
      return Status(choice);
    }

    /** cudaGetLastError returns the pending error and clears it. */
    method DrainPendingError() returns (c: Call)
      modifies this
      ensures registered == old(registered)
      ensures c.Status? ==> !pending
      ensures log == old(log) + [Drain(c)]
    {
      var choice: int := *;
      var raises: bool := *;
      if raises {
        pending := *;
        log := log + [Drain(Raised)];
        return Raised;
      }
      pending := false;
      log := log + [Drain(Status(choice))];
      return Status(choice);
    }
  }

  // What a stretch of the log says.

  /** The pointers unregistering was tried on, in order. */
  ghost function Tries(es: seq<Entry>): seq<int> {
    if es == [] then []
    else Tries(es[..|es| - 1]) + if es[|es| - 1].Unregister? then [es[|es| - 1].ptr] else []
  }

  /** The ranges registering was tried on, in order. */
  ghost function Starts(es: seq<Entry>): seq<(int, nat)> {
    if es == [] then []
    else Starts(es[..|es| - 1]) + if es[|es| - 1].Register? then [(es[|es| - 1].ptr, es[|es| - 1].size)] else []
  }

  function BadCode(c: Call): Option<int> {
    if c.Status? && c.code != 0 then Some(c.code) else None
  }

  /** The first bad status of an unregister call. */
  ghost function FirstBad(es: seq<Entry>): Option<int> {
    if es == [] then None
    else
      var first := FirstBad(es[..|es| - 1]);
      if first.Some? || !es[|es| - 1].Unregister? then first else BadCode(es[|es| - 1].unreg)
  }

  /** The first bad status of a register call. */
  ghost function FirstRefused(es: seq<Entry>): Option<int> {
    if es == [] then None
    else
      var first := FirstRefused(es[..|es| - 1]);
      if first.Some? || !es[|es| - 1].Register? then first else BadCode(es[|es| - 1].reg)
  }

  /** The last error drained. */
  ghost function LastDrained(es: seq<Entry>): Option<int> {
    if es == [] then None
    else
      var e := es[|es| - 1];
      if e.Drain? && e.drain.Status? then Some(e.drain.code) else LastDrained(es[..|es| - 1])
  }

  /** What the first drain did. */
  ghost function FirstDrain(es: seq<Entry>): Option<Call> {
    if es == [] then None
    else
      var first := FirstDrain(es[..|es| - 1]);
      if first.Some? || !es[|es| - 1].Drain? then first else Some(es[|es| - 1].drain)
  }

  /** The code a drain returned, if it returned. */
  function DrainedCode(d: Option<Call>): Option<int> {
    if d.Some? && d.value.Status? then Some(d.value.code) else None
  }

  ghost predicate Raises(e: Entry) {
    match e
    case Register(_, _, c) => c.Raised?
    case Unregister(_, c) => c.Raised?
    case Drain(c) => c.Raised?
  }

  /** Some call raised. */
  ghost predicate AnyRaised(es: seq<Entry>) {
    es != [] && (AnyRaised(es[..|es| - 1]) || Raises(es[|es| - 1]))
  }

  /** An unregister call with a bad status. */
  predicate FailedRelease(e: Entry) {
    e.Unregister? && e.unreg.Status? && e.unreg.code != 0
  }

  /** A register call with a bad status. */
  predicate Refusal(e: Entry) {
    e.Register? && e.reg.Status? && e.reg.code != 0
  }

  /** The reported release error by its place in the log: no earlier release failed, and without one none did. */
  lemma {:induction false} FirstBadAt(es: seq<Entry>) returns (i: nat)
    ensures i <= |es| && forall j :: 0 <= j < i ==> !FailedRelease(es[j])
    ensures if i < |es| then FailedRelease(es[i]) && FirstBad(es) == Some(es[i].unreg.code) else FirstBad(es).None?
  {
    i := 0;
    if es != [] {
      i := FirstBadAt(es[..|es| - 1]);
      if i == |es| - 1 && !FailedRelease(es[i]) { i := |es|; }
    }
  }

  /** The reported registration error by its place in the log. */
  lemma {:induction false} FirstRefusedAt(es: seq<Entry>) returns (i: nat)
    ensures i <= |es| && forall j :: 0 <= j < i ==> !Refusal(es[j])
    ensures if i < |es| then Refusal(es[i]) && FirstRefused(es) == Some(es[i].reg.code) else FirstRefused(es).None?
  {
    i := 0;
    if es != [] {
      i := FirstRefusedAt(es[..|es| - 1]);
      if i == |es| - 1 && !Refusal(es[i]) { i := |es|; }
    }
  }

  /** The drained error of a rollback by its place in the log: no drain after it returned. */
  lemma {:induction false} LastDrainedAt(es: seq<Entry>) returns (n: nat)
    ensures n <= |es| && forall j :: n <= j < |es| ==> !(es[j].Drain? && es[j].drain.Status?)
    ensures if 0 < n then es[n - 1].Drain? && es[n - 1].drain.Status? && LastDrained(es) == Some(es[n - 1].drain.code)
            else LastDrained(es).None?
  {
    n := |es|;
    if es != [] && !(es[n - 1].Drain? && es[n - 1].drain.Status?) { n := LastDrainedAt(es[..n - 1]); }
  }

  /** The drain of a registration by its place in the log, and whether any call raised. */
  lemma {:induction false} FirstDrainAt(es: seq<Entry>) returns (i: nat)
    ensures i <= |es| && forall j :: 0 <= j < i ==> !es[j].Drain?
    ensures if i < |es| then es[i].Drain? && FirstDrain(es) == Some(es[i].drain) else FirstDrain(es).None?
    ensures AnyRaised(es) <==> exists e <- es :: Raises(e)
  {
    i := 0;
    if es != [] {
      var n := |es| - 1;
      i := FirstDrainAt(es[..n]);
      assert es == es[..n] + [es[n]];
      if i == n && !es[n].Drain? { i := |es|; }
    }
  }

  lemma LogSnoc(es: seq<Entry>, e: Entry)
    ensures Tries(es + [e]) == Tries(es) + if e.Unregister? then [e.ptr] else []
    ensures Starts(es + [e]) == Starts(es) + if e.Register? then [(e.ptr, e.size)] else []
    ensures FirstBad(es + [e]) == if FirstBad(es).Some? || !e.Unregister? then FirstBad(es) else BadCode(e.unreg)
    ensures FirstRefused(es + [e]) == if FirstRefused(es).Some? || !e.Register? then FirstRefused(es)
            else BadCode(e.reg)
    ensures LastDrained(es + [e]) == if e.Drain? && e.drain.Status? then Some(e.drain.code) else LastDrained(es)
    ensures FirstDrain(es + [e]) == if FirstDrain(es).Some? || !e.Drain? then FirstDrain(es) else Some(e.drain)
    ensures AnyRaised(es + [e]) <==> AnyRaised(es) || Raises(e)
  {
    assert (es + [e])[..|es|] == es;
  }

  lemma {:induction false} LogAppend(a: seq<Entry>, b: seq<Entry>)
    ensures Tries(a + b) == Tries(a) + Tries(b) && Starts(a + b) == Starts(a) + Starts(b)
    ensures FirstBad(a + b) == if FirstBad(a).Some? then FirstBad(a) else FirstBad(b)
    ensures FirstRefused(a + b) == if FirstRefused(a).Some? then FirstRefused(a) else FirstRefused(b)
    ensures LastDrained(a + b) == if LastDrained(b).Some? then LastDrained(b) else LastDrained(a)
    ensures FirstDrain(a + b) == if FirstDrain(a).Some? then FirstDrain(a) else FirstDrain(b)
    ensures AnyRaised(a + b) <==> AnyRaised(a) || AnyRaised(b)
  {
    if b == [] {
      assert a + b == a;
    } else {
      var rest, e := b[..|b| - 1], b[|b| - 1];
      assert a + b == (a + rest) + [e] && b == rest + [e];
      LogAppend(a, rest);
      LogSnoc(a + rest, e);
      LogSnoc(rest, e);
      hide Tries, Starts, FirstBad, FirstRefused, LastDrained, FirstDrain, AnyRaised;
    }
  }

  // ---------------------------------------------------------------------------
  // Rollback
  // ---------------------------------------------------------------------------

  datatype RollbackResult = RollbackResult(remaining: seq<Chunk>, error: Option<int>, raised: bool,
                                           drained: Option<int>) {
    predicate Ok() {
      remaining == [] && !raised
    }

    /** Chunks are left exactly when a call failed. */
    predicate Consistent() {
      remaining == [] <==> error.None? && !raised
    }
  }

  function Address(base: int, c: Chunk): int {
    base + c.offset
  }

  function Pointers(base: int, chunks: seq<Chunk>): set<int> {
    set c <- chunks :: Address(base, c)
  }

  /** The chunks still registered with the runtime, in their original order. */
  function Retained(base: int, chunks: seq<Chunk>, registered: set<int>): seq<Chunk> {
    if chunks == [] then []
    else (if Address(base, chunks[0]) in registered then [chunks[0]] else []) + Retained(base, chunks[1..], registered)
  }

  function Without(chunks: seq<Chunk>, c: Chunk): seq<Chunk> {
    if chunks == [] then [] else if chunks[0] == c then chunks[1..] else [chunks[0]] + Without(chunks[1..], c)
  }

  lemma {:induction false} WithoutMiddle(before: seq<Chunk>, c: Chunk, after: seq<Chunk>)
    requires c !in before
    ensures Without(before + [c] + after, c) == before + after
  {
    if before == [] {
      assert before + [c] + after == [c] + after;
      assert before + after == after;
    } else {
      var s := before + [c] + after;
      assert s[1..] == before[1..] + [c] + after;
      WithoutMiddle(before[1..], c, after);
      assert [before[0]] + (before[1..] + after) == before + after;
    }
  }

  lemma {:induction false} RetainedFrame(base: int, chunks: seq<Chunk>, r: set<int>, r': set<int>)
    requires forall c <- chunks :: Address(base, c) in r <==> Address(base, c) in r'
    ensures Retained(base, chunks, r) == Retained(base, chunks, r')
  {
    if chunks != [] {
      assert chunks[0] in chunks;
      assert forall c <- chunks[1..] :: c in chunks;
      RetainedFrame(base, chunks[1..], r, r');
    }
  }

  /** Retained keeps exactly the registered chunks, as a subset of the list. */
  lemma {:induction false} RetainedMembers(base: int, chunks: seq<Chunk>, registered: set<int>)
    ensures forall c :: c in Retained(base, chunks, registered) <==> c in chunks && Address(base, c) in registered
    ensures (forall c <- chunks :: Address(base, c) in registered) ==> Retained(base, chunks, registered) == chunks
  {
    if chunks != [] {
      assert chunks == [chunks[0]] + chunks[1..];
      RetainedMembers(base, chunks[1..], registered);
    }
  }

  lemma {:induction false} RetainedDistinct(base: int, chunks: seq<Chunk>, registered: set<int>)
    requires Distinct(chunks)
    ensures Distinct(Retained(base, chunks, registered))
  {
    if chunks != [] {
      var rest := chunks[1..];
      RetainedDistinct(base, rest, registered);
      RetainedMembers(base, rest, registered);
      forall c | c in Retained(base, rest, registered) ensures c.offset != chunks[0].offset {
        var k :| 0 <= k < |rest| && rest[k] == c;
        assert chunks[k + 1] == c;
      }
    }
  }

  /** What holds once the chunks from `i` on have been tried. */
  ghost predicate RolledBack(base: int, chunks: seq<Chunk>, i: nat, was: set<int>, now: set<int>, remaining: seq<Chunk>)
    requires i <= |chunks|
  {
    && remaining == chunks[..i] + Retained(base, chunks[i..], now)
    && now <= was
    && forall p :: p in was && p !in now ==> p in Pointers(base, chunks[i..])
  }

  lemma NothingRolledBack(base: int, chunks: seq<Chunk>, was: set<int>)
    ensures RolledBack(base, chunks, |chunks|, was, was, chunks)
  {
    assert Retained(base, [], was) == [];
  }

  lemma AllRolledBack(base: int, chunks: seq<Chunk>, was: set<int>, now: set<int>, remaining: seq<Chunk>)
    requires RolledBack(base, chunks, 0, was, now, remaining) && Pointers(base, chunks) <= was
    ensures remaining == Retained(base, chunks, now) && forall c <- remaining :: c in chunks
    ensures now == was - (Pointers(base, chunks) - Pointers(base, remaining))
  {
    hide Retained;
    assert chunks[0..] == chunks && chunks[..0] == [];
    assert [] + Retained(base, chunks, now) == Retained(base, chunks, now);
    ReleasedExactly(base, chunks, was, now);
    RetainedMembers(base, chunks, now);
  }

  lemma RolledBackStep(base: int, chunks: seq<Chunk>, i: nat, was: set<int>, now: set<int>, remaining: seq<Chunk>,
                       released: bool)
    requires i < |chunks| && Distinct(chunks) && Pointers(base, chunks) <= was
    requires RolledBack(base, chunks, i + 1, was, now, remaining)
    ensures if released
            then RolledBack(base, chunks, i, was, now - {Address(base, chunks[i])}, Without(remaining, chunks[i]))
            else RolledBack(base, chunks, i, was, now, remaining)
    ensures |Without(remaining, chunks[i])| + 1 == |remaining|
  {
    hide Pointers, Retained, Without, Distinct;
    var c := chunks[i];
    var later := chunks[i + 1..];
    assert chunks[i..] == [c] + later;
    PointersGrow(base, c, later);
    LaterElsewhere(base, chunks, i);
    RemainingStep(base, chunks, i, now, now);
    RemainingStep(base, chunks, i, now, now - {Address(base, c)});
  }

  lemma RemainingStep(base: int, chunks: seq<Chunk>, i: nat, now: set<int>, now': set<int>)
    requires i < |chunks| && Distinct(chunks)
    requires Address(base, chunks[i]) !in Pointers(base, chunks[i + 1..])
    requires now' == now || now' == now - {Address(base, chunks[i])}
    ensures var remaining := chunks[..i + 1] + Retained(base, chunks[i + 1..], now);
            var kept := chunks[..i] + Retained(base, chunks[i..], now');
            && (Address(base, chunks[i]) in now' ==> kept == remaining)
            && (Address(base, chunks[i]) !in now' ==> kept == Without(remaining, chunks[i]))
            && |Without(remaining, chunks[i])| + 1 == |remaining|
  {
    var c := chunks[i];
    var later := chunks[i + 1..];
    var rest := Retained(base, later, now);
    assert chunks[i..] == [c] + later && chunks[..i + 1] == chunks[..i] + [c];
    RetainedStep(base, c, later, now, now');
    assert chunks[..i + 1] + rest == chunks[..i] + [c] + rest;
    WithoutMiddle(chunks[..i], c, rest);
  }

  lemma LaterElsewhere(base: int, chunks: seq<Chunk>, i: nat)
    requires i < |chunks| && Distinct(chunks)
    ensures Address(base, chunks[i]) in Pointers(base, chunks)
    ensures Address(base, chunks[i]) !in Pointers(base, chunks[i + 1..])
  {
    assert chunks[i] in chunks;
  }

  lemma RetainedStep(base: int, c: Chunk, later: seq<Chunk>, now: set<int>, now': set<int>)
    requires Address(base, c) !in Pointers(base, later)
    requires now' == now || now' == now - {Address(base, c)}
    ensures Retained(base, [c] + later, now')
         == (if Address(base, c) in now' then [c] else []) + Retained(base, later, now)
  {
    RetainedFrame(base, later, now, now');
    assert ([c] + later)[1..] == later;
  }

  lemma PointersGrow(base: int, c: Chunk, later: seq<Chunk>)
    ensures Pointers(base, [c] + later) == {Address(base, c)} + Pointers(base, later)
  {
  }

  lemma ReleasedExactly(base: int, chunks: seq<Chunk>, was: set<int>, now: set<int>)
    requires now <= was && Pointers(base, chunks) <= was
    requires forall p :: p in was && p !in now ==> p in Pointers(base, chunks)
    ensures now == was - (Pointers(base, chunks) - Pointers(base, Retained(base, chunks, now)))
  {
    var kept := Retained(base, chunks, now);
    RetainedMembers(base, chunks, now);
    forall p ensures p in Pointers(base, kept) <==> p in Pointers(base, chunks) && p in now {
      if p in Pointers(base, chunks) && p in now {
        var c :| c in chunks && Address(base, c) == p;
        assert c in kept;
      }
    }
    assert forall p :: p in now <==> p in was - (Pointers(base, chunks) - Pointers(base, kept));
  }

  /** One unregister call of the rollback loop, with the drain that follows a failed status; `es` is what it logs. */
  method ReleaseChunk(runtime: HostRuntime, ptr: int)
    returns (released: bool, error: Option<int>, raised: bool, drained: Option<int>, ghost es: seq<Entry>)
    modifies runtime
    ensures runtime.registered == if released then old(runtime.registered) - {ptr} else old(runtime.registered)
    ensures !released <==> error.Some? || raised
    ensures error.Some? ==> error.value != 0
    ensures !raised && !old(runtime.pending) ==> !runtime.pending
    ensures runtime.log == old(runtime.log) + es && Tries(es) == [ptr] && Starts(es) == []
    ensures error == FirstBad(es) && drained == LastDrained(es) && raised == AnyRaised(es) && FirstRefused(es).None?
  {
    hide Tries, Starts, FirstBad, FirstRefused, LastDrained, FirstDrain, AnyRaised;
    EmptyLog();
    var result := runtime.HostUnregister(ptr);
    LogSnoc([], Unregister(ptr, result));
    es := [Unregister(ptr, result)];
    assert [] + es == es;
    if result.Raised? { return false, None, true, None, es; }
    if result.code == 0 { return true, None, false, None, es; }
    var d := runtime.DrainPendingError();
    LogSnoc(es, Drain(d));
    es := es + [Drain(d)];
    if d.Raised? { return false, Some(result.code), true, None, es; }
    return false, Some(result.code), false, Some(d.code), es;
  }

  /** The addresses of chunks i.. from the last one down. */
  ghost function Backwards(base: int, chunks: seq<Chunk>, i: nat): (ptrs: seq<int>)
    requires i <= |chunks|
    ensures |ptrs| == |chunks| - i && forall j :: 0 <= j < |ptrs| ==> ptrs[j] == Address(base, chunks[|chunks| - 1 - j])
    decreases |chunks| - i
  {
    if i == |chunks| then [] else Backwards(base, chunks, i + 1) + [Address(base, chunks[i])]
  }

  /** The log of a rollback over chunks i..: each tried once from the last down, the first bad status, the last drained
      error. */
  ghost predicate LogsRollback(base: int, chunks: seq<Chunk>, i: nat, es: seq<Entry>, error: Option<int>,
                               drained: Option<int>, raised: bool)
    requires i <= |chunks|
  {
    && Tries(es) == Backwards(base, chunks, i) && Starts(es) == [] && FirstRefused(es).None?
    && error == FirstBad(es) && drained == LastDrained(es) && raised == AnyRaised(es)
  }

  lemma NothingTried(base: int, chunks: seq<Chunk>)
    ensures LogsRollback(base, chunks, |chunks|, [], None, None, false)
  {
  }

  lemma RollbackLogged(base: int, chunks: seq<Chunk>, i: nat, es: seq<Entry>, error: Option<int>, drained: Option<int>,
                       raised: bool, logged: seq<Entry>, e: Option<int>, d: Option<int>, x: bool)
    requires i < |chunks| && LogsRollback(base, chunks, i + 1, es, error, drained, raised)
    requires Tries(logged) == [Address(base, chunks[i])] && Starts(logged) == [] && FirstRefused(logged).None?
    requires e == FirstBad(logged) && d == LastDrained(logged) && x == AnyRaised(logged)
    ensures LogsRollback(base, chunks, i, es + logged,
                         if error.None? then e else error, if d.Some? then d else drained, raised || x)
  {
    hide Tries, Starts, FirstBad, FirstRefused, LastDrained, FirstDrain, AnyRaised;
    LogAppend(es, logged);
  }

  /** Unregisters in reverse order, each chunk once.  What cannot be released stays listed, in the original order,
      and the runtime's registered set loses exactly the chunks no longer listed.  The result carries the first bad
      status and the last drained error.  No pending error is left behind unless an exception is reported. */
  method RollbackHostChunks(runtime: HostRuntime, base: int, chunks: seq<Chunk>) returns (r: RollbackResult)
    requires Distinct(chunks)
    requires Pointers(base, chunks) <= runtime.registered
    modifies runtime
    ensures r.remaining == Retained(base, chunks, runtime.registered) && PossibleRollback(chunks, r)
    ensures runtime.registered == old(runtime.registered) - (Pointers(base, chunks) - Pointers(base, r.remaining))
    ensures !r.raised && !old(runtime.pending) ==> !runtime.pending
    ensures r.Consistent()
    ensures r.error.Some? ==> r.error.value != 0
    ensures old(runtime.log) <= runtime.log
    ensures LogsRollback(base, chunks, 0, runtime.log[|old(runtime.log)|..], r.error, r.drained, r.raised)
  {
    hide Tries, Starts, FirstBad, FirstRefused, LastDrained, FirstDrain, AnyRaised, LogsRollback, Backwards;
    hide RolledBack, Retained, Without;
    var remaining := chunks;
    var error: Option<int> := None;
    var raised := false;
    var drained: Option<int> := None;
    var i := |chunks|;
    ghost var es: seq<Entry> := [];
    NothingTried(base, chunks);
    NothingRolledBack(base, chunks, runtime.registered);
    while i > 0
      invariant 0 <= i <= |chunks|
      invariant RolledBack(base, chunks, i, old(runtime.registered), runtime.registered, remaining)
      invariant !raised && !old(runtime.pending) ==> !runtime.pending
      invariant |remaining| >= i && (|remaining| == i <==> error.None? && !raised)
      invariant error.Some? ==> error.value != 0
      invariant runtime.log == old(runtime.log) + es && LogsRollback(base, chunks, i, es, error, drained, raised)
    {
      i := i - 1;
      ghost var before, listed := runtime.registered, remaining;
      ghost var logged: seq<Entry>;
      var released, e, x, d;
      released, e, x, d, logged := ReleaseChunk(runtime, Address(base, chunks[i]));
      RolledBackStep(base, chunks, i, old(runtime.registered), before, listed, released);
      RollbackLogged(base, chunks, i, es, error, drained, raised, logged, e, d, x);
      es := es + logged;
      if error.None? { error := e; }
      raised := raised || x;
      if d.Some? { drained := d; }
      if released { remaining := Without(remaining, chunks[i]); }
    }
    AllRolledBack(base, chunks, old(runtime.registered), runtime.registered, remaining);
    assert runtime.log[|old(runtime.log)|..] == es;
    r := RollbackResult(remaining, error, raised, drained);
  }

  lemma EmptyLog()
    ensures Tries([]) == [] && Starts([]) == [] && FirstBad([]).None? && FirstRefused([]).None? && LastDrained([]).None?
            && FirstDrain([]).None? && !AnyRaised([])
  {
  }

  // ---------------------------------------------------------------------------
  // Registration
  // ---------------------------------------------------------------------------

  datatype RegistrationResult = RegistrationResult(
    chunks: seq<Chunk>, error: Option<int>, raised: bool, drained: Option<int>, rollback: Option<RollbackResult>)
  {
    predicate Ok() {
      error.None? && !raised
    }

    predicate RollbackOk() {
      rollback.None? || rollback.value.Ok()
    }
  }

  ghost function Ranges(base: int, chunks: seq<Chunk>): (rs: seq<(int, nat)>)
    ensures |rs| == |chunks|
  {
    seq(|chunks|, i requires 0 <= i < |chunks| => (Address(base, chunks[i]), chunks[i].size))
  }

  /** One register call, with the drain that follows a failed status; `es` is what it logs. */
  method TryRegister(runtime: HostRuntime, ptr: int, size: nat)
    returns (accepted: bool, error: Option<int>, raised: bool, drained: Option<int>, ghost es: seq<Entry>)
    modifies runtime
    ensures runtime.registered == if accepted then old(runtime.registered) + {ptr} else old(runtime.registered)
    ensures !accepted <==> error.Some? || raised
    ensures !raised && !old(runtime.pending) ==> !runtime.pending
    ensures runtime.log == old(runtime.log) + es && Tries(es) == [] && Starts(es) == [(ptr, size)]
    ensures error == FirstRefused(es) && raised == AnyRaised(es) && FirstBad(es).None?
    ensures drained == DrainedCode(FirstDrain(es)) && (FirstDrain(es).Some? <==> error.Some?)
  {
    hide Tries, Starts, FirstBad, FirstRefused, LastDrained, FirstDrain, AnyRaised;
    EmptyLog();
    var result := runtime.HostRegister(ptr, size);
    LogSnoc([], Register(ptr, size, result));
    es := [Register(ptr, size, result)];
    assert [] + es == es;
    if result.Raised? { return false, None, true, None, es; }
    if result.code == 0 { return true, None, false, None, es; }
    var d := runtime.DrainPendingError();
    LogSnoc(es, Drain(d));
    es := es + [Drain(d)];
    return false, Some(result.code), d.Raised?, if d.Status? then Some(d.code) else None, es;
  }

  /** The log of a registration over `planned`: its ranges in order, all of them if it succeeded, the bad status it
      reports and the error drained after it, which is the first drain of all. */
  ghost predicate LogsRegistration(base: int, planned: seq<Chunk>, es: seq<Entry>, r: RegistrationResult) {
    && Starts(es) <= Ranges(base, planned) && r.error == FirstRefused(es)
    && r.drained == (if r.error.Some? then DrainedCode(FirstDrain(es)) else None)
    && (r.Ok() ==> Starts(es) == Ranges(base, planned) && Tries(es) == [])
    && FirstBad(es) == (if r.rollback.Some? then r.rollback.value.error else None)
    && (AnyRaised(es) <==> r.raised || (r.rollback.Some? && r.rollback.value.raised))
  }

  /** All or nothing, as far as the runtime allows: the plan is tried in order; success registers the whole of it;
      failure leaves registered, and listed, exactly the chunks that the rollback could not release, and carries the
      bad status that stopped it. */
  method RegisterHostChunks(runtime: HostRuntime, base: int, total: nat, stride: nat, requested: nat)
    returns (r: RegistrationResult)
    requires ValidPlan(total, stride, requested)
    requires Pointers(base, Plan(total, stride, requested)) !! runtime.registered
    modifies runtime
    ensures PossibleRegistration(Plan(total, stride, requested), r)
    ensures runtime.registered == old(runtime.registered) + Pointers(base, r.chunks)
    ensures r.chunks == Retained(base, Plan(total, stride, requested), runtime.registered)
    ensures !old(runtime.pending) && !r.raised && (r.rollback.None? || !r.rollback.value.raised) ==> !runtime.pending
    ensures old(runtime.log) <= runtime.log
    ensures LogsRegistration(base, Plan(total, stride, requested), runtime.log[|old(runtime.log)|..], r)
  {
    hide Tries, Starts, FirstBad, FirstRefused, LastDrained, FirstDrain, AnyRaised, Ranges, LogsRegistration,
         LogsRollback, Plan, Backwards;
    var planned := Plan(total, stride, requested);
    PlanPartitionsRegion(total, stride, requested, 0);
    ghost var was, before := runtime.registered, runtime.log;
    ghost var es: seq<Entry> := [];
    EmptyLog();
    var done: seq<Chunk> := [];
    var i := 0;
    while i < |planned|
      invariant 0 <= i <= |planned| && done == planned[..i]
      invariant runtime.registered == was + Pointers(base, done)
      invariant !old(runtime.pending) ==> !runtime.pending
      invariant runtime.log == before + es
      invariant Starts(es) == Ranges(base, planned)[..i] && Tries(es) == [] && FirstRefused(es).None? &&
                FirstBad(es).None? && !AnyRaised(es)
      invariant FirstDrain(es).None?
    {
      var c := planned[i];
      var accepted, error, raised, drained;
      ghost var logged: seq<Entry>;
      accepted, error, raised, drained, logged := TryRegister(runtime, Address(base, c), c.size);
      LogAppend(es, logged);
      RangesNext(base, planned, i);
      es := es + logged;
      if !accepted {
        ghost var mark := runtime.log;
        var back := RollbackHostChunks(runtime, base, done);
        FailureLeaves(base, planned, i, was, runtime.registered, back.remaining);
        RetainedMembers(base, planned, runtime.registered);
        r := RegistrationResult(back.remaining, error, raised, drained, Some(back));
        FailureLogged(base, planned, i, before, es, mark, runtime.log, r);
        return;
      }
      assert planned[..i + 1] == planned[..i] + [c];
      done := done + [c];
      i := i + 1;
    }
    assert planned[..|planned|] == planned;
    RetainedMembers(base, planned, runtime.registered);
    r := RegistrationResult(done, None, false, None, None);
    SuccessLogged(base, planned, before, es, runtime.log, r);
  }

  lemma RangesNext(base: int, planned: seq<Chunk>, i: nat)
    requires i < |planned|
    ensures Ranges(base, planned)[..i + 1] ==
            Ranges(base, planned)[..i] + [(Address(base, planned[i]), planned[i].size)]
  {
  }

  lemma FailureLogged(base: int, planned: seq<Chunk>, i: nat, before: seq<Entry>, es: seq<Entry>, mark: seq<Entry>,
                      after: seq<Entry>, r: RegistrationResult)
    requires mark == before + es && mark <= after && i < |planned| && !r.Ok()
    requires Starts(es) == Ranges(base, planned)[..i + 1] && r.error == FirstRefused(es) && r.raised == AnyRaised(es)
    requires FirstBad(es).None? && r.rollback.Some?
    requires r.drained == DrainedCode(FirstDrain(es)) && (FirstDrain(es).Some? <==> r.error.Some?)
    requires LogsRollback(base, planned[..i], 0, after[|mark|..], r.rollback.value.error, r.rollback.value.drained,
             r.rollback.value.raised)
    ensures before <= after && LogsRegistration(base, planned, after[|before|..], r)
  {
    hide Tries, Starts, FirstBad, FirstRefused, LastDrained, FirstDrain, AnyRaised, Ranges, Backwards;
    var back := after[|mark|..];
    LogAppend(es, back);
    assert after[|before|..] == es + back;
    assert Starts(es) + [] == Starts(es);
  }

  lemma SuccessLogged(base: int, planned: seq<Chunk>, before: seq<Entry>, es: seq<Entry>, after: seq<Entry>,
                      r: RegistrationResult)
    requires after == before + es && r.Ok()
    requires Starts(es) == Ranges(base, planned)[..|planned|] && FirstRefused(es).None? && Tries(es) == []
    requires FirstBad(es).None? && !AnyRaised(es) && r.rollback.None? && r.drained.None?
    ensures before <= after && LogsRegistration(base, planned, after[|before|..], r)
  {
    hide Tries, Starts, FirstBad, FirstRefused, LastDrained, FirstDrain, AnyRaised, Ranges;
    assert after[|before|..] == es;
  }

  lemma FailureLeaves(base: int, planned: seq<Chunk>, i: nat, was: set<int>, now: set<int>, remaining: seq<Chunk>)
    requires i <= |planned| && Distinct(planned) && Pointers(base, planned) !! was
    requires remaining == Retained(base, planned[..i], now)
    requires now == was + Pointers(base, planned[..i]) - (Pointers(base, planned[..i]) - Pointers(base, remaining))
    ensures now == was + Pointers(base, remaining)
    ensures remaining == Retained(base, planned, now)
  {
    var a, b := planned[..i], planned[i..];
    assert planned == a + b;
    RetainedMembers(base, a, now);
    assert Pointers(base, remaining) <= Pointers(base, a);
    assert Pointers(base, a) <= Pointers(base, planned);
    assert now == was + Pointers(base, remaining);
    forall c | c in b ensures Address(base, c) !in now {
      assert c in planned && Address(base, c) in Pointers(base, planned);
      NotAmongEarlier(base, planned, i, c);
    }
    RetainedNone(base, b, now);
    RetainedConcat(base, a, b, now);
  }

  lemma NotAmongEarlier(base: int, planned: seq<Chunk>, i: nat, c: Chunk)
    requires i <= |planned| && Distinct(planned) && c in planned[i..]
    ensures Address(base, c) !in Pointers(base, planned[..i])
  {
    var k :| i <= k < |planned| && planned[k] == c;
  }

  lemma {:induction false} RetainedNone(base: int, chunks: seq<Chunk>, now: set<int>)
    requires forall c <- chunks :: Address(base, c) !in now
    ensures Retained(base, chunks, now) == []
  {
    if chunks != [] {
      assert chunks[0] in chunks;
      assert forall c <- chunks[1..] :: c in chunks;
      RetainedNone(base, chunks[1..], now);
    }
  }

  lemma {:induction false} RetainedConcat(base: int, a: seq<Chunk>, b: seq<Chunk>, now: set<int>)
    ensures Retained(base, a + b, now) == Retained(base, a, now) + Retained(base, b, now)
  {
    if a == [] {
      assert a + b == b;
    } else {
      assert (a + b)[0] == a[0] && (a + b)[1..] == a[1..] + b;
      RetainedConcat(base, a[1..], b, now);
      var first := if Address(base, a[0]) in now then [a[0]] else [];
      assert Retained(base, a + b, now) == first + (Retained(base, a[1..], now) + Retained(base, b, now));
      assert Retained(base, a, now) == first + Retained(base, a[1..], now);
    }
  }

  /** What the registering worker learns, whatever the runtime did. */
  ghost predicate PossibleRegistration(plan: seq<Chunk>, r: RegistrationResult) {
    && (r.Ok() ==> r.chunks == plan && r.rollback.None?)
    && (!r.Ok() ==> r.rollback.Some? && r.rollback.value.remaining == r.chunks && r.rollback.value.Consistent())
    && forall c <- r.chunks :: c in plan
  }

  ghost predicate PossibleRollback(chunks: seq<Chunk>, r: RollbackResult) {
    forall c <- r.remaining :: c in chunks
  }

  // ---------------------------------------------------------------------------
  // Status reported to the group
  // ---------------------------------------------------------------------------

  /** pin_mmap_region's local status: 0 pinned, 1 an ordinary failure fully rolled back, 2 anything worse. */
  function LocalStatus(r: RegistrationResult): nat {
    if r.Ok() then 0 else if r.raised || !r.RollbackOk() then 2 else 1
  }

  function RollbackStatus(r: RollbackResult): nat {
    if r.Ok() then 0 else 2
  }
}
