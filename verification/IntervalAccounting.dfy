/** Interval accounting of saved traces (tools/analyze_release_timings.py, tools/analyze_cache_job_telemetry.py):
    the sorted sweep that measures a union of intervals, the per-round and per-worker-window rows built on it, and
    the unattributed time of a request.  Timestamps are integer ticks. */
module IntervalAccounting {
  import opened Options

  /** The half-open interval of ticks lo..hi-1. */
  datatype Span = Span(lo: int, hi: int)

  function Max(a: int, b: int): int {
    if a < b then b else a
  }

  function Min(a: int, b: int): int {
    if b < a then b else a
  }

  // ---------------------------------------------------------------------------
  // The measure of a union
  // ---------------------------------------------------------------------------

  function Range(a: int, b: int): (s: set<int>)
    ensures forall t: int :: t in s <==> a <= t < b
    ensures |s| == Max(0, b - a)
    decreases b - a
  {
    if b <= a then {} else Range(a, b - 1) + {b - 1}
  }

  /** The ticks some span covers. */
  function Ticks(spans: seq<Span>): set<int> {
    if spans == [] then {} else Ticks(spans[..|spans| - 1]) + Range(spans[|spans| - 1].lo, spans[|spans| - 1].hi)
  }

  function Lengths(spans: seq<Span>): (n: int)
    ensures 0 <= n
  {
    if spans == [] then 0 else Lengths(spans[..|spans| - 1]) + Max(0, spans[|spans| - 1].hi - spans[|spans| - 1].lo)
  }

  predicate Covers(spans: seq<Span>, t: int) {
    exists i :: 0 <= i < |spans| && spans[i].lo <= t < spans[i].hi
  }

  lemma CoversSnoc(spans: seq<Span>, s: Span, t: int)
    ensures Covers(spans + [s], t) <==> Covers(spans, t) || s.lo <= t < s.hi
  {
    var all := spans + [s];
    if Covers(spans, t) {
      var i :| 0 <= i < |spans| && spans[i].lo <= t < spans[i].hi;
      assert all[i] == spans[i];
    }
    if s.lo <= t < s.hi { assert all[|spans|] == s; }
  }

  lemma {:induction false} TicksHold(spans: seq<Span>, t: int)
    ensures t in Ticks(spans) <==> Covers(spans, t)
  {
    if spans != [] {
      var n := |spans| - 1;
      TicksHold(spans[..n], t);
      CoversSnoc(spans[..n], spans[n], t);
      hide Covers;
      assert spans == spans[..n] + [spans[n]];
    }
  }

  lemma UnionSize<T>(a: set<T>, b: set<T>)
    ensures |a + b| <= |a| + |b|
    ensures a * b == {} ==> |a + b| == |a| + |b|
  {
    assert |a + b| + |a * b| == |a| + |b|;
  }

  /** Overlap is never negative. */
  lemma {:induction false} TicksWithinLengths(spans: seq<Span>)
    ensures |Ticks(spans)| <= Lengths(spans)
  {
    if spans != [] {
      TicksWithinLengths(spans[..|spans| - 1]);
      UnionSize(Ticks(spans[..|spans| - 1]), Range(spans[|spans| - 1].lo, spans[|spans| - 1].hi));
    }
  }

  predicate Within(spans: seq<Span>, a: int, b: int) {
    forall i :: 0 <= i < |spans| ==> a <= spans[i].lo && spans[i].hi <= b
  }

  lemma SubsetSize<T>(a: set<T>, b: set<T>)
    requires a <= b
    ensures |a| <= |b|
  {
    assert b == a + (b - a);
    UnionSize(a, b - a);
  }

  /** Occupied time never exceeds the window. */
  lemma TicksWithinWindow(spans: seq<Span>, a: int, b: int)
    requires Within(spans, a, b) && a <= b
    ensures |Ticks(spans)| <= b - a
  {
    forall t | t in Ticks(spans) ensures t in Range(a, b) {
      TicksHold(spans, t);
    }
    SubsetSize(Ticks(spans), Range(a, b));
  }

  // ---------------------------------------------------------------------------
  // Sorting
  // ---------------------------------------------------------------------------

  predicate Ordered(spans: seq<Span>) {
    forall i, j :: 0 <= i < j < |spans| ==> spans[i].lo <= spans[j].lo
  }

  predicate Precedes(a: Span, b: Span) {
    a.lo < b.lo || (a.lo == b.lo && a.hi <= b.hi)
  }

  function Insert(s: Span, spans: seq<Span>): (out: seq<Span>)
    ensures multiset(out) == multiset(spans) + multiset{s}
  {
    if spans == [] || Precedes(s, spans[0]) then [s] + spans
    else
      assert spans == [spans[0]] + spans[1..];
      [spans[0]] + Insert(s, spans[1..])
  }

  lemma {:induction false} InsertOrders(s: Span, spans: seq<Span>)
    requires Ordered(spans)
    ensures Ordered(Insert(s, spans))
  {
    if spans != [] && !Precedes(s, spans[0]) {
      var rest := Insert(s, spans[1..]);
      InsertOrders(s, spans[1..]);
      forall i | 0 <= i < |rest| ensures spans[0].lo <= rest[i].lo {
        assert rest[i] in multiset(spans[1..]) + multiset{s};
      }
    }
  }

  /** Python's sorted on a list of pairs. */
  function Sorted(spans: seq<Span>): (out: seq<Span>)
    ensures multiset(out) == multiset(spans)
  {
    if spans == [] then []
    else
      assert spans == spans[..|spans| - 1] + [spans[|spans| - 1]];
      Insert(spans[|spans| - 1], Sorted(spans[..|spans| - 1]))
  }

  lemma {:induction false} SortedOrders(spans: seq<Span>)
    ensures Ordered(Sorted(spans))
  {
    if spans != [] {
      SortedOrders(spans[..|spans| - 1]);
      InsertOrders(spans[|spans| - 1], Sorted(spans[..|spans| - 1]));
    }
  }

  lemma SameTicks(a: seq<Span>, b: seq<Span>)
    requires multiset(a) == multiset(b)
    ensures Ticks(a) == Ticks(b)
  {
    forall t ensures t in Ticks(a) <==> t in Ticks(b) {
      TicksHold(a, t);
      TicksHold(b, t);
      if i :| 0 <= i < |a| && a[i].lo <= t < a[i].hi {
        assert a[i] in multiset(b);
        var j :| 0 <= j < |b| && b[j] == a[i];
      }
      if i :| 0 <= i < |b| && b[i].lo <= t < b[i].hi {
        assert b[i] in multiset(a);
        var j :| 0 <= j < |a| && a[j] == b[i];
      }
    }
  }

  // ---------------------------------------------------------------------------
  // The sweep
  // ---------------------------------------------------------------------------

  /** After the spans of `done`, none starting after `at`: nothing reaches past `right`, and everything from `at` up
      to `right` is covered. */
  ghost predicate Frontier(done: seq<Span>, at: int, right: int) {
    (forall t <- Ticks(done) :: t < right) && forall t: int :: at <= t < right ==> t in Ticks(done)
  }

  lemma TicksSnoc(done: seq<Span>, s: Span)
    ensures Ticks(done + [s]) == Ticks(done) + Range(s.lo, s.hi)
  {
    assert (done + [s])[..|done|] == done;
  }

  /** The next span adds the ticks past the frontier, and moves it. */
  lemma SweepStep(done: seq<Span>, at: int, right: int, s: Span)
    requires Frontier(done, at, right) && at <= s.lo
    ensures |Ticks(done + [s])| == |Ticks(done)| + Max(0, s.hi - Max(s.lo, right))
    ensures Frontier(done + [s], s.lo, Max(right, s.hi))
  {
    TicksSnoc(done, s);
    hide Ticks, Range;
    var covered, gained := Ticks(done), Range(Max(s.lo, right), s.hi);
    forall t: int ensures t in covered + Range(s.lo, s.hi) <==> t in covered + gained {
    }
    assert covered + Range(s.lo, s.hi) == covered + gained;
    forall t | t in covered ensures t !in gained {
    }
    assert covered * gained == {};
    UnionSize(covered, gained);
  }

  lemma Prefix(order: seq<Span>, i: nat)
    requires i < |order|
    ensures order[..i + 1] == order[..i] + [order[i]]
  {
  }

  /** The sorted order covers the same ticks, and nothing is covered before it starts. */
  lemma SortedFacts(spans: seq<Span>)
    ensures Ticks(Sorted(spans)) == Ticks(spans) && Ordered(Sorted(spans))
    ensures Ticks(Sorted(spans)[..0]) == {} && Sorted(spans)[..|Sorted(spans)|] == Sorted(spans)
    ensures forall s :: s in Sorted(spans) <==> s in spans
  {
    SortedOrders(spans);
    SameTicks(Sorted(spans), spans);
    hide Sorted;
    forall s ensures s in Sorted(spans) <==> s in spans {
      assert s in multiset(Sorted(spans)) <==> s in multiset(spans);
    }
  }

  lemma NothingSwept()
    ensures Frontier([], 0, 0)
  {
  }

  /** The sweep of a window whose spans start at or after zero. */
  method SweepWindow(spans: seq<Span>) returns (busy: int)
    requires forall s <- spans :: 0 <= s.lo
    ensures busy == |Ticks(spans)|
  {
    hide Ticks, Frontier, Sorted;
    var order := Sorted(spans);
    SortedFacts(spans);
    NothingSwept();
    var end := 0;
    busy := 0;
    ghost var at := 0;
    for i := 0 to |order|
      invariant busy == |Ticks(order[..i])| && Frontier(order[..i], at, end)
      invariant forall j :: i <= j < |order| ==> at <= order[j].lo
    {
      var s := order[i];
      SweepStep(order[..i], at, end, s);
      Prefix(order, i);
      busy := busy + Max(0, s.hi - Max(s.lo, end));
      at, end := s.lo, Max(end, s.hi);
    }
  }

  /** Before the first span with any ticks, the frontier may be put at its start. */
  lemma FirstFrontier(done: seq<Span>, at: int)
    requires Ticks(done) == {}
    ensures Frontier(done, at, at)
  {
  }

  lemma EmptySpan(done: seq<Span>, s: Span)
    requires s.hi <= s.lo
    ensures Ticks(done + [s]) == Ticks(done)
  {
    TicksSnoc(done, s);
  }

  lemma SameFrontier(done: seq<Span>, more: seq<Span>, at: int, right: int)
    requires Ticks(more) == Ticks(done) && Frontier(done, at, right)
    ensures Frontier(more, at, right)
  {
  }

  /** union_ms, in ticks. */
  method Union(spans: seq<Span>) returns (total: int)
    ensures total == |Ticks(spans)|
  {
    hide Ticks, Frontier, Sorted;
    var order := Sorted(spans);
    SortedFacts(spans);
    total := 0;
    var right: Option<int> := None;
    ghost var at := 0;
    for i := 0 to |order|
      invariant total == |Ticks(order[..i])|
      invariant right.None? ==> Ticks(order[..i]) == {}
      invariant right.Some? ==> Frontier(order[..i], at, right.value) && forall j :: i <= j < |order| ==>
                at <= order[j].lo
    {
      var s := order[i];
      Prefix(order, i);
      if s.hi <= s.lo {
        EmptySpan(order[..i], s);
        if right.Some? { SameFrontier(order[..i], order[..i + 1], at, right.value); }
        continue;
      }
      var from := if right.Some? then right.value else s.lo;
      if right.None? {
        at := s.lo;
        FirstFrontier(order[..i], at);
      }
      SweepStep(order[..i], at, from, s);
      total := total + Max(0, s.hi - Max(s.lo, from));
      right := Some(Max(s.hi, from));
      at := s.lo;
    }
  }

  /** The unattributed part of analyze_request: phase spans clipped to the window, their union taken from it. */
  method Unattributed(spans: seq<Span>, start: int, end: int) returns (covered: int, unattributed: int)
    requires start <= end
    ensures covered == |Ticks(ClippedSpans(spans, start, end))|
    ensures 0 <= unattributed == (end - start) - covered
  {
    hide Ticks;
    var intervals := [];
    for i := 0 to |spans|
      invariant intervals == ClippedSpans(spans[..i], start, end)
    {
      assert spans[..i + 1][..i] == spans[..i];
      var first, last := Max(start, spans[i].lo), Min(end, spans[i].hi);
      if last > first { intervals := intervals + [Span(first, last)]; }
    }
    assert spans[..|spans|] == spans;
    covered := Union(intervals);
    ClippedWithin(spans, start, end);
    TicksWithinWindow(intervals, start, end);
    unattributed := Max(0, (end - start) - covered);
  }

  function ClippedSpans(spans: seq<Span>, start: int, end: int): (out: seq<Span>)
  {
    if spans == [] then []
    else
      var s := spans[|spans| - 1];
      var first, last := Max(start, s.lo), Min(end, s.hi);
      ClippedSpans(spans[..|spans| - 1], start, end) + if last > first then [Span(first, last)] else []
  }

  lemma {:induction false} ClippedWithin(spans: seq<Span>, start: int, end: int)
    ensures Within(ClippedSpans(spans, start, end), start, end)
  {
    if spans != [] { ClippedWithin(spans[..|spans| - 1], start, end); }
  }

  /** Clipping keeps exactly the covered ticks of the window. */
  lemma {:induction false} ClippedTicks(spans: seq<Span>, start: int, end: int)
    ensures Ticks(ClippedSpans(spans, start, end)) == Ticks(spans) * Range(start, end)
  {
    hide Range;
    if spans != [] {
      var rest, s := spans[..|spans| - 1], spans[|spans| - 1];
      ClippedTicks(rest, start, end);
      ClippedNext(ClippedSpans(rest, start, end), s, start, end);
    }
  }

  lemma ClippedNext(done: seq<Span>, s: Span, start: int, end: int)
    ensures var first, last := Max(start, s.lo), Min(end, s.hi);
            Ticks(done + if last > first then [Span(first, last)] else []) ==
                Ticks(done) + Range(s.lo, s.hi) * Range(start, end)
  {
    hide Ticks, Range;
    var first, last := Max(start, s.lo), Min(end, s.hi);
    assert Range(s.lo, s.hi) * Range(start, end) == Range(first, last);
    if last > first {
      TicksSnoc(done, Span(first, last));
    } else {
      assert Range(first, last) == {};
      assert done + [] == done;
    }
  }

  // ---------------------------------------------------------------------------
  // Rounds: complete cycles on one device
  // ---------------------------------------------------------------------------

  /** A GPU activity record; `stage` is its classification, when it has one. */
  datatype Event = Event(begin: int, dur: int, kernel: bool, device: nat, stage: Option<nat>, layer: Option<nat>,
                         name: nat)

  predicate Touches(e: Event, start: int, stop: int) {
    e.begin < stop && start < e.begin + e.dur
  }

  predicate Admissible(e: Event, start: int, stop: int, transfers: bool) {
    start <= e.begin && e.begin + e.dur <= stop && (e.kernel || transfers)
  }

  function Spans(work: seq<Event>, start: int, stop: int): (out: seq<Span>) {
    if work == [] then []
    else
      var e := work[|work| - 1];
      Spans(work[..|work| - 1], start, stop) +
          if Touches(e, start, stop) then [Span(e.begin - start, e.begin - start + e.dur)] else []
  }

  function Devices(work: seq<Event>, start: int, stop: int): set<nat> {
    set e | e in work && Touches(e, start, stop) :: e.device
  }

  datatype Row = Row(elapsed: int, kernelSum: int, busy: int, overlap: int, overhead: int)

  /** A row's numbers: busy is the measure of the union, kernelSum the sum of lengths, and the two clamped
      differences are the true ones, so the cycle equation holds. */
  ghost predicate Accounts(row: Row, spans: seq<Span>, elapsed: int) {
    && row.elapsed == elapsed && row.busy == |Ticks(spans)| && row.kernelSum == Lengths(spans)
    && row.overlap == row.kernelSum - row.busy >= 0
    && row.overhead == row.elapsed - row.busy >= 0
    && row.elapsed == row.kernelSum - row.overlap + row.overhead
  }

  ghost predicate RoundValid(work: seq<Event>, start: int, stop: int, transfers: bool) {
    && (forall e <- work :: Touches(e, start, stop) ==> Admissible(e, start, stop, transfers))
    && |Devices(work, start, stop)| == 1
  }

  predicate Timed(work: seq<Event>) {
    forall e <- work :: 0 <= e.dur
  }

  lemma {:induction false} SpansWithin(work: seq<Event>, start: int, stop: int, transfers: bool)
    requires forall e <- work :: Touches(e, start, stop) ==> Admissible(e, start, stop, transfers)
    ensures Within(Spans(work, start, stop), 0, stop - start)
    ensures forall s <- Spans(work, start, stop) :: 0 <= s.lo
  {
    if work != [] {
      assert work[|work| - 1] in work;
      SpansWithin(work[..|work| - 1], start, stop, transfers);
    }
  }

  lemma RowAccounts(spans: seq<Span>, elapsed: int, row: Row)
    requires Within(spans, 0, elapsed) && 0 <= elapsed
    requires var busy := |Ticks(spans)|;
             row == Row(elapsed, Lengths(spans), busy, Max(0, Lengths(spans) - busy), Max(0, elapsed - busy))
    ensures Accounts(row, spans, elapsed)
  {
    hide Ticks, Lengths, Within;
    TicksWithinLengths(spans);
    TicksWithinWindow(spans, 0, elapsed);
  }

  lemma DevicesNext(work: seq<Event>, i: nat, start: int, stop: int)
    requires i < |work|
    ensures Devices(work[..i + 1], start, stop) ==
            Devices(work[..i], start, stop) + if Touches(work[i], start, stop) then {work[i].device} else {}
  {
    assert work[..i + 1] == work[..i] + [work[i]];
  }

  lemma NoSpans(start: int, stop: int)
    ensures Spans([], start, stop) == [] && Devices([], start, stop) == {}
  {
  }

  lemma SpansSnoc(done: seq<Event>, e: Event, start: int, stop: int)
    ensures Spans(done + [e], start, stop) ==
            if Touches(e, start, stop) then Spans(done, start, stop) + [Span(e.begin - start, e.begin - start + e.dur)]
            else Spans(done, start, stop)
  {
    assert (done + [e])[..|done|] == done;
  }

  /** One round of measure_round_windows; None is the error. */
  method MeasureRound(work: seq<Event>, start: int, stop: int, transfers: bool) returns (row: Option<Row>)
    requires start < stop && Timed(work)
    ensures row.Some? <==> RoundValid(work, start, stop, transfers)
    ensures row.Some? ==> Accounts(row.value, Spans(work, start, stop), stop - start)
  {
    hide Ticks, Lengths, Accounts, Spans, Devices;
    var elapsed := stop - start;
    var intervals, kernelSum, devices := [], 0, {};
    NoLengths();
    NoSpans(start, stop);
    assert work[..0] == [];
    for i := 0 to |work|
      invariant forall e <- work[..i] :: Touches(e, start, stop) ==> Admissible(e, start, stop, transfers)
      invariant intervals == Spans(work[..i], start, stop) && kernelSum == Lengths(intervals)
      invariant devices == Devices(work[..i], start, stop)
    {
      var e := work[i];
      assert work[..i + 1] == work[..i] + [e];
      assert e in work;
      SpansSnoc(work[..i], e, start, stop);
      DevicesNext(work, i, start, stop);
      var relative := e.begin - start;
      var end := relative + e.dur;
      if relative >= elapsed || end <= 0 { continue; }
      if relative < 0 || end > elapsed { return None; }
      if !e.kernel && !transfers { return None; }
      LengthsSnoc(intervals, Span(relative, end));
      devices := devices + {e.device};
      intervals := intervals + [Span(relative, end)];
      kernelSum := kernelSum + e.dur;
    }
    assert work[..|work|] == work;
    if |devices| != 1 { return None; }
    SpansWithin(work, start, stop, transfers);
    var busy := SweepWindow(intervals);
    row := Some(Row(elapsed, kernelSum, busy, Max(0, kernelSum - busy), Max(0, elapsed - busy)));
    RowAccounts(intervals, elapsed, row.value);
  }

  lemma NoLengths()
    ensures Lengths([]) == 0
  {
  }

  lemma LengthsSnoc(spans: seq<Span>, s: Span)
    ensures Lengths(spans + [s]) == Lengths(spans) + Max(0, s.hi - s.lo)
  {
    assert (spans + [s])[..|spans|] == spans;
  }

  predicate Increasing(xs: seq<int>) {
    forall i, j :: 0 <= i < j < |xs| ==> xs[i] < xs[j]
  }

  /** Ordered round starts, and a non-empty ascending choice of rounds that have a next start. */
  ghost predicate WindowsValid(starts: seq<int>, selected: seq<int>) {
    && 2 <= |starts| && Increasing(starts) && selected != [] && Increasing(selected)
    && forall i <- selected :: 0 <= i && i + 1 < |starts|
  }

  method Ascending(xs: seq<int>) returns (ok: bool)
    ensures ok == Increasing(xs)
  {
    var i := 1;
    while i < |xs|
      invariant 1 <= i && forall a, b :: 0 <= a < b < i && b < |xs| ==> xs[a] < xs[b]
    {
      if xs[i] <= xs[i - 1] { return false; }
      i := i + 1;
    }
    ok := true;
  }

  ghost predicate RoundValidAt(work: seq<Event>, starts: seq<int>, i: int, transfers: bool) {
    0 <= i && i + 1 < |starts| && RoundValid(work, starts[i], starts[i + 1], transfers)
  }

  ghost predicate RowFor(work: seq<Event>, starts: seq<int>, i: int, row: Row) {
    0 <= i && i + 1 < |starts| && Accounts(row, Spans(work, starts[i], starts[i + 1]), starts[i + 1] - starts[i])
  }

  /** measure_round_windows: every selected round's row, or an error exactly when the windows, an event or a round
      is invalid. */
  method MeasureRoundWindows(work: seq<Event>, starts: seq<int>, selected: seq<int>, transfers: bool)
    returns (rows: Option<seq<Row>>)
    ensures rows.Some? <==>
            WindowsValid(starts, selected) && Timed(work) &&
                forall i <- selected :: RoundValidAt(work, starts, i, transfers)
    ensures rows.Some? ==> |rows.value| == |selected| && forall r :: 0 <= r < |selected| ==>
            RowFor(work, starts, selected[r], rows.value[r])
  {
    hide RoundValid, Accounts, Spans;
    var up := Ascending(starts);
    var chosen := Ascending(selected);
    if |starts| < 2 || !up || selected == [] || !chosen ||
        (exists i <- selected :: i < 0 || i + 1 >= |starts|) { return None; }
    if exists e <- work :: e.dur < 0 { return None; }
    var out := [];
    for r := 0 to |selected|
      invariant |out| == r
      invariant forall m :: 0 <= m < r ==>
                RoundValidAt(work, starts, selected[m], transfers) && RowFor(work, starts, selected[m], out[m])
    {
      var index := selected[r];
      assert index in selected;
      var row := MeasureRound(work, starts[index], starts[index + 1], transfers);
      if row.None? { return None; }
      out := out + [row.value];
    }
    rows := Some(out);
  }

  // ---------------------------------------------------------------------------
  // Worker windows: work clipped at the boundaries
  // ---------------------------------------------------------------------------

  /** The ticks of an event inside a window. */
  function Piece(e: Event, start: int, stop: int): (n: nat) {
    Max(0, Min(stop, e.begin + e.dur) - Max(start, e.begin))
  }

  /** Copies and fills are bookkeeping whatever their classification. */
  const OTHER: nat := 0

  function StageOf(e: Event): Option<nat> {
    if e.kernel then e.stage else Some(OTHER)
  }

  function TotalPieces(work: seq<Event>, start: int, stop: int): nat {
    if work == [] then 0 else TotalPieces(work[..|work| - 1], start, stop) + Piece(work[|work| - 1], start, stop)
  }

  function StagePieces(work: seq<Event>, start: int, stop: int, s: nat): nat {
    if work == [] then 0
    else
      var e := work[|work| - 1];
      StagePieces(work[..|work| - 1], start, stop, s) + if StageOf(e) == Some(s) then Piece(e, start, stop) else 0
  }

  predicate CutBy(e: Event, start: int, stop: int) {
    e.begin < start || stop < e.begin + e.dur
  }

  /** The pieces of events a boundary cuts. */
  function CutPieces(work: seq<Event>, start: int, stop: int): nat {
    if work == [] then 0
    else
      var e := work[|work| - 1];
      CutPieces(work[..|work| - 1], start, stop) + if CutBy(e, start, stop) then Piece(e, start, stop) else 0
  }

  lemma CutSnoc(done: seq<Event>, e: Event, start: int, stop: int)
    ensures CutPieces(done + [e], start, stop) == CutPieces(done, start, stop) +
            if CutBy(e, start, stop) then Piece(e, start, stop) else 0
  {
    assert (done + [e])[..|done|] == done;
  }

  type Key = (nat, nat)

  function KernelPieces(work: seq<Event>, start: int, stop: int, k: Key): nat {
    if work == [] then 0
    else
      var e := work[|work| - 1];
      KernelPieces(work[..|work| - 1], start, stop, k) +
          if (StageOf(e), e.name) == (Some(k.0), k.1) then Piece(e, start, stop) else 0
  }

  /** How many pieces a (stage, kernel) has. */
  function KernelRecords(work: seq<Event>, start: int, stop: int, k: Key): nat {
    if work == [] then 0
    else
      var e := work[|work| - 1];
      KernelRecords(work[..|work| - 1], start, stop, k) +
      if (StageOf(e), e.name) == (Some(k.0), k.1) && Piece(e, start, stop) > 0 then 1 else 0
  }

  lemma RecordsSnoc(done: seq<Event>, e: Event, start: int, stop: int, k: Key)
    ensures KernelRecords(done + [e], start, stop, k) ==
            KernelRecords(done, start, stop, k) +
                if (StageOf(e), e.name) == (Some(k.0), k.1) && Piece(e, start, stop) > 0 then 1 else 0
  {
    assert (done + [e])[..|done|] == done;
  }

  /** The record counts after the events of `done`. */
  ghost predicate Counted(done: seq<Event>, start: int, stop: int, before: map<Key, nat>, counts: map<Key, nat>) {
    forall k: Key :: Get(counts, k) == Get(before, k) + KernelRecords(done, start, stop, k)
  }

  lemma CountedNext(done: seq<Event>, e: Event, start: int, stop: int, before: map<Key, nat>, counts: map<Key, nat>)
    requires Counted(done, start, stop, before, counts)
    ensures Piece(e, start, stop) == 0 ==> Counted(done + [e], start, stop, before, counts)
    ensures Piece(e, start, stop) > 0 && StageOf(e).Some? ==>
              var key := (StageOf(e).value, e.name);
              Counted(done + [e], start, stop, before, counts[key := Get(counts, key) + 1])
  {
    hide Piece, KernelRecords, Get;
    forall k: Key ensures Piece(e, start, stop) == 0 ==>
      KernelRecords(done + [e], start, stop, k) == KernelRecords(done, start, stop, k) {
      RecordsSnoc(done, e, start, stop, k);
    }
    if Piece(e, start, stop) > 0 && StageOf(e).Some? {
      var key := (StageOf(e).value, e.name);
      forall k: Key ensures Get(counts[key := Get(counts, key) + 1], k) ==
        Get(before, k) + KernelRecords(done + [e], start, stop, k) {
        GetAdds(counts, key, 1, k);
        RecordsSnoc(done, e, start, stop, k);
      }
    }
  }

  /** The time of a layer in a stage. */
  function LayerPieces(work: seq<Event>, start: int, stop: int, k: (nat, nat)): nat {
    if work == [] then 0
    else
      var e := work[|work| - 1];
      LayerPieces(work[..|work| - 1], start, stop, k) +
      if e.layer == Some(k.0) && StageOf(e) == Some(k.1) then Piece(e, start, stop) else 0
  }

  lemma LayersSnoc(done: seq<Event>, e: Event, start: int, stop: int, k: (nat, nat))
    ensures LayerPieces(done + [e], start, stop, k) ==
            LayerPieces(done, start, stop, k) +
            if e.layer == Some(k.0) && StageOf(e) == Some(k.1) then Piece(e, start, stop) else 0
  {
    assert (done + [e])[..|done|] == done;
  }

  /** The layer table after the events of `done`. */
  ghost predicate Layered(done: seq<Event>, start: int, stop: int, before: map<(nat, nat), nat>,
                          layers: map<(nat, nat), nat>) {
    forall k: (nat, nat) :: Get(layers, k) == Get(before, k) + LayerPieces(done, start, stop, k)
  }

  /** The layer table after one more event. */
  function AddLayer(e: Event, n: nat, layers: map<(nat, nat), nat>): map<(nat, nat), nat> {
    if e.layer.Some? && StageOf(e).Some? then
      var k := (e.layer.value, StageOf(e).value);
      layers[k := Get(layers, k) + n]
    else layers
  }

  lemma LayeredNext(done: seq<Event>, e: Event, start: int, stop: int, before: map<(nat, nat), nat>,
                    layers: map<(nat, nat), nat>)
    requires Layered(done, start, stop, before, layers)
    ensures Piece(e, start, stop) == 0 ==> Layered(done + [e], start, stop, before, layers)
    ensures Layered(done + [e], start, stop, before, AddLayer(e, Piece(e, start, stop), layers))
  {
    hide Piece, LayerPieces, Get, StageOf;
    var n, after := Piece(e, start, stop), AddLayer(e, Piece(e, start, stop), layers);
    forall k: (nat, nat)
      ensures Get(after, k) == Get(before, k) + LayerPieces(done + [e], start, stop, k)
      ensures n == 0 ==> LayerPieces(done + [e], start, stop, k) == LayerPieces(done, start, stop, k)
    {
      LayersSnoc(done, e, start, stop, k);
      if e.layer.Some? && StageOf(e).Some? { GetAdds(layers, (e.layer.value, StageOf(e).value), n, k); }
    }
  }

  lemma NothingLayered(start: int, stop: int, layers: map<(nat, nat), nat>)
    ensures Layered([], start, stop, layers, layers)
  {
  }

  lemma NothingCounted(start: int, stop: int, counts: map<Key, nat>)
    ensures Counted([], start, stop, counts, counts)
  {
  }

  /** An event's piece as a span of the window, when it has one. */
  function PieceSpan(e: Event, start: int, stop: int): seq<Span> {
    if Piece(e, start, stop) > 0 then [Span(Max(start, e.begin) - start, Min(stop, e.begin + e.dur) - start)] else []
  }

  function PieceSpans(work: seq<Event>, start: int, stop: int): seq<Span> {
    if work == [] then [] else PieceSpans(work[..|work| - 1], start, stop) + PieceSpan(work[|work| - 1], start, stop)
  }

  lemma PieceAppends(spans: seq<Span>, e: Event, start: int, stop: int)
    ensures Lengths(spans + PieceSpan(e, start, stop)) == Lengths(spans) + Piece(e, start, stop)
    ensures Within(PieceSpan(e, start, stop), 0, stop - start) && forall s <- PieceSpan(e, start, stop) :: 0 <= s.lo
  {
    hide Lengths;
    if Piece(e, start, stop) > 0 {
      LengthsSnoc(spans, PieceSpan(e, start, stop)[0]);
    } else {
      assert spans + [] == spans;
    }
  }

  lemma {:induction false} PieceSpansFacts(work: seq<Event>, start: int, stop: int)
    ensures Lengths(PieceSpans(work, start, stop)) == TotalPieces(work, start, stop)
    ensures Within(PieceSpans(work, start, stop), 0, stop - start) &&
            forall s <- PieceSpans(work, start, stop) :: 0 <= s.lo
  {
    hide Piece, PieceSpan;
    if work == [] {
      NoLengths();
    } else {
      var rest := PieceSpans(work[..|work| - 1], start, stop);
      PieceSpansFacts(work[..|work| - 1], start, stop);
      PieceAppends(rest, work[|work| - 1], start, stop);
      hide Lengths;
    }
  }

  /** Cutting a window in two cuts each event's piece in two. */
  lemma PieceSplits(e: Event, a: int, b: int, c: int)
    requires a <= b <= c && 0 <= e.dur
    ensures Piece(e, a, b) + Piece(e, b, c) == Piece(e, a, c)
  {
  }

  /** The pieces of an event over consecutive windows. */
  function PiecesOver(e: Event, bounds: seq<int>): nat {
    if |bounds| < 2 then 0
        else PiecesOver(e, bounds[..|bounds| - 1]) + Piece(e, bounds[|bounds| - 2], bounds[|bounds| - 1])
  }

  /** Over consecutive windows an event's pieces sum to its piece of the whole span. */
  lemma {:induction false} PiecesSum(e: Event, bounds: seq<int>)
    requires bounds != [] && 0 <= e.dur && forall i, j :: 0 <= i < j < |bounds| ==> bounds[i] <= bounds[j]
    ensures PiecesOver(e, bounds) == Piece(e, bounds[0], bounds[|bounds| - 1])
  {
    hide Piece;
    if |bounds| == 1 {
      EmptyWindow(e, bounds[0]);
    } else {
      var n := |bounds| - 1;
      PiecesSum(e, bounds[..n]);
      PieceSplits(e, bounds[0], bounds[n - 1], bounds[n]);
    }
  }

  lemma EmptyWindow(e: Event, a: int)
    ensures Piece(e, a, a) == 0
  {
  }

  /** So nothing is lost or counted twice: an event inside the span is counted for exactly its duration. */
  lemma DurationConserved(e: Event, bounds: seq<int>)
    requires bounds != [] && 0 <= e.dur && forall i, j :: 0 <= i < j < |bounds| ==> bounds[i] <= bounds[j]
    requires bounds[0] <= e.begin && e.begin + e.dur <= bounds[|bounds| - 1]
    ensures PiecesOver(e, bounds) == e.dur
  {
    hide PiecesOver;
    PiecesSum(e, bounds);
  }

  // Totals kept in dictionaries.

  ghost function SumOver<K>(m: map<K, nat>, keys: set<K>): nat
    requires keys <= m.Keys
  {
    if keys == {} then 0 else var k :| k in keys; m[k] + SumOver(m, keys - {k})
  }

  ghost function SumMap<K>(m: map<K, nat>): nat {
    SumOver(m, m.Keys)
  }

  lemma {:induction false} SumOverAny<K>(m: map<K, nat>, keys: set<K>, k: K)
    requires keys <= m.Keys && k in keys
    ensures SumOver(m, keys) == m[k] + SumOver(m, keys - {k})
    decreases |keys|
  {
    var j :| j in keys && SumOver(m, keys) == m[j] + SumOver(m, keys - {j});
    if j != k {
      SumOverAny(m, keys - {j}, k);
      SumOverAny(m, keys - {k}, j);
      assert keys - {j} - {k} == keys - {k} - {j};
    }
  }

  lemma {:induction false} SumOverSame<K>(m: map<K, nat>, n: map<K, nat>, keys: set<K>)
    requires keys <= m.Keys && keys <= n.Keys && forall k <- keys :: m[k] == n[k]
    ensures SumOver(m, keys) == SumOver(n, keys)
    decreases |keys|
  {
    if keys != {} {
      var k :| k in keys;
      SumOverAny(m, keys, k);
      SumOverAny(n, keys, k);
      SumOverSame(m, n, keys - {k});
    }
  }

  function Get<K>(m: map<K, nat>, k: K): nat {
    if k in m then m[k] else 0
  }

  /** Adding to one entry adds to the total. */
  lemma SumMapAdds<K>(m: map<K, nat>, k: K, n: nat)
    ensures SumMap(m[k := Get(m, k) + n]) == SumMap(m) + n
  {
    var u := m[k := Get(m, k) + n];
    SumOverAny(u, u.Keys, k);
    SumOverSame(u, m, u.Keys - {k});
    if k in m {
      SumOverAny(m, m.Keys, k);
      assert u.Keys - {k} == m.Keys - {k};
    } else {
      assert u.Keys - {k} == m.Keys;
    }
  }

  /** The sum of a dictionary's values. */
  method SumValues(m: map<nat, nat>) returns (total: nat)
    ensures total == SumMap(m)
  {
    var keys := m.Keys;
    total := 0;
    while keys != {}
      invariant keys <= m.Keys && total + SumOver(m, keys) == SumMap(m)
      decreases |keys|
    {
      var k :| k in keys;
      SumOverAny(m, keys, k);
      total := total + m[k];
      keys := keys - {k};
    }
  }

  /** One worker window's row, with its stage dictionary. */
  datatype Worker = Worker(row: Row, clipped: nat, count: nat, stages: map<nat, nat>)

  /** The dictionaries of the whole measurement: records and time by (stage, kernel), time by (layer, stage). */
  datatype Tally = Tally(counts: map<Key, nat>, times: map<Key, nat>, layers: map<(nat, nat), nat>)

  ghost predicate WindowValid(work: seq<Event>, start: int, stop: int) {
    && (forall e <- work :: Piece(e, start, stop) > 0 ==> StageOf(e).Some?)
    && |ActiveDevices(work, start, stop)| == 1
  }

  function ActiveDevices(work: seq<Event>, start: int, stop: int): set<nat> {
    set e | e in work && Piece(e, start, stop) > 0 :: e.device
  }

  lemma ActiveNext(work: seq<Event>, i: nat, start: int, stop: int)
    requires i < |work|
    ensures ActiveDevices(work[..i + 1], start, stop) ==
            ActiveDevices(work[..i], start, stop) + if Piece(work[i], start, stop) > 0 then {work[i].device} else {}
  {
    assert work[..i + 1] == work[..i] + [work[i]];
  }

  /** What one window contributes: the row accounts for the clipped pieces, each stage holds exactly its pieces, and
      each (stage, kernel) entry and the grand total grow by exactly theirs. */
  ghost predicate WindowAccounts(work: seq<Event>, start: int, stop: int, w: Worker, before: Tally, after: Tally) {
    && Accounts(w.row, PieceSpans(work, start, stop), stop - start)
    && w.row.kernelSum == TotalPieces(work, start, stop) == SumMap(w.stages)
    && (forall s: nat :: Get(w.stages, s) == StagePieces(work, start, stop, s))
    && w.count == |PieceSpans(work, start, stop)| && w.clipped == CutPieces(work, start, stop)
    && SumMap(after.times) == SumMap(before.times) + TotalPieces(work, start, stop)
    && (forall k: Key :: Get(after.times, k) == Get(before.times, k) + KernelPieces(work, start, stop, k))
    && Counted(work, start, stop, before.counts, after.counts)
    && Layered(work, start, stop, before.layers, after.layers)
  }

  // The clipped tables tick by tick.

  /** The event runs at some tick of the window. */
  ghost predicate RunsIn(e: Event, start: int, stop: int) {
    exists t: int :: start <= t < stop && Runs(e, t)
  }

  predicate Runs(e: Event, t: int) {
    e.begin <= t < e.begin + e.dur
  }

  lemma PieceRuns(e: Event, start: int, stop: int)
    ensures Piece(e, start, stop) > 0 <==> RunsIn(e, start, stop)
  {
    if Piece(e, start, stop) > 0 { assert Runs(e, Max(start, e.begin)); }
  }

  /** The ticks of a window at which the i-th event, one that `keep` selects, runs. */
  function Moments(work: seq<Event>, start: int, stop: int, keep: Event -> bool): (ms: set<(int, int)>) {
    set i, t | 0 <= i < |work| && t in Range(start, stop) && keep(work[i]) && Runs(work[i], t) :: (i, t)
  }

  /** A range of ticks, each paired with one number. */
  lemma {:induction false} PairedRange(n: int, a: int, b: int) returns (s: set<(int, int)>)
    ensures |s| == Max(0, b - a) && forall i, t :: (i, t) in s <==> i == n && a <= t < b
    decreases b - a
  {
    if b <= a { return {}; }
    s := PairedRange(n, a, b - 1);
    s := s + {(n, b - 1)};
  }

  lemma MomentsHold(done: seq<Event>, e: Event, start: int, stop: int, keep: Event -> bool, i: int, t: int)
    ensures (i, t) in Moments(done + [e], start, stop, keep) <==>
            (i, t) in Moments(done, start, stop, keep) || (i == |done| && keep(e) && start <= t < stop && Runs(e, t))
  {
  }

  lemma NoneLater(done: seq<Event>, start: int, stop: int, keep: Event -> bool, s: set<(int, int)>)
    requires forall p <- s :: p.0 == |done|
    ensures Moments(done, start, stop, keep) * s == {}
  {
  }

  lemma MomentsSnoc(done: seq<Event>, e: Event, start: int, stop: int, keep: Event -> bool)
    ensures |Moments(done + [e], start, stop, keep)| ==
            |Moments(done, start, stop, keep)| + if keep(e) then Piece(e, start, stop) else 0
  {
    var all, before := Moments(done + [e], start, stop, keep), Moments(done, start, stop, keep);
    if keep(e) {
      var s := PairedRange(|done|, Max(start, e.begin), Min(stop, e.begin + e.dur));
      forall p: (int, int) ensures p in all <==> p in before || p in s {
        MomentsHold(done, e, start, stop, keep, p.0, p.1);
        assert p == (p.0, p.1);
      }
      assert all == before + s;
      NoneLater(done, start, stop, keep, s);
      UnionSize(before, s);
    } else {
      forall p: (int, int) ensures p in all <==> p in before { MomentsHold(done, e, start, stop, keep, p.0, p.1); }
      assert all == before;
    }
  }

  lemma LastMoments(work: seq<Event>, start: int, stop: int, keep: Event -> bool)
    requires work != []
    ensures var n := |work| - 1;
            |Moments(work, start, stop, keep)| ==
            |Moments(work[..n], start, stop, keep)| + if keep(work[n]) then Piece(work[n], start, stop) else 0
  {
    var n := |work| - 1;
    MomentsSnoc(work[..n], work[n], start, stop, keep);
    assert work[..n] + [work[n]] == work;
  }

  /** The stage table's entries, from the records' own fields: a stage holds the ticks of its kernels, and the
      bookkeeping stage those of the copies and fills, whatever their classification. */
  lemma {:induction false} StageTicks(work: seq<Event>, start: int, stop: int, s: nat, keep: Event -> bool)
    requires forall e :: keep(e) <==> if e.kernel then e.stage == Some(s) else s == OTHER
    ensures StagePieces(work, start, stop, s) == |Moments(work, start, stop, keep)|
  {
    hide Piece;
    if work != [] {
      StageTicks(work[..|work| - 1], start, stop, s, keep);
      LastMoments(work, start, stop, keep);
      hide Moments;
    }
  }

  /** The kernel table's entries: the ticks of the kernel's records in the stage. */
  lemma {:induction false} KernelTicks(work: seq<Event>, start: int, stop: int, s: nat, name: nat, keep: Event -> bool)
    requires forall e :: keep(e) <==> e.name == name && if e.kernel then e.stage == Some(s) else s == OTHER
    ensures KernelPieces(work, start, stop, (s, name)) == |Moments(work, start, stop, keep)|
  {
    hide Piece;
    if work != [] {
      KernelTicks(work[..|work| - 1], start, stop, s, name, keep);
      LastMoments(work, start, stop, keep);
      hide Moments;
    }
  }

  /** The layer table's entries: the ticks of the layer's records in the stage. */
  lemma {:induction false} LayerTicks(work: seq<Event>, start: int, stop: int, layer: nat, s: nat, keep: Event -> bool)
    requires forall e :: keep(e) <==> e.layer == Some(layer) && if e.kernel then e.stage == Some(s) else s == OTHER
    ensures LayerPieces(work, start, stop, (layer, s)) == |Moments(work, start, stop, keep)|
  {
    hide Piece;
    if work != [] {
      LayerTicks(work[..|work| - 1], start, stop, layer, s, keep);
      LastMoments(work, start, stop, keep);
      hide Moments;
    }
  }

  /** A row's kernel time and its clipped activity: the ticks of all records, and of those a boundary cuts. */
  lemma {:induction false} RowTicks(work: seq<Event>, start: int, stop: int, all: Event -> bool, cut: Event -> bool)
    requires forall e :: all(e) && (cut(e) <==> e.begin < start || stop < e.begin + e.dur)
    ensures TotalPieces(work, start, stop) == |Moments(work, start, stop, all)|
    ensures CutPieces(work, start, stop) == |Moments(work, start, stop, cut)|
  {
    hide Piece;
    if work != [] {
      RowTicks(work[..|work| - 1], start, stop, all, cut);
      LastMoments(work, start, stop, all);
      LastMoments(work, start, stop, cut);
      hide Moments;
    }
  }

  /** The records `keep` selects that run in the window. */
  ghost function Running(work: seq<Event>, start: int, stop: int, keep: Event -> bool): set<int> {
    set i | 0 <= i < |work| && keep(work[i]) && RunsIn(work[i], start, stop)
  }

  lemma LastRunning(work: seq<Event>, start: int, stop: int, keep: Event -> bool)
    requires work != []
    ensures var n := |work| - 1;
            |Running(work, start, stop, keep)| ==
            |Running(work[..n], start, stop, keep)| + if keep(work[n]) && Piece(work[n], start, stop) > 0 then 1 else 0
  {
    var n := |work| - 1;
    PieceRuns(work[n], start, stop);
    hide Piece, RunsIn;
    var before := Running(work[..n], start, stop, keep);
    assert Running(work, start, stop, keep) ==
           before + if keep(work[n]) && RunsIn(work[n], start, stop) then {n} else {};
  }

  /** The record counts: a kernel's records in the stage that run in the window, and all that do. */
  lemma {:induction false} RecordCounts(work: seq<Event>, start: int, stop: int, s: nat, name: nat,
                                        keep: Event -> bool, all: Event -> bool)
    requires forall e :: all(e) && (keep(e) <==> e.name == name && if e.kernel then e.stage == Some(s) else s == OTHER)
    ensures KernelRecords(work, start, stop, (s, name)) == |Running(work, start, stop, keep)|
    ensures |PieceSpans(work, start, stop)| == |Running(work, start, stop, all)|
  {
    hide Piece;
    if work != [] {
      RecordCounts(work[..|work| - 1], start, stop, s, name, keep, all);
      LastRunning(work, start, stop, keep);
      LastRunning(work, start, stop, all);
      hide Running;
    }
  }

  /** A window is an error exactly when a kernel that runs in it has no stage, nothing runs in it, or two records that
      do ran on different devices. */
  lemma WindowErrors(work: seq<Event>, start: int, stop: int)
    ensures WindowValid(work, start, stop) <==>
            && (forall e <- work :: RunsIn(e, start, stop) && e.kernel ==> e.stage.Some?)
            && (exists e <- work :: RunsIn(e, start, stop))
            && (forall e, f :: e in work && f in work && RunsIn(e, start, stop) && RunsIn(f, start, stop) ==>
                  e.device == f.device)
  {
    forall e ensures Piece(e, start, stop) > 0 <==> RunsIn(e, start, stop) { PieceRuns(e, start, stop); }
    hide Piece, RunsIn, StageOf;
    var ds := ActiveDevices(work, start, stop);
    OneElement(ds);
    forall e | e in work && RunsIn(e, start, stop) ensures e.device in ds {}
    forall d <- ds ensures exists e <- work :: RunsIn(e, start, stop) && e.device == d {}
    forall e ensures StageOf(e).Some? <==> !e.kernel || e.stage.Some? { Classified(e); }
  }

  lemma Classified(e: Event)
    ensures StageOf(e).Some? <==> !e.kernel || e.stage.Some?
  {
  }

  lemma OneElement(ds: set<nat>)
    ensures |ds| == 1 <==> ds != {} && forall c <- ds, d <- ds :: c == d
  {
    if |ds| == 1 {
      forall c <- ds, d <- ds ensures c == d { SubsetSize({c, d}, ds); }
    }
    if d :| d in ds && forall c <- ds :: c == d {
      assert ds == {d};
    }
  }

  ghost predicate SomeRuns(work: seq<Event>, t: int) {
    exists e <- work :: Runs(e, t)
  }

  lemma SomeRunsSnoc(done: seq<Event>, e: Event, t: int)
    ensures SomeRuns(done + [e], t) <==> SomeRuns(done, t) || Runs(e, t)
  {
    if f :| f in done && Runs(f, t) { assert f in done + [e]; }
    assert e in done + [e];
  }

  /** Busy time: a tick is covered exactly when some record runs at it. */
  lemma {:induction false} BusyTicks(work: seq<Event>, start: int, stop: int, t: int)
    ensures t in Ticks(PieceSpans(work, start, stop)) <==> start <= start + t < stop && SomeRuns(work, start + t)
  {
    hide SomeRuns, Piece, Ticks;
    TicksHold(PieceSpans(work, start, stop), t);
    if work == [] {
      NobodyRuns(start + t);
    } else {
      var n := |work| - 1;
      BusyTicks(work[..n], start, stop, t);
      TicksHold(PieceSpans(work[..n], start, stop), t);
      assert work == work[..n] + [work[n]];
      SomeRunsSnoc(work[..n], work[n], start + t);
      PieceCovers(PieceSpans(work[..n], start, stop), work[n], start, stop, t);
    }
  }

  lemma NobodyRuns(t: int)
    ensures !SomeRuns([], t)
  {
  }

  lemma PieceCovers(spans: seq<Span>, e: Event, start: int, stop: int, t: int)
    ensures Covers(spans + PieceSpan(e, start, stop), t) <==>
            Covers(spans, t) || (start <= start + t < stop && Runs(e, start + t))
  {
    if Piece(e, start, stop) > 0 {
      CoversSnoc(spans, PieceSpan(e, start, stop)[0], t);
    } else {
      assert spans + [] == spans;
    }
  }

  /** In a valid round nothing is clipped: the kernel sum is that of the pieces, and a tick is covered exactly when some
      record runs at it. */
  lemma {:induction false} RoundTicks(work: seq<Event>, start: int, stop: int, transfers: bool, t: int)
    requires Timed(work) && forall e <- work :: Touches(e, start, stop) ==> Admissible(e, start, stop, transfers)
    ensures Lengths(Spans(work, start, stop)) == TotalPieces(work, start, stop)
    ensures t in Ticks(Spans(work, start, stop)) <==> start <= start + t < stop && SomeRuns(work, start + t)
  {
    hide SomeRuns, Piece, Ticks, Lengths, Touches, Admissible;
    TicksHold(Spans(work, start, stop), t);
    if work == [] {
      NobodyRuns(start + t);
      NoLengths();
    } else {
      var n := |work| - 1;
      assert work[n] in work;
      RoundTicks(work[..n], start, stop, transfers, t);
      TicksHold(Spans(work[..n], start, stop), t);
      assert work == work[..n] + [work[n]];
      SomeRunsSnoc(work[..n], work[n], start + t);
      SpanCovers(Spans(work[..n], start, stop), work[n], start, stop, transfers, t);
    }
  }

  lemma SpanCovers(spans: seq<Span>, e: Event, start: int, stop: int, transfers: bool, t: int)
    requires 0 <= e.dur && (Touches(e, start, stop) ==> Admissible(e, start, stop, transfers))
    ensures var s := if Touches(e, start, stop) then [Span(e.begin - start, e.begin - start + e.dur)] else [];
            && Lengths(spans + s) == Lengths(spans) + Piece(e, start, stop)
            && (Covers(spans + s, t) <==> Covers(spans, t) || (start <= start + t < stop && Runs(e, start + t)))
  {
    hide Lengths;
    if Touches(e, start, stop) {
      CoversSnoc(spans, Span(e.begin - start, e.begin - start + e.dur), t);
      LengthsSnoc(spans, Span(e.begin - start, e.begin - start + e.dur));
    } else {
      assert spans + [] == spans;
    }
  }

  /** A round is an error exactly when a record that overlaps its inside reaches out of it or is a copy or fill where
      those are not allowed, or no record overlaps it, or two that do are on different devices. */
  lemma RoundErrors(work: seq<Event>, start: int, stop: int, transfers: bool)
    ensures RoundValid(work, start, stop, transfers) <==>
            && (forall e <- work :: e.begin < stop && start < e.begin + e.dur ==>
                  start <= e.begin && e.begin + e.dur <= stop && (e.kernel || transfers))
            && (exists e <- work :: e.begin < stop && start < e.begin + e.dur)
            && (forall e <- work, f <- work ::
                  (e.begin < stop && start < e.begin + e.dur && f.begin < stop && start < f.begin + f.dur) ==>
                    e.device == f.device)
  {
    var ds := Devices(work, start, stop);
    OneElement(ds);
    forall e | e in work && Touches(e, start, stop) ensures e.device in ds {}
    forall d <- ds ensures exists e <- work :: Touches(e, start, stop) && e.device == d {}
  }

  /** One stage or kernel entry after the first i events. */
  ghost predicate Tallied(done: seq<Event>, start: int, stop: int, stages: map<nat, nat>, before: map<Key, nat>,
                          times: map<Key, nat>) {
    && SumMap(stages) == TotalPieces(done, start, stop)
    && (forall s: nat :: Get(stages, s) == StagePieces(done, start, stop, s))
    && SumMap(times) == SumMap(before) + TotalPieces(done, start, stop)
    && forall k: Key :: Get(times, k) == Get(before, k) + KernelPieces(done, start, stop, k)
  }

  lemma TotalsSnoc(done: seq<Event>, e: Event, start: int, stop: int, s: nat, k: Key)
    ensures TotalPieces(done + [e], start, stop) == TotalPieces(done, start, stop) + Piece(e, start, stop)
    ensures StagePieces(done + [e], start, stop, s) ==
            StagePieces(done, start, stop, s) + if StageOf(e) == Some(s) then Piece(e, start, stop) else 0
    ensures KernelPieces(done + [e], start, stop, k) ==
            KernelPieces(done, start, stop, k) + if (StageOf(e), e.name) == (Some(k.0), k.1) then Piece(e, start, stop)
                else 0
  {
    assert (done + [e])[..|done|] == done;
  }

  /** An event with no piece changes no total. */
  lemma TalliedSkip(done: seq<Event>, e: Event, start: int, stop: int, stages: map<nat, nat>, before: map<Key, nat>,
                    times: map<Key, nat>)
    requires Tallied(done, start, stop, stages, before, times) && Piece(e, start, stop) == 0
    ensures Tallied(done + [e], start, stop, stages, before, times)
  {
    hide Piece, TotalPieces, StagePieces, KernelPieces, SumMap, Get;
    TotalsSnoc(done, e, start, stop, 0, (0, 0));
    forall s: nat ensures StagePieces(done + [e], start, stop, s) == StagePieces(done, start, stop, s) {
      TotalsSnoc(done, e, start, stop, s, (0, 0));
    }
    forall k: Key ensures KernelPieces(done + [e], start, stop, k) == KernelPieces(done, start, stop, k) {
      TotalsSnoc(done, e, start, stop, 0, k);
    }
  }

  lemma GetAdds<K>(m: map<K, nat>, k: K, n: nat, j: K)
    ensures Get(m[k := Get(m, k) + n], j) == Get(m, j) + if j == k then n else 0
  {
  }

  /** An event's piece goes to its stage and to its kernel, once each. */
  lemma TalliedNext(done: seq<Event>, e: Event, start: int, stop: int, stages: map<nat, nat>, before: map<Key, nat>,
                    times: map<Key, nat>)
    requires Tallied(done, start, stop, stages, before, times) && StageOf(e).Some?
    ensures var s, n := StageOf(e).value, Piece(e, start, stop);
            Tallied(done + [e], start, stop, stages[s := Get(stages, s) + n], before,
                    times[(s, e.name) := Get(times, (s, e.name)) + n])
  {
    hide Piece, TotalPieces, StagePieces, KernelPieces, SumMap, Get;
    var s, n := StageOf(e).value, Piece(e, start, stop);
    TotalsSnoc(done, e, start, stop, 0, (0, 0));
    SumMapAdds(stages, s, n);
    SumMapAdds(times, (s, e.name), n);
    forall r: nat
      ensures Get(stages[s := Get(stages, s) + n], r) == StagePieces(done + [e], start, stop, r)
    {
      GetAdds(stages, s, n, r);
      TotalsSnoc(done, e, start, stop, r, (0, 0));
    }
    forall k: Key
      ensures Get(times[(s, e.name) := Get(times, (s, e.name)) + n], k) ==
              Get(before, k) + KernelPieces(done + [e], start, stop, k)
    {
      GetAdds(times, (s, e.name), n, k);
      TotalsSnoc(done, e, start, stop, 0, k);
    }
  }

  lemma NothingTallied(start: int, stop: int, times: map<Key, nat>)
    ensures Tallied([], start, stop, map[], times, times)
  {
  }

  lemma SpansNext(done: seq<Event>, e: Event, start: int, stop: int)
    ensures PieceSpans(done + [e], start, stop) == PieceSpans(done, start, stop) + PieceSpan(e, start, stop)
  {
    assert (done + [e])[..|done|] == done;
  }

  lemma PrefixOf(work: seq<Event>, i: nat)
    requires i < |work|
    ensures work[..i + 1] == work[..i] + [work[i]]
  {
  }

  /** All the tables after the events of `done`. */
  ghost predicate Tabled(done: seq<Event>, start: int, stop: int, before: Tally, stages: map<nat, nat>, t: Tally) {
    && Tallied(done, start, stop, stages, before.times, t.times)
    && Counted(done, start, stop, before.counts, t.counts)
    && Layered(done, start, stop, before.layers, t.layers)
  }

  lemma NothingTabled(start: int, stop: int, before: Tally)
    ensures Tabled([], start, stop, before, map[], before)
  {
    NothingTallied(start, stop, before.times);
    NothingCounted(start, stop, before.counts);
    NothingLayered(start, stop, before.layers);
  }

  lemma TabledSkip(done: seq<Event>, e: Event, start: int, stop: int, before: Tally, stages: map<nat, nat>, t: Tally)
    requires Tabled(done, start, stop, before, stages, t) && Piece(e, start, stop) == 0
    ensures Tabled(done + [e], start, stop, before, stages, t)
  {
    hide Tallied, Counted, Layered;
    TalliedSkip(done, e, start, stop, stages, before.times, t.times);
    CountedNext(done, e, start, stop, before.counts, t.counts);
    LayeredNext(done, e, start, stop, before.layers, t.layers);
  }

  /** The tables with one more piece of `n` ticks. */
  function Booked(e: Event, stage: nat, n: nat, t: Tally): Tally {
    var key := (stage, e.name);
    Tally(t.counts[key := Get(t.counts, key) + 1], t.times[key := Get(t.times, key) + n], AddLayer(e, n, t.layers))
  }

  lemma TabledNext(done: seq<Event>, e: Event, start: int, stop: int, before: Tally, stages: map<nat, nat>, t: Tally)
    requires Tabled(done, start, stop, before, stages, t) && Piece(e, start, stop) > 0 && StageOf(e).Some?
    ensures var s, n := StageOf(e).value, Piece(e, start, stop);
            Tabled(done + [e], start, stop, before, stages[s := Get(stages, s) + n], Booked(e, s, n, t))
  {
    hide Tallied, Counted, Layered, AddLayer;
    TalliedNext(done, e, start, stop, stages, before.times, t.times);
    CountedNext(done, e, start, stop, before.counts, t.counts);
    LayeredNext(done, e, start, stop, before.layers, t.layers);
  }

  /** The loop over the activity of one window: clip each event, book its piece; `ok` is false at the error. */
  method ClipWindow(work: seq<Event>, start: int, stop: int, before: Tally)
    returns (ok: bool, stages: map<nat, nat>, tables: Tally, intervals: seq<Span>, devices: set<nat>, clipped: nat)
    ensures ok <==> forall e <- work :: Piece(e, start, stop) > 0 ==> StageOf(e).Some?
    ensures ok ==> Tabled(work, start, stop, before, stages, tables) && clipped == CutPieces(work, start, stop)
    ensures ok ==> intervals == PieceSpans(work, start, stop) && devices == ActiveDevices(work, start, stop)
  {
    hide Tabled, Booked, PieceSpans, PieceSpan, CutPieces, Get;
    ok, stages, tables := true, map[], before;
    intervals, devices, clipped := [], {}, 0;
    NothingTabled(start, stop, before);
    NoPieces(start, stop);
    assert work[..0] == [];
    for i := 0 to |work|
      invariant ok && forall e <- work[..i] :: Piece(e, start, stop) > 0 ==> StageOf(e).Some?
      invariant Tabled(work[..i], start, stop, before, stages, tables) && clipped == CutPieces(work[..i], start, stop)
      invariant intervals == PieceSpans(work[..i], start, stop) && devices == ActiveDevices(work[..i], start, stop)
    {
      var e := work[i];
      assert e in work;
      PrefixOf(work, i);
      ActiveNext(work, i, start, stop);
      SpansNext(work[..i], e, start, stop);
      SpanOf(e, start, stop);
      CutSnoc(work[..i], e, start, stop);
      var begin, end := e.begin, e.begin + e.dur;
      var lo, hi := Max(start, begin), Min(stop, end);
      if hi <= lo {
        TabledSkip(work[..i], e, start, stop, before, stages, tables);
        assert PieceSpans(work[..i], start, stop) + [] == PieceSpans(work[..i], start, stop);
        continue;
      }
      var stage := StageOf(e);
      if stage.None? {
        ok := false;
        return;
      }
      TabledNext(work[..i], e, start, stop, before, stages, tables);
      stages := stages[stage.value := Get(stages, stage.value) + (hi - lo)];
      tables := Booked(e, stage.value, hi - lo, tables);
      intervals := intervals + [Span(lo - start, hi - start)];
      devices := devices + {e.device};
      clipped := clipped + if lo != begin || hi != end then hi - lo else 0;
    }
    assert work[..|work|] == work;
  }

  /** One window of measure_worker_windows; None is the error. */
  method MeasureWindow(work: seq<Event>, start: int, stop: int, before: Tally) returns (w: Option<Worker>, after: Tally)
    requires start <= stop && Timed(work)
    ensures w.Some? <==> WindowValid(work, start, stop)
    ensures w.Some? ==> WindowAccounts(work, start, stop, w.value, before, after)
  {
    hide Tabled, PieceSpans, Accounts, Ticks, Lengths, CutPieces, WindowAccounts, ActiveDevices, Piece;
    var ok, stages, tables, intervals, devices, clipped := ClipWindow(work, start, stop, before);
    after := tables;
    if !ok || |devices| != 1 { return None, after; }
    PieceSpansFacts(work, start, stop);
    var occupied := SweepWindow(intervals);
    var total := SumValues(stages);
    StagesTotal(work, start, stop, before, stages, tables);
    var row := Row(stop - start, total, occupied, Max(0, total - occupied), stop - start - occupied);
    TicksWithinWindow(intervals, 0, stop - start);
    RowAccounts(intervals, stop - start, row);
    w := Some(Worker(row, clipped, |intervals|, stages));
    FinishWindow(work, start, stop, w.value, before, after);
  }

  lemma StagesTotal(work: seq<Event>, start: int, stop: int, before: Tally, stages: map<nat, nat>, t: Tally)
    requires Tabled(work, start, stop, before, stages, t)
    ensures SumMap(stages) == Lengths(PieceSpans(work, start, stop))
  {
    hide TotalPieces, PieceSpans, Lengths, SumMap, Get;
    PieceSpansFacts(work, start, stop);
  }

  lemma FinishWindow(work: seq<Event>, start: int, stop: int, w: Worker, before: Tally, after: Tally)
    requires Tabled(work, start, stop, before, w.stages, after)
    requires Accounts(w.row, PieceSpans(work, start, stop), stop - start)
    requires w.count == |PieceSpans(work, start, stop)| && w.clipped == CutPieces(work, start, stop)
    ensures WindowAccounts(work, start, stop, w, before, after)
  {
    hide Ticks, Lengths, PieceSpans, TotalPieces, StagePieces, KernelPieces, SumMap, Get, Counted, Layered;
    PieceSpansFacts(work, start, stop);
  }

  lemma NoPieces(start: int, stop: int)
    ensures PieceSpans([], start, stop) == [] && CutPieces([], start, stop) == 0
  {
  }

  lemma SpanOf(e: Event, start: int, stop: int)
    ensures var lo, hi := Max(start, e.begin), Min(stop, e.begin + e.dur);
            Piece(e, start, stop) == Max(0, hi - lo) && PieceSpan(e, start, stop) ==
                if hi > lo then [Span(lo - start, hi - start)] else []
  {
  }
}
