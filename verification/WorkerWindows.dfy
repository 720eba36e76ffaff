/** The worker windows of tools/analyze_release_timings.py: target scopes matched to the intervals between consecutive
    worker-entry markers, one accounted row for each retained target, and the tables summed over all of them. */
module WorkerWindows {
  import opened IntervalAccounting
  import opened Options

  // ---------------------------------------------------------------------------
  // Markers
  // ---------------------------------------------------------------------------

  /** A worker-entry annotation: when it starts, how long it lasts, and its decode round. */
  datatype Marker = Marker(start: int, dur: int, round: int)

  /** The order of (start, duration, round) tuples. */
  predicate NotAfter(a: Marker, b: Marker) {
    a.start < b.start || (a.start == b.start && (a.dur < b.dur || (a.dur == b.dur && a.round <= b.round)))
  }

  predicate Ordered(ms: seq<Marker>) {
    forall i, j :: 0 <= i < j < |ms| ==> NotAfter(ms[i], ms[j])
  }

  /** `x` lies between the entry of marker i and the next entry. */
  predicate Between(ms: seq<Marker>, i: nat, x: int) {
    i + 1 < |ms| && ms[i].start <= x < ms[i + 1].start
  }

  /** Marker i itself contains `x`, and the next marker is the next round's. */
  predicate Matches(ms: seq<Marker>, i: nat, x: int) {
    Between(ms, i, x) && x < ms[i].start + ms[i].dur && ms[i + 1].round == ms[i].round + 1
  }

  /** No moment lies in two intervals. */
  lemma BetweenOnce(ms: seq<Marker>, i: nat, j: nat, x: int)
    requires Ordered(ms) && Between(ms, i, x) && Between(ms, j, x)
    ensures i == j
  {
  }

  /** The marker whose interval a target belongs to. */
  ghost function Match(ms: seq<Marker>, x: int): (m: Option<nat>)
    ensures m.Some? ==> Matches(ms, m.value, x)
    ensures m.None? ==> forall i: nat :: !Matches(ms, i, x)
  {
    if exists i: nat :: Matches(ms, i, x) then
      var i: nat :| Matches(ms, i, x);
      Some(i)
    else None
  }

  /** A target has a marker exactly when it starts while some marker lasts, before the next one starts, and that next
      one is for the next round. */
  lemma MatchIs(ms: seq<Marker>, x: int)
    ensures Match(ms, x).Some? <==>
            exists i :: 0 <= i < |ms| - 1 && ms[i].start <= x && x < ms[i].start + ms[i].dur && x < ms[i + 1].start
                        && ms[i + 1].round - ms[i].round == 1
  {
    var m := Match(ms, x);
    if i: nat :| i < |ms| - 1 && ms[i].start <= x && x < ms[i].start + ms[i].dur && x < ms[i + 1].start
                 && ms[i + 1].round - ms[i].round == 1 {
      assert Matches(ms, i, x);
    }
  }

  /** bisect_right over the markers' starts. */
  method BisectRight(ms: seq<Marker>, x: int) returns (lo: nat)
    requires Ordered(ms)
    ensures lo <= |ms|
    ensures forall i :: 0 <= i < lo ==> ms[i].start <= x
    ensures forall i :: lo <= i < |ms| ==> x < ms[i].start
  {
    lo := 0;
    var hi := |ms|;
    while lo < hi
      invariant lo <= hi <= |ms|
      invariant forall i :: 0 <= i < lo ==> ms[i].start <= x
      invariant forall i :: hi <= i < |ms| ==> x < ms[i].start
    {
      var mid := (lo + hi) / 2;
      if x < ms[mid].start {
        forall i | mid <= i < |ms| ensures x < ms[i].start {
          assert mid < i ==> NotAfter(ms[mid], ms[i]);
        }
        hi := mid;
      } else {
        forall i | 0 <= i <= mid ensures ms[i].start <= x {
          assert i < mid ==> NotAfter(ms[i], ms[mid]);
        }
        lo := mid + 1;
      }
    }
  }

  /** The marker of one target, or None where the source raises. */
  method MatchTarget(ms: seq<Marker>, x: int) returns (m: Option<nat>)
    requires Ordered(ms)
    ensures m == Match(ms, x)
  {
    var after := BisectRight(ms, x);
    forall i: nat | Between(ms, i, x) ensures after == i + 1 {
    }
    if after == 0 || after >= |ms| { return None; }
    var i := after - 1;
    if !(ms[i].start <= x < ms[i].start + ms[i].dur) || ms[after].round != ms[i].round + 1 { return None; }
    assert Matches(ms, i, x);
    m := Some(i);
  }

  // ---------------------------------------------------------------------------
  // The windows of the retained targets
  // ---------------------------------------------------------------------------

  function Window(ms: seq<Marker>, i: nat): (int, int)
    requires i + 1 < |ms|
  {
    (ms[i].start, ms[i + 1].start)
  }

  const FIRST: int := 2

  /** The selected targets after the first two cycles, which are omitted as the trace's start. */
  function Retained(selected: seq<int>): seq<int> {
    if selected == [] then []
    else Retained(selected[..|selected| - 1]) + if selected[|selected| - 1] < FIRST then []
        else [selected[|selected| - 1]]
  }

  function Omitted(selected: seq<int>): seq<int> {
    if selected == [] then []
    else Omitted(selected[..|selected| - 1]) + if selected[|selected| - 1] < FIRST then [selected[|selected| - 1]]
        else []
  }

  /** `index` names a target that belongs to some marker's interval. */
  ghost predicate Placed(ms: seq<Marker>, targets: seq<int>, index: int) {
    0 <= index < |targets| && Match(ms, targets[index]).Some?
  }

  ghost function MarkerOf(ms: seq<Marker>, targets: seq<int>, index: int): (i: nat)
    requires Placed(ms, targets, index)
    ensures Matches(ms, i, targets[index])
  {
    Match(ms, targets[index]).value
  }

  ghost function WindowOf(ms: seq<Marker>, targets: seq<int>, index: int): (int, int)
    requires Placed(ms, targets, index)
  {
    Window(ms, MarkerOf(ms, targets, index))
  }

  ghost predicate AllPlaced(ms: seq<Marker>, targets: seq<int>, kept: seq<int>) {
    forall r :: 0 <= r < |kept| ==> Placed(ms, targets, kept[r])
  }

  ghost function WindowsOf(ms: seq<Marker>, targets: seq<int>, kept: seq<int>): (ws: seq<(int, int)>)
    requires AllPlaced(ms, targets, kept)
    ensures |ws| == |kept| && forall r :: 0 <= r < |ws| ==> ws[r] == WindowOf(ms, targets, kept[r])
  {
    seq(|kept|, r requires 0 <= r < |kept| => WindowOf(ms, targets, kept[r]))
  }

  /** A retained target lies in the interval of exactly one marker. */
  lemma InOneInterval(ms: seq<Marker>, targets: seq<int>, index: int, i: nat)
    requires Ordered(ms) && Placed(ms, targets, index)
    ensures Between(ms, i, targets[index]) <==> i == MarkerOf(ms, targets, index)
  {
    if Between(ms, i, targets[index]) { BetweenOnce(ms, i, MarkerOf(ms, targets, index), targets[index]); }
  }

  /** Two retained targets share a window or have disjoint ones: no time is counted for both. */
  lemma WindowsApart(ms: seq<Marker>, targets: seq<int>, a: int, b: int)
    requires Ordered(ms) && Placed(ms, targets, a) && Placed(ms, targets, b)
    ensures var u, v := WindowOf(ms, targets, a), WindowOf(ms, targets, b);
            u == v || u.1 <= v.0 || v.1 <= u.0
  {
    var i, j := MarkerOf(ms, targets, a), MarkerOf(ms, targets, b);
    if i < j {
      assert i + 1 < j ==> NotAfter(ms[i + 1], ms[j]);
    } else if j < i {
      assert j + 1 < i ==> NotAfter(ms[j + 1], ms[i]);
    }
  }

  // ---------------------------------------------------------------------------
  // The measurement
  // ---------------------------------------------------------------------------

  function SumKernels(rows: seq<Worker>): int {
    if rows == [] then 0 else SumKernels(rows[..|rows| - 1]) + rows[|rows| - 1].row.kernelSum
  }

  function KernelsOver(work: seq<Event>, windows: seq<(int, int)>, k: Key): nat {
    if windows == [] then 0
    else
      KernelsOver(work, windows[..|windows| - 1], k) +
      KernelPieces(work, windows[|windows| - 1].0, windows[|windows| - 1].1, k)
  }

  function RecordsOver(work: seq<Event>, windows: seq<(int, int)>, k: Key): nat {
    if windows == [] then 0
    else
      RecordsOver(work, windows[..|windows| - 1], k) +
      KernelRecords(work, windows[|windows| - 1].0, windows[|windows| - 1].1, k)
  }

  function LayersOver(work: seq<Event>, windows: seq<(int, int)>, k: (nat, nat)): nat {
    if windows == [] then 0
    else
      LayersOver(work, windows[..|windows| - 1], k) +
      LayerPieces(work, windows[|windows| - 1].0, windows[|windows| - 1].1, k)
  }

  /** A window's own numbers, apart from the running tally. */
  ghost predicate WorkerFor(work: seq<Event>, window: (int, int), w: Worker) {
    && Accounts(w.row, PieceSpans(work, window.0, window.1), window.1 - window.0)
    && w.row.kernelSum == TotalPieces(work, window.0, window.1) == SumMap(w.stages)
    && forall s: nat :: Get(w.stages, s) == StagePieces(work, window.0, window.1, s)
  }

  /** What the windows done so far have added up to. */
  ghost predicate TalliedOver(work: seq<Event>, windows: seq<(int, int)>, rows: seq<Worker>, tally: Tally) {
    && |rows| == |windows| && SumMap(tally.times) == SumKernels(rows)
    && (forall k: Key :: Get(tally.times, k) == KernelsOver(work, windows, k))
    && (forall k: Key :: Get(tally.counts, k) == RecordsOver(work, windows, k))
    && forall k: (nat, nat) :: Get(tally.layers, k) == LayersOver(work, windows, k)
  }

  lemma OverNext(work: seq<Event>, windows: seq<(int, int)>, rows: seq<Worker>, before: Tally, window: (int, int),
                 w: Worker, after: Tally)
    requires TalliedOver(work, windows, rows, before) && WindowAccounts(work, window.0, window.1, w, before, after)
    ensures TalliedOver(work, windows + [window], rows + [w], after) && WorkerFor(work, window, w)
  {
    hide Accounts, PieceSpans, TotalPieces, StagePieces, KernelPieces, KernelRecords, LayerPieces, CutPieces, SumMap,
         Get;
    assert (windows + [window])[..|windows|] == windows && (rows + [w])[..|rows|] == rows;
  }

  lemma OverNone(work: seq<Event>)
    ensures TalliedOver(work, [], [], Tally(map[], map[], map[]))
  {
  }

  /** One retained target's row: its marker's round, its own index, its window's numbers. */
  datatype Measured = Measured(round: int, target: int, worker: Worker)

  datatype Report = Report(rows: seq<Measured>, omissions: seq<int>, tally: Tally)

  function Workers(rows: seq<Measured>): (ws: seq<Worker>)
    ensures |ws| == |rows| && forall r :: 0 <= r < |ws| ==> ws[r] == rows[r].worker
  {
    seq(|rows|, r requires 0 <= r < |rows| => rows[r].worker)
  }

  ghost predicate AllValid(work: seq<Event>, windows: seq<(int, int)>) {
    forall r :: 0 <= r < |windows| ==> WindowValid(work, windows[r].0, windows[r].1)
  }

  /** Each row carries the round of the marker its target belongs to, and its window's numbers. */
  ghost predicate RowsFor(work: seq<Event>, ms: seq<Marker>, targets: seq<int>, kept: seq<int>, rows: seq<Measured>)
    requires AllPlaced(ms, targets, kept)
  {
    && |rows| == |kept|
    && forall r :: 0 <= r < |rows| ==>
         && rows[r].target == kept[r] && rows[r].round == ms[MarkerOf(ms, targets, kept[r])].round
         && WorkerFor(work, WindowOf(ms, targets, kept[r]), rows[r].worker)
  }

  /** Everything done for the targets of `kept`. */
  ghost predicate Measures(work: seq<Event>, ms: seq<Marker>, targets: seq<int>, kept: seq<int>, rows: seq<Measured>,
                           tally: Tally) {
    && AllPlaced(ms, targets, kept)
    && AllValid(work, WindowsOf(ms, targets, kept))
    && RowsFor(work, ms, targets, kept, rows)
    && TalliedOver(work, WindowsOf(ms, targets, kept), Workers(rows), tally)
  }

  lemma NothingMeasured(work: seq<Event>, ms: seq<Marker>, targets: seq<int>)
    ensures Measures(work, ms, targets, [], [], Tally(map[], map[], map[]))
  {
    OverNone(work);
    assert WindowsOf(ms, targets, []) == [] && Workers([]) == [];
  }

  lemma OneMeasured(work: seq<Event>, ms: seq<Marker>, targets: seq<int>, kept: seq<int>, rows: seq<Measured>,
                    before: Tally, index: int, w: Worker, after: Tally)
    requires Measures(work, ms, targets, kept, rows, before) && Placed(ms, targets, index)
    requires var (a, b) := WindowOf(ms, targets, index);
             WindowValid(work, a, b) && WindowAccounts(work, a, b, w, before, after)
    ensures Measures(work, ms, targets, kept + [index],
                     rows + [Measured(ms[MarkerOf(ms, targets, index)].round, index, w)], after)
  {
    hide WindowValid, WindowAccounts, WorkerFor, TalliedOver, Match, MarkerOf;
    var row := Measured(ms[MarkerOf(ms, targets, index)].round, index, w);
    var windows := WindowsOf(ms, targets, kept);
    OverNext(work, windows, Workers(rows), before, WindowOf(ms, targets, index), w, after);
    assert WindowsOf(ms, targets, kept + [index]) == windows + [WindowOf(ms, targets, index)];
    assert Workers(rows + [row]) == Workers(rows) + [w];
  }

  /** measure_worker_windows succeeds exactly when there are markers, some target is retained, and every retained one
      lies in a marker's interval whose work is classified and on one device. */
  ghost predicate Measurable(work: seq<Event>, ms: seq<Marker>, targets: seq<int>, selected: seq<int>) {
    && ms != [] && Retained(selected) != []
    && AllPlaced(ms, targets, Retained(selected)) && AllValid(work, WindowsOf(ms, targets, Retained(selected)))
  }

  lemma NotPlaced(work: seq<Event>, ms: seq<Marker>, targets: seq<int>, selected: seq<int>, r: nat)
    requires r < |selected| && selected[r] >= FIRST
    requires Placed(ms, targets, selected[r]) ==>
               var (a, b) := WindowOf(ms, targets, selected[r]); !WindowValid(work, a, b)
    ensures !Measurable(work, ms, targets, selected)
  {
    hide WindowValid, Match;
    var q := RetainedHolds(selected, r);
    if AllPlaced(ms, targets, Retained(selected)) {
      assert WindowsOf(ms, targets, Retained(selected))[q] == WindowOf(ms, targets, selected[r]);
    }
  }

  lemma {:induction false} RetainedHolds(selected: seq<int>, r: nat) returns (q: nat)
    requires r < |selected| && selected[r] >= FIRST
    ensures q < |Retained(selected)| && Retained(selected)[q] == selected[r]
  {
    var n := |selected| - 1;
    if r == n { q := |Retained(selected[..n])|; } else { q := RetainedHolds(selected[..n], r); }
  }

  /** measure_worker_windows; `targets` holds the CPU start of each target scope, None is an error.  The report's rows
      are the retained targets' in order; each table entry is that kernel's, or layer's, clipped time over their
      windows; the kernel table's grand total is the rows', so the closing consistency check never fails. */
  method MeasureWorkerWindows(work: seq<Event>, ms: seq<Marker>, targets: seq<int>, selected: seq<int>)
    returns (report: Option<Report>)
    requires Timed(work) && Ordered(ms)
    ensures report.Some? <==> Measurable(work, ms, targets, selected)
    ensures report.Some? ==>
              && Measures(work, ms, targets, Retained(selected), report.value.rows, report.value.tally)
              && report.value.omissions == Omitted(selected)
  {
    hide Measures, Measurable, WindowValid, WindowAccounts, Match, Matches, Retained, Omitted;
    if ms == [] {
      NoMarkers(work, targets, selected);
      return None;
    }
    var rows, omissions, tally := [], [], Tally(map[], map[], map[]);
    NothingMeasured(work, ms, targets);
    NothingSelected();
    assert selected[..0] == [];
    for r := 0 to |selected|
      invariant Measures(work, ms, targets, Retained(selected[..r]), rows, tally)
      invariant omissions == Omitted(selected[..r]) && |rows| == |Retained(selected[..r])|
    {
      var index := selected[r];
      SelectedNext(selected, r);
      if index < FIRST {
        omissions := omissions + [index];
        continue;
      }
      if !(0 <= index < |targets|) {
        NotPlaced(work, ms, targets, selected, r);
        return None;
      }
      var m := MatchTarget(ms, targets[index]);
      if m.None? {
        NotPlaced(work, ms, targets, selected, r);
        return None;
      }
      MatchInside(ms, targets, index);
      var w, after := MeasureWindow(work, ms[m.value].start, ms[m.value + 1].start, tally);
      if w.None? {
        NotPlaced(work, ms, targets, selected, r);
        return None;
      }
      OneMeasured(work, ms, targets, Retained(selected[..r]), rows, tally, index, w.value, after);
      rows := rows + [Measured(ms[m.value].round, index, w.value)];
      tally := after;
    }
    assert selected[..|selected|] == selected;
    Finished(work, ms, targets, selected, rows, tally);
    if rows == [] { return None; }
    report := Some(Report(rows, omissions, tally));
  }

  lemma NoMarkers(work: seq<Event>, targets: seq<int>, selected: seq<int>)
    ensures !Measurable(work, [], targets, selected)
  {
  }

  /** The first two targets are omitted and the others retained, each as often as it was selected. */
  lemma {:induction false} SelectedSplits(selected: seq<int>)
    ensures multiset(Retained(selected)) + multiset(Omitted(selected)) == multiset(selected)
    ensures forall i <- Retained(selected) :: 2 <= i
    ensures forall i <- Omitted(selected) :: i < 2
  {
    hide Retained, Omitted;
    if selected == [] {
      NothingSelected();
    } else {
      var n := |selected| - 1;
      SelectedSplits(selected[..n]);
      SelectedNext(selected, n);
      assert selected[..n + 1] == selected == selected[..n] + [selected[n]];
    }
  }

  lemma NothingSelected()
    ensures Retained([]) == [] && Omitted([]) == []
  {
  }

  lemma SelectedNext(selected: seq<int>, r: nat)
    requires r < |selected|
    ensures Retained(selected[..r + 1]) ==
            if selected[r] < FIRST then Retained(selected[..r]) else Retained(selected[..r]) + [selected[r]]
    ensures Omitted(selected[..r + 1]) ==
            if selected[r] < FIRST then Omitted(selected[..r]) + [selected[r]] else Omitted(selected[..r])
  {
    assert selected[..r + 1][..r] == selected[..r];
  }

  lemma MatchInside(ms: seq<Marker>, targets: seq<int>, index: int)
    requires 0 <= index < |targets| && Match(ms, targets[index]).Some?
    ensures Placed(ms, targets, index) && MarkerOf(ms, targets, index) == Match(ms, targets[index]).value
    ensures var i := MarkerOf(ms, targets, index);
            i + 1 < |ms| && ms[i].start <= ms[i + 1].start &&
                WindowOf(ms, targets, index) == (ms[i].start, ms[i + 1].start)
  {
    hide Match;
  }

  lemma Finished(work: seq<Event>, ms: seq<Marker>, targets: seq<int>, selected: seq<int>, rows: seq<Measured>,
                 tally: Tally)
    requires ms != [] && Measures(work, ms, targets, Retained(selected), rows, tally)
    ensures rows != [] <==> Measurable(work, ms, targets, selected)
  {
    hide WindowValid, TalliedOver, WorkerFor, Match, Retained;
  }
}
