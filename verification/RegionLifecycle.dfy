/** The race of N workers to create, join, map and unlink one shared-memory pathname
    (the constructor installed by patch_kv_offload_lifecycle.py).

    File-system rules are those of POSIX.1-2017: open() with O_CREAT and O_EXCL creates the file if the name
    is free and fails if it is taken; open() without them fails if the name is free; unlink() frees the name
    and leaves open descriptions and mappings alone.  Any call may also fail for other reasons, except that
    unlink() of a linked name succeeds.  The barrier returns only when every worker has called it, and may
    raise at any time. */
module RegionLifecycle {
  import opened Options

  datatype Pc =
    | Start          // about to open with O_EXCL
    | Joining        // the name was taken; about to reopen it
    | AwaitSize      // joiner, waiting for the file to reach its full size
    | Sizing         // creator, checking free space and truncating
    | Mapping        // about to map the file
    | Unwinding      // an exception was raised; about to unlink if it is the creator's
    | Releasing      // about to call the barrier from the exception handler
    | HandlerBarrier // inside that call
    | Mapped         // about to call the barrier
    | InBarrier      // inside that call
    | Released       // the barrier returned; the creator is about to unlink
    | BarrierRaised  // the barrier raised; the creator is about to unlink
    | Returned
    | Raised

  datatype Worker = Worker(
    pc: Pc,
    file: Option<nat>,   // the file behind its descriptor
    creator: bool,       // it created the linked file and still owes the unlink
    abandoned: bool,     // it was a creator and unlinked without a completed rendezvous
    calls: nat)          // how often it has called the barrier

  datatype State = State(path: Option<nat>, next: nat, sized: set<nat>, workers: seq<Worker>)

  predicate Called(w: Worker) {
    w.calls == 1
  }

  predicate AllCalled(s: State) {
    forall i :: 0 <= i < |s.workers| ==> Called(s.workers[i])
  }

  function With(s: State, i: nat, w: Worker): State
    requires i < |s.workers|
  {
    s.(workers := s.workers[i := w])
  }

  predicate Open(s: State, i: nat, s': State)
    requires i < |s.workers|
  {
    var w := s.workers[i];
    w.pc == Start &&
    (|| s' == With(s, i, w.(pc := Unwinding))
     || match s.path
        case None =>
          s' == With(s, i, w.(pc := Sizing, file := Some(s.next), creator := true))
                .(path := Some(s.next), next := s.next + 1)
        case Some(_) => s' == With(s, i, w.(pc := Joining)))
  }

  predicate Join(s: State, i: nat, s': State)
    requires i < |s.workers|
  {
    var w := s.workers[i];
    || (w.pc == Joining && s' == With(s, i, w.(pc := Unwinding)))
    || (w.pc == Joining && s.path.Some? && s' == With(s, i, w.(pc := AwaitSize, file := s.path)))
    || (w.pc == AwaitSize && s' == With(s, i, w.(pc := Unwinding, file := None)))
    || (w.pc == AwaitSize && w.file.Some? && w.file.value in s.sized && s' == With(s, i, w.(pc := Mapping)))
  }

  predicate Size(s: State, i: nat, s': State)
    requires i < |s.workers|
  {
    var w := s.workers[i];
    w.pc == Sizing && w.file.Some? &&
    (|| s' == With(s, i, w.(pc := Unwinding))
     || s' == With(s, i, w.(pc := Mapping)).(sized := s.sized + {w.file.value}))
  }

  predicate Map(s: State, i: nat, s': State)
    requires i < |s.workers|
  {
    var w := s.workers[i];
    w.pc == Mapping && (s' == With(s, i, w.(pc := Unwinding)) || s' == With(s, i, w.(pc := Mapped)))
  }

  /** Unlinking is by name: whatever the name denotes at that moment goes. */
  function Unlinked(s: State, w: Worker): Option<nat> {
    if w.creator then None else s.path
  }

  predicate Unwind(s: State, i: nat, s': State)
    requires i < |s.workers|
  {
    var w := s.workers[i];
    w.pc == Unwinding &&
    s' == With(s, i,
        w.(pc := Releasing, creator := false, abandoned := w.abandoned || w.creator)).(path := Unlinked(s, w))
  }

  predicate Call(s: State, i: nat, s': State)
    requires i < |s.workers|
  {
    var w := s.workers[i];
    || (w.pc == Releasing && s' == With(s, i, w.(pc := HandlerBarrier, calls := w.calls + 1)))
    || (w.pc == Mapped && s' == With(s, i, w.(pc := InBarrier, calls := w.calls + 1)))
  }

  predicate Leave(s: State, i: nat, s': State)
    requires i < |s.workers|
  {
    var w := s.workers[i];
    || (w.pc == HandlerBarrier && s' == With(s, i, w.(pc := Raised)))
    || (w.pc == InBarrier && AllCalled(s) && s' == With(s, i, w.(pc := Released)))
    || (w.pc == InBarrier && s' == With(s, i, w.(pc := BarrierRaised)))
  }

  predicate Finish(s: State, i: nat, s': State)
    requires i < |s.workers|
  {
    var w := s.workers[i];
    || (w.pc == Released && s' == With(s, i, w.(pc := Returned, creator := false)).(path := Unlinked(s, w)))
    || (w.pc == BarrierRaised
        && s' == With(s, i,
             w.(pc := Raised, creator := false, abandoned := w.abandoned || w.creator)).(path := Unlinked(s, w)))
  }

  predicate WorkerStep(s: State, i: nat, s': State)
    requires i < |s.workers|
  {
    || Open(s, i, s')
    || Join(s, i, s')
    || Size(s, i, s')
    || Map(s, i, s')
    || Unwind(s, i, s')
    || Call(s, i, s')
    || Leave(s, i, s')
    || Finish(s, i, s')
  }

  ghost predicate Step(s: State, s': State) {
    exists i :: 0 <= i < |s.workers| && WorkerStep(s, i, s')
  }

  const FRESH := Worker(Start, None, false, false, 0)

  function Init(n: nat): State {
    State(None, 0, {}, seq(n, _ => FRESH))
  }

  ghost predicate Run(n: nat, run: seq<State>) {
    && 0 < |run| && run[0] == Init(n)
    && forall i :: 0 <= i < |run| - 1 ==> Step(run[i], run[i + 1])
  }

  ghost predicate Reachable(n: nat, s: State) {
    exists run :: Run(n, run) && run[|run| - 1] == s
  }

  // ---------------------------------------------------------------------------
  // The invariant
  // ---------------------------------------------------------------------------

  predicate Ended(w: Worker) {
    w.pc == Returned || w.pc == Raised
  }

  predicate PastBarrierCall(w: Worker) {
    w.pc == HandlerBarrier || w.pc == InBarrier || w.pc == Released || w.pc == BarrierRaised || Ended(w)
  }

  predicate HoldsFile(w: Worker) {
    || w.pc == AwaitSize || w.pc == Sizing || w.pc == Mapping || w.pc == Mapped
    || w.pc == InBarrier || w.pc == Released || w.pc == BarrierRaised || w.pc == Returned
  }

  predicate WorkerOk(s: State, w: Worker) {
    && w.calls == (if PastBarrierCall(w) then 1 else 0)
    && (HoldsFile(w) ==> w.file.Some? && w.file.value < s.next)
    && (w.creator ==> w.file.Some? && s.path == w.file && !w.abandoned)
    && (w.creator ==> (HoldsFile(w) && w.pc != AwaitSize && w.pc != Returned) || w.pc == Unwinding)
    && (w.pc == Sizing ==> w.creator)
    && (w.abandoned ==> w.pc == Releasing || w.pc == HandlerBarrier || w.pc == Raised)
    && (HoldsFile(w) && w.pc != Sizing && w.pc != AwaitSize ==> w.file.value in s.sized)
    && (w.pc == Released || w.pc == Returned ==> AllCalled(s) && !w.abandoned)
  }

  /** The name is linked exactly while one worker owes its unlink. */
  ghost predicate OneOwner(s: State) {
    && (forall i, j :: 0 <= i < |s.workers| && 0 <= j < |s.workers| && s.workers[i].creator && s.workers[j].creator ==>
         i == j)
    && (s.path.Some? <==> exists i :: 0 <= i < |s.workers| && s.workers[i].creator)
  }

  predicate NoneAbandoned(s: State) {
    forall w <- s.workers :: !w.abandoned
  }

  /** As long as no creator has given its file up, there is only one file. */
  predicate OneFile(s: State) {
    NoneAbandoned(s) ==> s.next <= 1 && (s.next == 1 && s.path.None? ==> AllCalled(s))
  }

  ghost predicate Inv(s: State) {
    && (forall w <- s.workers :: WorkerOk(s, w))
    && OneOwner(s)
    && OneFile(s)
    && (s.path.Some? ==> s.path.value < s.next)
  }

  lemma AllCalledStable(s: State, i: nat, s': State)
    requires i < |s.workers| && WorkerStep(s, i, s') && AllCalled(s)
    requires WorkerOk(s, s.workers[i])
    ensures AllCalled(s')
  {
  }

  lemma StepInv(s: State, i: nat, s': State)
    requires Inv(s) && i < |s.workers| && WorkerStep(s, i, s')
    ensures Inv(s')
    ensures |s'.workers| == |s.workers|
  {
    hide OneOwner, OneFile, WorkerStep;
    assert WorkerOk(s, s.workers[i]);
    StepShape(s, i, s');
    if AllCalled(s) { AllCalledStable(s, i, s'); }
    OwnerStep(s, i, s');
    OneFileStep(s, i, s');
    SelfOk(s, i, s');
    forall j | 0 <= j < |s'.workers| ensures WorkerOk(s', s'.workers[j]) {
      if j != i { OtherWorkerOk(s, i, s', j); }
    }
  }

  lemma StepShape(s: State, i: nat, s': State)
    requires i < |s.workers| && WorkerStep(s, i, s') && WorkerOk(s, s.workers[i])
    ensures |s'.workers| == |s.workers|
    ensures s'.workers == s.workers[i := s'.workers[i]]
    ensures s.next <= s'.next && s.sized <= s'.sized
    ensures s.workers[i].calls <= s'.workers[i].calls
    ensures s.workers[i].abandoned ==> s'.workers[i].abandoned
    ensures s'.path == s.path || s'.path == Some(s.next) ||
            (s'.path == None && s.workers[i].creator && !s'.workers[i].creator)
    ensures s'.path == Some(s.next) && s'.path != s.path ==>
            s.path == None && s.workers[i].pc == Start && s'.workers[i].creator
    ensures s'.path == Some(s.next) && s'.path != s.path ==> s'.next == s.next + 1
    ensures s'.path == s.path ==> s'.workers[i].creator == s.workers[i].creator
    ensures s'.next == s.next ||
            (s.path == None && s.workers[i].pc == Start && s'.next == s.next + 1 && s'.path == Some(s.next))
    ensures s'.path == None && s.path != None && s.workers[i].pc != Released ==> s'.workers[i].abandoned
  {
  }

  lemma OwnerStep(s: State, i: nat, s': State)
    requires Inv(s) && i < |s.workers| && WorkerStep(s, i, s')
    ensures OneOwner(s')
  {
    hide WorkerStep, WorkerOk, OneFile;
    assert WorkerOk(s, s.workers[i]);
    StepShape(s, i, s');
    if s'.path == s.path && s.path.Some? {
      var k :| 0 <= k < |s.workers| && s.workers[k].creator;
      assert s'.workers[k].creator;
    } else if s'.path.Some? {
      assert s'.workers[i].creator;
    }
  }

  lemma OneFileStep(s: State, i: nat, s': State)
    requires Inv(s) && i < |s.workers| && WorkerStep(s, i, s')
    requires AllCalled(s) ==> AllCalled(s')
    ensures OneFile(s')
    ensures s'.path.Some? ==> s'.path.value < s'.next
  {
    hide WorkerStep, OneOwner;
    var w := s.workers[i];
    assert WorkerOk(s, w);
    StepShape(s, i, s');
    if NoneAbandoned(s') {
      forall j | 0 <= j < |s.workers| ensures !s.workers[j].abandoned {
        assert !s'.workers[j].abandoned;
      }
      assert NoneAbandoned(s);
      assert !s'.workers[i].abandoned;
    }
  }

  lemma SelfOk(s: State, i: nat, s': State)
    requires Inv(s) && i < |s.workers| && WorkerStep(s, i, s')
    requires AllCalled(s) ==> AllCalled(s')
    ensures WorkerOk(s', s'.workers[i])
  {
    hide OneOwner, OneFile, AllCalled;
    var w := s.workers[i];
    assert WorkerOk(s, w);
    if Open(s, i, s') {
    } else if Join(s, i, s') {
    } else if Size(s, i, s') {
    } else if Map(s, i, s') {
    } else if Unwind(s, i, s') {
    } else if Call(s, i, s') {
    } else if Leave(s, i, s') {
    } else {
      assert Finish(s, i, s');
    }
  }

  lemma OtherWorkerOk(s: State, i: nat, s': State, j: nat)
    requires Inv(s) && i < |s.workers| && j < |s.workers| && i != j && WorkerStep(s, i, s')
    requires AllCalled(s) ==> AllCalled(s')
    ensures WorkerOk(s', s'.workers[j])
  {
    hide WorkerStep, OneFile, AllCalled;
    assert WorkerOk(s, s.workers[i]) && WorkerOk(s, s.workers[j]);
    StepShape(s, i, s');
  }

  lemma InitInv(n: nat)
    ensures Inv(Init(n))
  {
  }

  lemma {:induction false} RunInv(n: nat, run: seq<State>, k: nat)
    requires Run(n, run) && k < |run|
    ensures Inv(run[k]) && |run[k].workers| == n
  {
    if k == 0 {
      InitInv(n);
    } else {
      RunInv(n, run, k - 1);
      assert Step(run[k - 1], run[k - 1 + 1]);
      var i :| 0 <= i < n && WorkerStep(run[k - 1], i, run[k]);
      StepInv(run[k - 1], i, run[k]);
    }
  }

  lemma ReachableInv(n: nat, s: State)
    requires Reachable(n, s)
    ensures Inv(s) && |s.workers| == n
  {
    var run :| Run(n, run) && run[|run| - 1] == s;
    RunInv(n, run, |run| - 1);
  }

  // ---------------------------------------------------------------------------
  // The guarantees
  // ---------------------------------------------------------------------------

  /** The name is linked exactly when one creator still owes its unlink, and then it names that creator's
      own file, so an unlink never removes another worker's file. */
  lemma LinkedIffOwed(n: nat, s: State)
    requires Reachable(n, s)
    ensures |s.workers| == n
    ensures s.path.Some? <==> exists i :: 0 <= i < n && s.workers[i].creator
    ensures forall i, j :: 0 <= i < n && 0 <= j < n && s.workers[i].creator && s.workers[j].creator ==> i == j
    ensures forall i :: 0 <= i < n && s.workers[i].creator ==> s.path == s.workers[i].file
  {
    ReachableInv(n, s);
    forall i | 0 <= i < n && s.workers[i].creator ensures s.path == s.workers[i].file {
      assert WorkerOk(s, s.workers[i]);
    }
  }

  /** Whatever happened, a worker that has ended called the barrier exactly once; and once all have ended
      no name is left behind. */
  lemma EndedLeavesNothing(n: nat, s: State)
    requires Reachable(n, s)
    ensures |s.workers| == n
    ensures forall i :: 0 <= i < n && Ended(s.workers[i]) ==> s.workers[i].calls == 1
    ensures forall i :: 0 <= i < n ==> s.workers[i].calls <= 1
    ensures (forall i :: 0 <= i < n ==> Ended(s.workers[i])) ==> s.path.None?
  {
    ReachableInv(n, s);
    forall i | 0 <= i < n
      ensures s.workers[i].calls <= 1
      ensures Ended(s.workers[i]) ==> s.workers[i].calls == 1 && !s.workers[i].creator
    {
      assert WorkerOk(s, s.workers[i]);
    }
  }

  /** No worker creates a file once one worker has got past a completed rendezvous: a name that is then
      unlinked stays unlinked. */
  lemma UnlinkedForGood(n: nat, s: State, s': State, i: nat)
    requires Reachable(n, s) && i < |s.workers| && s.workers[i].pc == Returned
    requires s.path.None? && Step(s, s')
    ensures |s'.workers| == |s.workers|
    ensures s'.path.None? && s'.workers[i].pc == Returned
  {
    hide Reachable, WorkerStep, OneFile, OneOwner;
    ReachableInv(n, s);
    assert WorkerOk(s, s.workers[i]);
    var j :| 0 <= j < n && WorkerStep(s, j, s');
    assert WorkerOk(s, s.workers[j]) && Called(s.workers[j]);
    ReturnedIsStill(s, j, s');
    StepShape(s, j, s');
  }

  lemma ReturnedIsStill(s: State, j: nat, s': State)
    requires j < |s.workers| && WorkerStep(s, j, s')
    ensures s.workers[j].pc != Returned
  {
  }

  predicate ReturnersAgree(s: State) {
    forall i, j :: 0 <= i < |s.workers| && 0 <= j < |s.workers|
                   && s.workers[i].pc == Returned && s.workers[j].pc == Returned
                   ==> s.workers[i].file == s.workers[j].file && s.workers[i].file.Some?
  }

  /** Workers that return normally map one and the same fully sized file, unless a creator gave its file up. */
  lemma SameFileUnlessAbandoned(n: nat, s: State)
    requires Reachable(n, s) && NoneAbandoned(s)
    ensures ReturnersAgree(s)
    ensures forall w <- s.workers :: w.pc == Returned ==> w.file.Some? && w.file.value in s.sized
  {
    ReachableInv(n, s);
    forall i | 0 <= i < n && s.workers[i].pc == Returned
      ensures s.workers[i].file == Some(0) && 0 in s.sized
    {
      assert WorkerOk(s, s.workers[i]);
    }
  }

  lemma AllReturnedAgree(n: nat, s: State)
    requires Reachable(n, s) && forall w <- s.workers :: w.pc == Returned
    ensures ReturnersAgree(s)
  {
    ReachableInv(n, s);
    forall w | w in s.workers ensures !w.abandoned {
      assert WorkerOk(s, w);
    }
    SameFileUnlessAbandoned(n, s);
  }

  // ---------------------------------------------------------------------------
  // When some worker fails
  // ---------------------------------------------------------------------------

  lemma Advance(n: nat, s: State, i: nat, s': State)
    requires Reachable(n, s) && i < |s.workers| && WorkerStep(s, i, s')
    ensures Reachable(n, s')
  {
    var run :| Run(n, run) && run[|run| - 1] == s;
    assert Step(s, s');
    var longer := run + [s'];
    forall k | 0 <= k < |longer| - 1 ensures Step(longer[k], longer[k + 1]) {
      if k < |run| - 1 { assert Step(run[k], run[k + 1]); }
    }
    assert Run(n, longer);
  }

  const DOWN := Worker(HandlerBarrier, None, false, false, 1)

  /** Workers 3 .. k - 1 have failed to open anything and wait in the barrier; nothing else has happened. */
  function Downed(n: nat, k: nat): State
    requires 3 <= k <= n
  {
    State(None, 0, {}, [FRESH, FRESH, FRESH] + seq(k - 3, _ => DOWN) + seq(n - k, _ => FRESH))
  }

  lemma {:induction false} DownedReachable(n: nat, k: nat)
    requires 3 <= k <= n
    ensures Reachable(n, Downed(n, k))
  {
    if k == 3 {
      assert Downed(n, 3).workers == Init(n).workers;
      assert Run(n, [Init(n)]);
    } else {
      hide Reachable;
      DownedReachable(n, k - 1);
      OneDown(n, Downed(n, k - 1), k - 1);
      assert With(Downed(n, k - 1), k - 1, DOWN).workers == Downed(n, k).workers;
    }
  }

  /** A worker that can open nothing unwinds and calls the barrier. */
  lemma OneDown(n: nat, s: State, i: nat)
    requires Reachable(n, s) && i < |s.workers| && s.workers[i] == FRESH
    ensures Reachable(n, With(s, i, DOWN))
  {
    hide Reachable, Join, Size, Map, Leave, Finish;
    var s1 := With(s, i, FRESH.(pc := Unwinding));
    var s2 := With(s1, i, FRESH.(pc := Releasing));
    var s3 := With(s2, i, DOWN);
    assert Open(s, i, s1) && Unwind(s1, i, s2) && Call(s2, i, s3);
    Advance(n, s, i, s1);
    Advance(n, s1, i, s2);
    Advance(n, s2, i, s3);
    assert s3 == With(s, i, DOWN) by { assert s3.workers == s.workers[i := DOWN]; }
  }

  /** Worker `i` of the trio moves on to state `w`. */
  lemma Play(n: nat, s: State, i: nat, w: Worker, path: Option<nat>, next: nat, sized: set<nat>) returns (s': State)
    requires 3 <= n && i < 3 && Reachable(n, s) && |s.workers| == n
    requires WorkerStep(s, i, State(path, next, sized, s.workers[i := w]))
    ensures s' == State(path, next, sized, s.workers[i := w]) && Reachable(n, s')
  {
    s' := State(path, next, sized, s.workers[i := w]);
    Advance(n, s, i, s');
  }

  const LOST := Worker(Releasing, Some(0), false, true, 0)
  const FIRST := Worker(Mapped, Some(0), false, false, 0)
  const SECOND := Worker(Mapped, Some(1), true, false, 0)

  function Trio(n: nat, path: Option<nat>, next: nat, sized: set<nat>, a: Worker, b: Worker, c: Worker): State
    requires 3 <= n
  {
    State(path, next, sized, [a, b, c] + seq(n - 3, _ => DOWN))
  }

  lemma CreatorMapping(n: nat) returns (s: State)
    requires 3 <= n
    ensures Reachable(n, s)
    ensures s == Trio(n, Some(0), 1, {0}, Worker(Mapping, Some(0), true, false, 0), FRESH, FRESH)
  {
    DownedReachable(n, n);
    s := Downed(n, n);
    var a := Worker(Sizing, Some(0), true, false, 0);
    s := Play(n, s, 0, a, Some(0), 1, {});
    s := Play(n, s, 0, a.(pc := Mapping), Some(0), 1, {0});
    assert s.workers == Trio(n, Some(0), 1, {0}, a.(pc := Mapping), FRESH, FRESH).workers;
  }

  lemma JoinerMapped(n: nat) returns (s: State)
    requires 3 <= n
    ensures Reachable(n, s)
    ensures s == Trio(n, Some(0), 1, {0}, Worker(Mapping, Some(0), true, false, 0), FIRST, FRESH)
  {
    hide Reachable, Size, Unwind, Call, Leave, Finish;
    s := CreatorMapping(n);
    s := Play(n, s, 1, FRESH.(pc := Joining), Some(0), 1, {0});
    s := Play(n, s, 1, FIRST.(pc := AwaitSize), Some(0), 1, {0});
    s := Play(n, s, 1, FIRST.(pc := Mapping), Some(0), 1, {0});
    s := Play(n, s, 1, FIRST, Some(0), 1, {0});
    assert s.workers == Trio(n, Some(0), 1, {0}, Worker(Mapping, Some(0), true, false, 0), FIRST, FRESH).workers;
  }

  lemma CreatorLost(n: nat) returns (s: State)
    requires 3 <= n
    ensures Reachable(n, s)
    ensures s == Trio(n, None, 1, {0}, LOST, FIRST, FRESH)
  {
    s := JoinerMapped(n);
    s := Play(n, s, 0, Worker(Unwinding, Some(0), true, false, 0), Some(0), 1, {0});
    s := Play(n, s, 0, LOST, None, 1, {0});
    assert s.workers == Trio(n, None, 1, {0}, LOST, FIRST, FRESH).workers;
  }

  /** Worker 1 joins and maps the file of worker 0, whose own mapping then fails, so that it unlinks the
      name; worker 2 creates a second file under the name. */
  lemma TwoFilesMapped(n: nat) returns (s: State)
    requires 3 <= n
    ensures Reachable(n, s)
    ensures s == Trio(n, Some(1), 2, {0, 1}, LOST, FIRST, SECOND)
  {
    s := CreatorLost(n);
    s := Play(n, s, 2, SECOND.(pc := Sizing), Some(1), 2, {0});
    s := Play(n, s, 2, SECOND.(pc := Mapping), Some(1), 2, {0, 1});
    s := Play(n, s, 2, SECOND, Some(1), 2, {0, 1});
    assert s.workers == Trio(n, Some(1), 2, {0, 1}, LOST, FIRST, SECOND).workers;
  }

  /** All have called the barrier, the third worker still owing the unlink of the second file. */
  lemma TwoFilesCalled(n: nat) returns (s: State)
    requires 3 <= n
    ensures Reachable(n, s)
    ensures s == Trio(n, Some(1), 2, {0, 1}, Worker(HandlerBarrier, Some(0), false, true, 1),
                      Worker(InBarrier, Some(0), false, false, 1), Worker(InBarrier, Some(1), true, false, 1))
  {
    hide Reachable, Open, Join, Size, Map, Unwind, Leave, Finish;
    s := TwoFilesMapped(n);
    var a := Worker(HandlerBarrier, Some(0), false, true, 1);
    var b := Worker(InBarrier, Some(0), false, false, 1);
    var c := Worker(InBarrier, Some(1), true, false, 1);
    s := Play(n, s, 0, a, Some(1), 2, {0, 1});
    s := Play(n, s, 1, b, Some(1), 2, {0, 1});
    s := Play(n, s, 2, c, Some(1), 2, {0, 1});
    assert s.workers == Trio(n, Some(1), 2, {0, 1}, a, b, c).workers;
  }

  lemma TwoFiles(n: nat) returns (s: State)
    requires 3 <= n
    ensures Reachable(n, s) && |s.workers| == n
    ensures !ReturnersAgree(s)
  {
    hide Reachable, Open, Join, Size, Map, Unwind, Call;
    s := TwoFilesCalled(n);
    var b := Worker(InBarrier, Some(0), false, false, 1);
    var c := Worker(InBarrier, Some(1), true, false, 1);
    assert AllCalled(s);
    s := Play(n, s, 1, b.(pc := Released), Some(1), 2, {0, 1});
    assert AllCalled(s);
    s := Play(n, s, 2, c.(pc := Released), Some(1), 2, {0, 1});
    s := Play(n, s, 1, b.(pc := Returned), Some(1), 2, {0, 1});
    s := Play(n, s, 2, c.(pc := Returned, creator := false), None, 2, {0, 1});
    assert s.workers[1].file == Some(0) && s.workers[2].file == Some(1);
  }

  /** Two returners among at most two workers are all the workers. */
  lemma TwoReturnersAgree(n: nat, s: State, i: nat, j: nat)
    requires n <= 2 && Reachable(n, s) && |s.workers| == n && i < n && j < n
    requires s.workers[i].pc == Returned && s.workers[j].pc == Returned
    ensures s.workers[i].file == s.workers[j].file && s.workers[i].file.Some?
  {
    hide Reachable, WorkerStep, OneFile, OneOwner, AllCalled;
    if i == j {
      ReachableInv(n, s);
      assert WorkerOk(s, s.workers[i]);
    } else {
      assert forall w <- s.workers :: w.pc == Returned;
      AllReturnedAgree(n, s);
    }
  }

  lemma FewReturnersAgree(n: nat, s: State)
    requires n <= 2 && Reachable(n, s)
    ensures ReturnersAgree(s)
  {
    hide Reachable, WorkerOk, OneFile, OneOwner;
    ReachableInv(n, s);
    forall i, j | 0 <= i < n && 0 <= j < n && s.workers[i].pc == Returned && s.workers[j].pc == Returned
      ensures s.workers[i].file == s.workers[j].file && s.workers[i].file.Some?
    {
      TwoReturnersAgree(n, s, i, j);
    }
  }

  /** With a failing worker about, the normal returners can be split over two files exactly when there are
      at least three workers. */
  lemma ReturnersAlwaysAgreeIff(n: nat)
    ensures n <= 2 <==> forall s :: Reachable(n, s) ==> ReturnersAgree(s)
  {
    hide Reachable, ReturnersAgree;
    if 3 <= n {
      var s := TwoFiles(n);
    } else {
      forall s | Reachable(n, s) ensures ReturnersAgree(s) {
        FewReturnersAgree(n, s);
      }
    }
  }
}
