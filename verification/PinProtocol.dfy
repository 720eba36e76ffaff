/** Coordinated registration over a TP x PCP x PP grid (pin_mmap_region with a coordination object).
    Every worker runs the same program.  Its collectives come in rendezvous of three, one on each of its
    groups in the order TP, PCP, PP, so collective k belongs to rendezvous k / 3 and uses dimension k % 3:

      rendezvous 0                  the first barrier, after preparing the runtime
      rendezvous t + 1              the barrier after registration turn t
      rendezvous W + 1              the maximum of the local statuses
      rendezvous W + 2 + t          the barrier after rollback turn t
      rendezvous 2 * W + 2          the maximum of the rollback statuses

    A worker contributes a number to each collective (zero to a barrier) and gets back the maximum over the
    group.  A collective returns only when the whole group has called it; one over a group of one, which
    the program skips, is let through with the worker's own number. */
module PinProtocol {
  import opened Arithmetic
  import opened HostRegistration
  import opened Options

  datatype Policy = Auto | Required | Disabled

  datatype Config = Config(tp: nat, pcp: nat, pp: nat, policy: Policy, plan: seq<Chunk>) {
    predicate Valid() {
      0 < tp && 0 < pcp && 0 < pp
    }

    function World(): nat {
      tp * pcp * pp
    }

    /** The collective that starts the maximum of the local statuses. */
    function StatusMax(): nat {
      3 * (World() + 1)
    }

    function RollbackMax(): nat {
      3 * (2 * World() + 2)
    }
  }

  // ---------------------------------------------------------------------------
  // Ranks
  // ---------------------------------------------------------------------------

  datatype Coord = Coord(tp: nat, pcp: nat, pp: nat)

  predicate InGrid(cfg: Config, c: Coord) {
    c.tp < cfg.tp && c.pcp < cfg.pcp && c.pp < cfg.pp
  }

  function Rank(cfg: Config, c: Coord): nat {
    (c.pp * cfg.pcp + c.pcp) * cfg.tp + c.tp
  }

  function CoordOf(cfg: Config, rank: nat): Coord
    requires cfg.Valid()
  {
    Coord(rank % cfg.tp, (rank / cfg.tp) % cfg.pcp, (rank / cfg.tp) / cfg.pcp)
  }

  lemma RankInWorld(cfg: Config, c: Coord)
    requires cfg.Valid() && InGrid(cfg, c)
    ensures Rank(cfg, c) < cfg.World()
    ensures CoordOf(cfg, Rank(cfg, c)) == c
  {
    var row := c.pp * cfg.pcp + c.pcp;
    DivModUnique(Rank(cfg, c), cfg.tp, row, c.tp);
    DivModUnique(row, cfg.pcp, c.pp, c.pcp);
    MulMonotone(c.pp + 1, cfg.pp, cfg.pcp);
    assert row + 1 <= cfg.pp * cfg.pcp;
    MulMonotone(row + 1, cfg.pp * cfg.pcp, cfg.tp);
    assert cfg.pp * cfg.pcp * cfg.tp == cfg.World();
  }

  lemma BelowProduct(q: nat, n: nat, m: nat, x: nat)
    requires 0 < m && q * m <= x < n * m
    ensures q < n
  {
    if n <= q { MulMonotone(n, q, m); }
  }

  lemma ProductOrder(a: nat, b: nat, c: nat)
    ensures a * b * c == c * b * a
  {
  }

  /** Quotient and remainder put back together. */
  lemma Rejoin(x: nat, m: nat)
    requires 0 < m
    ensures (x / m) * m + x % m == x && x % m < m && (x / m) * m <= x
  {
  }

  lemma CoordInGrid(cfg: Config, rank: nat)
    requires cfg.Valid() && rank < cfg.World()
    ensures InGrid(cfg, CoordOf(cfg, rank))
    ensures Rank(cfg, CoordOf(cfg, rank)) == rank
  {
    var row := rank / cfg.tp;
    Rejoin(rank, cfg.tp);
    Rejoin(row, cfg.pcp);
    ProductOrder(cfg.pp, cfg.pcp, cfg.tp);
    BelowProduct(row, cfg.pp * cfg.pcp, cfg.tp, rank);
    BelowProduct(row / cfg.pcp, cfg.pp, cfg.pcp, row);
    assert CoordOf(cfg, rank) == Coord(rank % cfg.tp, row % cfg.pcp, row / cfg.pcp);
  }

  /** The mixed-radix rank numbers the grid's workers 0 .. World() - 1, each number once. */
  lemma RankIsBijection(cfg: Config)
    requires cfg.Valid()
    ensures forall c :: InGrid(cfg, c) ==> Rank(cfg, c) < cfg.World()
    ensures forall a, b :: InGrid(cfg, a) && InGrid(cfg, b) && Rank(cfg, a) == Rank(cfg, b) ==> a == b
    ensures forall r: nat :: r < cfg.World() ==> InGrid(cfg, CoordOf(cfg, r)) && Rank(cfg, CoordOf(cfg, r)) == r
  {
    forall c | InGrid(cfg, c) ensures Rank(cfg, c) < cfg.World() && CoordOf(cfg, Rank(cfg, c)) == c {
      RankInWorld(cfg, c);
    }
    forall r: nat | r < cfg.World() ensures InGrid(cfg, CoordOf(cfg, r)) && Rank(cfg, CoordOf(cfg, r)) == r {
      CoordInGrid(cfg, r);
    }
  }

  // ---------------------------------------------------------------------------
  // States and steps
  // ---------------------------------------------------------------------------

  datatype Outcome = Skipped | Pinned | Pageable | Failed

  /** Where a worker is: `Before` its local work for the next rendezvous, `Inside` a runtime call on its
      turn, `Ready` to call the next collective, `Waiting` in it, or `Done`. */
  datatype Pc = Before | Inside | Ready | Waiting | Done(outcome: Outcome)

  datatype Worker = Worker(
    pc: Pc,
    sent: seq<nat>,      // what it contributed to each collective called so far
    got: seq<nat>,       // what each collective completed so far returned
    status: nat,
    rollbackStatus: nat,
    chunks: seq<Chunk>)  // region.pinned_chunks; region.is_pinned is chunks != []
  {
    function Rendezvous(): nat {
      |got| / 3
    }
  }

  type State = map<Coord, Worker>

  predicate SameGroup(dim: nat, a: Coord, b: Coord) {
    match dim
    case 0 => a.pcp == b.pcp && a.pp == b.pp
    case 1 => a.tp == b.tp && a.pp == b.pp
    case _ => a.tp == b.tp && a.pcp == b.pcp
  }

  predicate HasSent(w: Worker, k: nat) {
    k < |w.sent|
  }

  /** `v` is the maximum of what the members of c's group contribute to collective k, all having called it. */
  ghost predicate IsGroupMax(s: State, c: Coord, k: nat, v: nat) {
    && (forall m :: m in s && SameGroup(k % 3, c, m) ==> HasSent(s[m], k) && s[m].sent[k] <= v)
    && (exists m :: m in s && SameGroup(k % 3, c, m) && HasSent(s[m], k) && s[m].sent[k] == v)
  }

  predicate RegistrationTurn(cfg: Config, c: Coord, w: Worker) {
    w.Rendezvous() == Rank(cfg, c) + 1
  }

  predicate RollbackTurn(cfg: Config, c: Coord, w: Worker) {
    w.Rendezvous() == cfg.World() + 2 + Rank(cfg, c)
  }

  /** Creating the runtime handle may fail; a disabled policy returns before anything else. */
  ghost predicate Prepare(cfg: Config, w: Worker, w': Worker) {
    && w.pc == Before && |w.got| == 0
    && if cfg.policy == Disabled then w' == w.(pc := Done(Skipped))
       else w' == w.(pc := Ready) || w' == w.(pc := Ready, status := 2)
  }

  predicate MustAct(cfg: Config, c: Coord, w: Worker) {
    || (RegistrationTurn(cfg, c, w) && w.status == 0)
    || (RollbackTurn(cfg, c, w) && w.chunks != [])
  }

  predicate Enter(cfg: Config, c: Coord, w: Worker, w': Worker) {
    && w.pc == Before && 0 < |w.got|
    && w' == w.(pc := if MustAct(cfg, c, w) then Inside else Ready)
  }

  ghost predicate Register(cfg: Config, c: Coord, w: Worker, w': Worker) {
    && w.pc == Inside && RegistrationTurn(cfg, c, w)
    && exists r :: PossibleRegistration(cfg.plan, r)
                   && w' == w.(pc := Ready, chunks := r.chunks, status := LocalStatus(r))
  }

  ghost predicate Rollback(cfg: Config, c: Coord, w: Worker, w': Worker) {
    && w.pc == Inside && RollbackTurn(cfg, c, w)
    && exists r :: PossibleRollback(w.chunks, r)
                   && w' == w.(pc := Ready, chunks := r.remaining, rollbackStatus := RollbackStatus(r))
  }

  /** The number a worker contributes to its next collective. */
  function Payload(cfg: Config, w: Worker): nat {
    var k := |w.got|;
    if k == cfg.StatusMax() then w.status
    else if k == cfg.RollbackMax() then w.rollbackStatus
    else if 0 < k &&
        (cfg.StatusMax() < k < cfg.StatusMax() + 3 || cfg.RollbackMax() < k < cfg.RollbackMax() + 3) then w.got[k - 1]
    else 0
  }

  predicate CallCollective(cfg: Config, w: Worker, w': Worker) {
    w.pc == Ready && w' == w.(pc := Waiting, sent := w.sent + [Payload(cfg, w)])
  }

  /** Control flow after a completed collective. */
  function After(cfg: Config, w: Worker): Pc {
    var n := |w.got|;
    if n == cfg.StatusMax() + 3 then
      if w.got[n - 1] == 0 then Done(Pinned) else Before
    else if n == cfg.RollbackMax() + 3 then
      if w.got[cfg.StatusMax() + 2] == 1 && w.got[n - 1] == 0 && cfg.policy == Auto then Done(Pageable)
          else Done(Failed)
    else if n % 3 == 0 then Before
    else Ready
  }

  ghost predicate Return(cfg: Config, s: State, c: Coord, w: Worker, w': Worker) {
    && w.pc == Waiting
    && exists v :: IsGroupMax(s, c, |w.got|, v)
                   && var w1 := w.(got := w.got + [v]);
                      w' == w1.(pc := After(cfg, w1))
  }

  ghost predicate WorkerStep(cfg: Config, s: State, c: Coord, w': Worker)
    requires c in s
  {
    var w := s[c];
    || Prepare(cfg, w, w')
    || Enter(cfg, c, w, w')
    || Register(cfg, c, w, w')
    || Rollback(cfg, c, w, w')
    || CallCollective(cfg, w, w')
    || Return(cfg, s, c, w, w')
  }

  ghost predicate Step(cfg: Config, s: State, s': State) {
    exists c, w' :: c in s && WorkerStep(cfg, s, c, w') && s' == s[c := w']
  }

  ghost predicate Init(cfg: Config, s: State) {
    && (forall c :: c in s <==> InGrid(cfg, c))
    && (forall c :: c in s ==> s[c] == Worker(Before, [], [], 0, 0, []))
  }

  ghost predicate Run(cfg: Config, run: seq<State>) {
    && 0 < |run| && Init(cfg, run[0])
    && forall i :: 0 <= i < |run| - 1 ==> Step(cfg, run[i], run[i + 1])
  }

  // ---------------------------------------------------------------------------
  // The invariant
  // ---------------------------------------------------------------------------

  predicate Shape(cfg: Config, w: Worker) {
    && |w.got| <= |w.sent| <= |w.got| + 1
    && (w.pc == Waiting <==> |w.sent| == |w.got| + 1)
    && (w.pc == Before || w.pc == Inside ==> |w.got| % 3 == 0)
    && (w.pc == Inside ==> 0 < |w.got|)
    && (!w.pc.Done? ==> |w.got| < cfg.RollbackMax() + 3)
  }

  /** A maximum passes from dimension to dimension what the previous one returned. */
  predicate Chained(w: Worker, k: nat, first: nat) {
    && (HasSent(w, k) ==> w.sent[k] == first)
    && (HasSent(w, k + 1) && k < |w.got| ==> w.sent[k + 1] == w.got[k])
    && (HasSent(w, k + 2) && k + 1 < |w.got| ==> w.sent[k + 2] == w.got[k + 1])
  }

  predicate Ended(cfg: Config, w: Worker) {
    && (w.pc == Done(Skipped) ==> w.got == [] && w.sent == [])
    && (w.pc == Done(Pinned) ==> |w.got| == cfg.StatusMax() + 3 && w.got[cfg.StatusMax() + 2] == 0)
    && (w.pc == Done(Pageable) || w.pc == Done(Failed) ==>
          && |w.got| == cfg.RollbackMax() + 3
          && (w.pc == Done(Pageable) <==>
               w.got[cfg.StatusMax() + 2] == 1 && w.got[cfg.RollbackMax() + 2] == 0 && cfg.policy == Auto))
    && (w.pc != Done(Pinned) && cfg.StatusMax() + 3 <= |w.got| ==> w.got[cfg.StatusMax() + 2] != 0)
  }

  predicate PastRegistration(cfg: Config, c: Coord, w: Worker) {
    Rank(cfg, c) + 1 < w.Rendezvous() || (RegistrationTurn(cfg, c, w) && (w.pc == Ready || w.pc == Waiting))
  }

  predicate PastRollback(cfg: Config, c: Coord, w: Worker) {
    cfg.World() + 2 + Rank(cfg, c) < w.Rendezvous() || (RollbackTurn(cfg, c, w) && (w.pc == Ready || w.pc == Waiting))
  }

  /** What the statuses say about the worker's own chunks. */
  predicate Honest(cfg: Config, c: Coord, w: Worker) {
    && w.status <= 2
    && (!PastRegistration(cfg, c, w) ==> w.chunks == [] && w.status != 1)
    && (PastRegistration(cfg, c, w) && !PastRollback(cfg, c, w) ==>
          && (w.status == 0 ==> w.chunks == cfg.plan)
          && (w.status == 1 ==> w.chunks == []))
    && (PastRollback(cfg, c, w) && w.rollbackStatus == 0 ==> w.chunks == [])
    && (w.pc == Inside ==> RegistrationTurn(cfg, c, w) || RollbackTurn(cfg, c, w))
    && (w.pc == Inside && RegistrationTurn(cfg, c, w) ==> w.status == 0)
    && (forall x <- w.chunks :: x in cfg.plan)
  }

  predicate Local(cfg: Config, c: Coord, w: Worker) {
    && Shape(cfg, w)
    && Chained(w, cfg.StatusMax(), w.status)
    && Chained(w, cfg.RollbackMax(), w.rollbackStatus)
    && Ended(cfg, w)
    && Honest(cfg, c, w)
    && (cfg.policy == Disabled ==> w.pc == Before || w.pc == Done(Skipped))
    && (cfg.policy == Disabled ==> w.got == [] && w.status == 0)
    && (cfg.policy != Disabled ==> w.pc != Done(Skipped))
  }

  ghost predicate Collected(s: State, c: Coord)
    requires c in s
  {
    forall k :: 0 <= k < |s[c].got| ==> IsGroupMax(s, c, k, s[c].got[k])
  }

  /** The collectives' part: who has called what, and what came back. */
  ghost predicate Synchronised(cfg: Config, s: State) {
    && (forall c :: c in s <==> InGrid(cfg, c))
    && (forall c :: c in s ==> |s[c].got| <= |s[c].sent| <= |s[c].got| + 1)
    && (forall c :: c in s ==> Collected(s, c))
  }

  ghost predicate AllLocal(cfg: Config, s: State) {
    forall c :: c in s ==> Local(cfg, c, s[c])
  }

  ghost predicate Inv(cfg: Config, s: State) {
    cfg.Valid() && Synchronised(cfg, s) && AllLocal(cfg, s)
  }

  lemma InitInv(cfg: Config, s: State)
    requires cfg.Valid() && Init(cfg, s)
    ensures Inv(cfg, s)
  {
  }

  lemma LocalStep(cfg: Config, s: State, c: Coord, w': Worker)
    requires Inv(cfg, s) && c in s && WorkerStep(cfg, s, c, w')
    ensures Local(cfg, c, w')
    ensures s[c].sent <= w'.sent
  {
    RankInWorld(cfg, c);
    var w := s[c];
    if Return(cfg, s, c, w, w') {
      var v :| IsGroupMax(s, c, |w.got|, v) && w' == w.(got := w.got + [v]).(pc := After(cfg, w.(got := w.got + [v])));
      ReturnLocal(cfg, c, w, v);
    } else if CallCollective(cfg, w, w') {
      CallLocal(cfg, c, w);
    } else if Enter(cfg, c, w, w') {
      EnterLocal(cfg, c, w);
    } else {
      ActLocal(cfg, c, w, w');
    }
  }

  lemma ReturnLocal(cfg: Config, c: Coord, w: Worker, v: nat)
    requires cfg.Valid() && InGrid(cfg, c) && Rank(cfg, c) < cfg.World() && Local(cfg, c, w) && w.pc == Waiting
    ensures var w1 := w.(got := w.got + [v]); Local(cfg, c, w1.(pc := After(cfg, w1)))
  {
    hide Shape, Ended, Honest, Chained;
    ReturnShape(cfg, w, v);
    ReturnChained(w, v, After(cfg, w.(got := w.got + [v])), cfg.StatusMax(), w.status);
    ReturnChained(w, v, After(cfg, w.(got := w.got + [v])), cfg.RollbackMax(), w.rollbackStatus);
    ReturnHonest(cfg, c, w, v);
  }

  lemma ReturnShape(cfg: Config, w: Worker, v: nat)
    requires cfg.Valid() && Shape(cfg, w) && Ended(cfg, w) && w.pc == Waiting
    ensures var w1 := w.(got := w.got + [v]);
            Shape(cfg, w1.(pc := After(cfg, w1))) && Ended(cfg, w1.(pc := After(cfg, w1)))
  {
  }

  lemma ReturnChained(w: Worker, v: nat, pc: Pc, k: nat, first: nat)
    requires Chained(w, k, first) && |w.sent| == |w.got| + 1
    ensures Chained(w.(got := w.got + [v], pc := pc), k, first)
  {
  }

  lemma ReturnHonest(cfg: Config, c: Coord, w: Worker, v: nat)
    requires cfg.Valid() && Rank(cfg, c) < cfg.World() && Shape(cfg, w) && Honest(cfg, c, w) && w.pc == Waiting
    ensures var w1 := w.(got := w.got + [v]); Honest(cfg, c, w1.(pc := After(cfg, w1)))
  {
    hide Rank;
    var w1 := w.(got := w.got + [v]);
    var w2 := w1.(pc := After(cfg, w1));
    assert PastRegistration(cfg, c, w2) == PastRegistration(cfg, c, w);
    assert PastRollback(cfg, c, w2) == PastRollback(cfg, c, w);
  }

  lemma CallLocal(cfg: Config, c: Coord, w: Worker)
    requires cfg.Valid() && InGrid(cfg, c) && Rank(cfg, c) < cfg.World() && Local(cfg, c, w) && w.pc == Ready
    ensures Local(cfg, c, w.(pc := Waiting, sent := w.sent + [Payload(cfg, w)]))
  {
    var w2 := w.(pc := Waiting, sent := w.sent + [Payload(cfg, w)]);
    assert Chained(w2, cfg.StatusMax(), w2.status);
    assert Chained(w2, cfg.RollbackMax(), w2.rollbackStatus);
    assert PastRegistration(cfg, c, w2) == PastRegistration(cfg, c, w);
    assert PastRollback(cfg, c, w2) == PastRollback(cfg, c, w);
  }

  lemma EnterLocal(cfg: Config, c: Coord, w: Worker)
    requires cfg.Valid() && InGrid(cfg, c) && Rank(cfg, c) < cfg.World() && Local(cfg, c, w) && w.pc == Before &&
             0 < |w.got|
    ensures Local(cfg, c, w.(pc := if MustAct(cfg, c, w) then Inside else Ready))
  {
    var w2 := w.(pc := if MustAct(cfg, c, w) then Inside else Ready);
    assert w2.Rendezvous() == w.Rendezvous();
    assert Honest(cfg, c, w2);
  }

  lemma ActLocal(cfg: Config, c: Coord, w: Worker, w': Worker)
    requires cfg.Valid() && InGrid(cfg, c) && Rank(cfg, c) < cfg.World() && Local(cfg, c, w)
    requires Prepare(cfg, w, w') || Register(cfg, c, w, w') || Rollback(cfg, c, w, w')
    ensures Local(cfg, c, w') && w'.sent == w.sent
  {
    assert w'.Rendezvous() == w.Rendezvous();
    if Register(cfg, c, w, w') {
      assert Honest(cfg, c, w');
    } else if Rollback(cfg, c, w, w') {
      assert Honest(cfg, c, w');
    }
  }

  lemma GroupMaxStable(s: State, s': State, c: Coord, k: nat, v: nat)
    requires s.Keys == s'.Keys
    requires forall m :: m in s ==> s[m].sent <= s'[m].sent
    requires IsGroupMax(s, c, k, v)
    ensures IsGroupMax(s', c, k, v)
  {
    forall m | m in s' && SameGroup(k % 3, c, m) ensures HasSent(s'[m], k) && s'[m].sent[k] <= v {
      assert HasSent(s[m], k);
    }
    var m :| m in s && SameGroup(k % 3, c, m) && HasSent(s[m], k) && s[m].sent[k] == v;
    assert HasSent(s'[m], k);
  }

  lemma CollectedStep(s: State, c: Coord, w': Worker, d: Coord)
    requires c in s && d in s && s[c].sent <= w'.sent
    requires Collected(s, d)
    requires c == d ==> w'.got == s[c].got
                        || exists v :: IsGroupMax(s, c, |s[c].got|, v) && w'.got == s[c].got + [v]
    ensures Collected(s[c := w'], d)
  {
    var s' := s[c := w'];
    forall k | 0 <= k < |s'[d].got| ensures IsGroupMax(s', d, k, s'[d].got[k]) {
      assert IsGroupMax(s, d, k, s'[d].got[k]);
      GroupMaxStable(s, s', d, k, s'[d].got[k]);
    }
  }

  lemma StepInv(cfg: Config, s: State, s': State)
    requires Inv(cfg, s) && Step(cfg, s, s')
    ensures Inv(cfg, s')
    ensures s.Keys == s'.Keys
  {
    hide Local, WorkerStep, Collected;
    var c, w' :| c in s && WorkerStep(cfg, s, c, w') && s' == s[c := w'];
    LocalStep(cfg, s, c, w');
    StepGot(cfg, s, c, w');
    LocalCounts(cfg, c, w');
    forall d | d in s' ensures Collected(s', d) {
      CollectedStep(s, c, w', d);
    }
  }

  lemma LocalCounts(cfg: Config, c: Coord, w: Worker)
    requires Local(cfg, c, w)
    ensures |w.got| <= |w.sent| <= |w.got| + 1
  {
  }

  lemma StepGot(cfg: Config, s: State, c: Coord, w': Worker)
    requires c in s && WorkerStep(cfg, s, c, w')
    ensures w'.got == s[c].got || exists v :: IsGroupMax(s, c, |s[c].got|, v) && w'.got == s[c].got + [v]
  {
  }

  lemma {:induction false} RunInv(cfg: Config, run: seq<State>, i: nat)
    requires cfg.Valid() && Run(cfg, run) && i < |run|
    ensures Inv(cfg, run[i])
  {
    if i == 0 {
      InitInv(cfg, run[0]);
    } else {
      RunInv(cfg, run, i - 1);
      assert Step(cfg, run[i - 1], run[i - 1 + 1]);
      StepInv(cfg, run[i - 1], run[i]);
    }
  }

  /** A state some run ends in. */
  ghost predicate Reachable(cfg: Config, s: State) {
    cfg.Valid() && exists run :: Run(cfg, run) && s == run[|run| - 1]
  }

  lemma PrefixReachable(cfg: Config, run: seq<State>, i: nat)
    requires cfg.Valid() && Run(cfg, run) && i < |run|
    ensures Reachable(cfg, run[i])
  {
    hide Step, Init;
    var prefix := run[..i + 1];
    assert prefix[0] == run[0] && prefix[|prefix| - 1] == run[i];
    forall j | 0 <= j < |prefix| - 1 ensures Step(cfg, prefix[j], prefix[j + 1]) {
      assert Step(cfg, run[j], run[j + 1]);
    }
    assert Run(cfg, prefix);
  }

  lemma ReachableInv(cfg: Config, s: State)
    requires Reachable(cfg, s)
    ensures Inv(cfg, s)
  {
    var run :| Run(cfg, run) && s == run[|run| - 1];
    RunInv(cfg, run, |run| - 1);
  }

  // ---------------------------------------------------------------------------
  // Three group collectives make one global rendezvous
  // ---------------------------------------------------------------------------

  /** When one worker has left rendezvous b, every worker of the grid has reached it. */
  lemma GlobalBarrier(cfg: Config, s: State, b: nat, c: Coord, m: Coord)
    requires Synchronised(cfg, s) && c in s && m in s
    requires 3 * b + 3 <= |s[c].got|
    ensures HasSent(s[m], 3 * b)
  {
    var x := Coord(c.tp, c.pcp, m.pp);
    var y := Coord(c.tp, m.pcp, m.pp);
    GroupHasSent(cfg, s, c, x, 3 * b + 2);
    GroupHasSent(cfg, s, x, y, 3 * b + 1);
    GroupHasSent(cfg, s, y, m, 3 * b);
  }

  lemma GroupHasSent(cfg: Config, s: State, c: Coord, m: Coord, k: nat)
    requires Synchronised(cfg, s) && c in s && m in s
    requires SameGroup(k % 3, c, m) && k < |s[c].got|
    ensures HasSent(s[m], k) && s[m].sent[k] <= s[c].got[k]
    ensures k <= |s[m].got|
  {
    assert IsGroupMax(s, c, k, s[c].got[k]);
  }

  ghost predicate IsGlobalMax(s: State, k: nat, v: nat) {
    && (forall m :: m in s ==> HasSent(s[m], k) && s[m].sent[k] <= v)
    && (exists m :: m in s && HasSent(s[m], k) && s[m].sent[k] == v)
  }

  predicate PassesOn(w: Worker, k: nat) {
    && (HasSent(w, k + 1) && k < |w.got| ==> w.sent[k + 1] == w.got[k])
    && (HasSent(w, k + 2) && k + 1 < |w.got| ==> w.sent[k + 2] == w.got[k + 1])
  }

  ghost predicate AllPass(s: State, k: nat) {
    forall m :: m in s ==> PassesOn(s[m], k)
  }

  lemma GroupMaximaBound(cfg: Config, s: State, k: nat, c: Coord, m: Coord)
    requires Synchronised(cfg, s) && AllPass(s, k) && c in s && m in s
    requires k % 3 == 0 && k + 3 <= |s[c].got|
    ensures HasSent(s[m], k) && s[m].sent[k] <= s[c].got[k + 2]
  {
    hide Collected;
    var x := Coord(c.tp, c.pcp, m.pp);
    var y := Coord(c.tp, m.pcp, m.pp);
    GroupHasSent(cfg, s, c, x, k + 2);
    GroupHasSent(cfg, s, x, y, k + 1);
    GroupHasSent(cfg, s, y, m, k);
    assert PassesOn(s[x], k) && PassesOn(s[y], k);
  }

  lemma GroupMaximaAttained(cfg: Config, s: State, k: nat, c: Coord)
    requires Synchronised(cfg, s) && AllPass(s, k) && c in s
    requires k % 3 == 0 && k + 3 <= |s[c].got|
    ensures exists m :: m in s && HasSent(s[m], k) && s[m].sent[k] == s[c].got[k + 2]
  {
    var x := GroupWitness(cfg, s, c, k + 2);
    assert PassesOn(s[x], k);
    var y := GroupWitness(cfg, s, x, k + 1);
    assert PassesOn(s[y], k);
    var z := GroupWitness(cfg, s, y, k);
  }

  /** Three successive group maxima return, to every worker that has them, the maximum over the whole grid. */
  lemma ThreeMaximaAreGlobal(cfg: Config, s: State, k: nat, c: Coord)
    requires Synchronised(cfg, s) && AllPass(s, k) && c in s
    requires k % 3 == 0 && k + 3 <= |s[c].got|
    ensures IsGlobalMax(s, k, s[c].got[k + 2])
  {
    forall m | m in s ensures HasSent(s[m], k) && s[m].sent[k] <= s[c].got[k + 2] {
      GroupMaximaBound(cfg, s, k, c, m);
    }
    GroupMaximaAttained(cfg, s, k, c);
  }

  lemma GroupWitness(cfg: Config, s: State, c: Coord, k: nat) returns (m: Coord)
    requires Synchronised(cfg, s) && c in s && k < |s[c].got|
    ensures m in s && HasSent(s[m], k) && s[m].sent[k] == s[c].got[k]
    ensures k <= |s[m].got|
  {
    assert IsGroupMax(s, c, k, s[c].got[k]);
    m :| m in s && SameGroup(k % 3, c, m) && HasSent(s[m], k) && s[m].sent[k] == s[c].got[k];
  }

  lemma LocalPasses(cfg: Config, s: State)
    requires AllLocal(cfg, s)
    ensures AllPass(s, cfg.StatusMax()) && AllPass(s, cfg.RollbackMax())
  {
    forall m | m in s ensures PassesOn(s[m], cfg.StatusMax()) && PassesOn(s[m], cfg.RollbackMax()) {
      assert Local(cfg, m, s[m]);
    }
  }

  lemma StatusAgreed(cfg: Config, s: State, c: Coord)
    requires Reachable(cfg, s) && c in s && cfg.StatusMax() + 3 <= |s[c].got|
    ensures IsGlobalMax(s, cfg.StatusMax(), s[c].got[cfg.StatusMax() + 2])
  {
    hide Synchronised, AllLocal, IsGlobalMax, AllPass, Reachable;
    ReachableInv(cfg, s);
    LocalPasses(cfg, s);
    ThreeMaximaAreGlobal(cfg, s, cfg.StatusMax(), c);
  }

  lemma RollbackAgreed(cfg: Config, s: State, c: Coord)
    requires Reachable(cfg, s) && c in s && cfg.RollbackMax() + 3 <= |s[c].got|
    ensures IsGlobalMax(s, cfg.RollbackMax(), s[c].got[cfg.RollbackMax() + 2])
  {
    hide Synchronised, AllLocal, IsGlobalMax, AllPass, Reachable;
    ReachableInv(cfg, s);
    LocalPasses(cfg, s);
    ThreeMaximaAreGlobal(cfg, s, cfg.RollbackMax(), c);
  }

  /** At most one worker at a time is registering or rolling back. */
  lemma TurnsExclude(cfg: Config, s: State, a: Coord, b: Coord)
    requires Reachable(cfg, s) && a in s && b in s
    requires s[a].pc == Inside && s[b].pc == Inside
    ensures a == b
  {
    hide Reachable;
    ReachableInv(cfg, s);
    SameRendezvous(cfg, s, a, b);
    SameRendezvous(cfg, s, b, a);
    RankInWorld(cfg, a);
    RankInWorld(cfg, b);
    assert Rank(cfg, a) == Rank(cfg, b);
  }

  lemma SameRendezvous(cfg: Config, s: State, a: Coord, b: Coord)
    requires Reachable(cfg, s) && a in s && b in s
    requires s[a].pc == Inside && s[b].pc == Inside
    ensures s[a].Rendezvous() <= s[b].Rendezvous()
  {
    hide Reachable;
    ReachableInv(cfg, s);
    if s[b].Rendezvous() < s[a].Rendezvous() {
      GlobalBarrier(cfg, s, s[b].Rendezvous(), a, b);
    }
  }

  // ---------------------------------------------------------------------------
  // Unanimity
  // ---------------------------------------------------------------------------

  lemma LocalOf(cfg: Config, s: State, c: Coord)
    requires Reachable(cfg, s) && c in s
    ensures cfg.Valid() && InGrid(cfg, c) && Local(cfg, c, s[c])
    ensures forall m :: m in s <==> InGrid(cfg, m)
  {
    hide Reachable;
    ReachableInv(cfg, s);
  }

  lemma FinishedResults(cfg: Config, s: State, c: Coord)
    requires Reachable(cfg, s) && c in s && s[c].pc.Done? && cfg.policy != Disabled
    ensures cfg.StatusMax() + 3 <= |s[c].got| && |s[c].got| == |s[c].sent|
    ensures s[c].pc == Done(Pinned) <==> s[c].got[cfg.StatusMax() + 2] == 0
    ensures s[c].pc == Done(Pinned) ==> |s[c].got| == cfg.StatusMax() + 3
    ensures s[c].pc != Done(Pinned) ==> |s[c].got| == cfg.RollbackMax() + 3
    ensures s[c].pc != Done(Pinned) ==>
              (s[c].pc == Done(Pageable) <==>
               s[c].got[cfg.StatusMax() + 2] == 1 && s[c].got[cfg.RollbackMax() + 2] == 0 && cfg.policy == Auto)
    ensures s[c].pc != Done(Pinned) && s[c].pc != Done(Pageable) ==> s[c].pc == Done(Failed)
  {
    hide Reachable, Honest, Chained;
    LocalOf(cfg, s, c);
    var w := s[c];
    assert Ended(cfg, w);
    match w.pc.outcome {
      case Skipped =>
      case Pinned =>
      case Pageable =>
      case Failed =>
    }
  }

  lemma LocalOfAll(cfg: Config, s: State)
    requires Reachable(cfg, s)
    ensures cfg.Valid() && forall m :: m in s <==> InGrid(cfg, m)
  {
    hide Reachable;
    ReachableInv(cfg, s);
  }

  lemma GlobalMaxUnique(s: State, k: nat, v: nat, v': nat)
    requires IsGlobalMax(s, k, v) && IsGlobalMax(s, k, v')
    ensures v == v'
  {
  }

  /** No two finished workers disagree, even while others are still running. */
  lemma FinishedAgree(cfg: Config, s: State, a: Coord, b: Coord)
    requires Reachable(cfg, s) && a in s && b in s
    requires s[a].pc.Done? && s[b].pc.Done?
    ensures s[a].pc == s[b].pc && |s[a].sent| == |s[b].sent|
  {
    hide Reachable, IsGlobalMax, Chained, Honest;
    LocalOf(cfg, s, a);
    LocalOf(cfg, s, b);
    if cfg.policy != Disabled {
      FinishedResults(cfg, s, a);
      FinishedResults(cfg, s, b);
      StatusAgreed(cfg, s, a);
      StatusAgreed(cfg, s, b);
      GlobalMaxUnique(s, cfg.StatusMax(), s[a].got[cfg.StatusMax() + 2], s[b].got[cfg.StatusMax() + 2]);
      if s[a].pc != Done(Pinned) {
        RollbackAgreed(cfg, s, a);
        RollbackAgreed(cfg, s, b);
        GlobalMaxUnique(s, cfg.RollbackMax(), s[a].got[cfg.RollbackMax() + 2], s[b].got[cfg.RollbackMax() + 2]);
      }
    }
  }

  /** What a finished worker holds: its whole plan, nothing, or, only when it raises after a failed rollback of its
      own, some of the plan. */
  lemma FinishedChunks(cfg: Config, s: State, c: Coord)
    requires Reachable(cfg, s) && c in s
    ensures s[c].pc == Done(Pinned) ==> s[c].chunks == cfg.plan
    ensures s[c].pc == Done(Pageable) ==> s[c].chunks == [] && cfg.policy == Auto
    ensures s[c].pc == Done(Skipped) ==> s[c].chunks == [] && cfg.policy == Disabled
    ensures s[c].pc == Done(Failed) && s[c].rollbackStatus == 0 ==> s[c].chunks == []
    ensures forall x <- s[c].chunks :: x in cfg.plan
  {
    hide Reachable;
    LocalOf(cfg, s, c);
    RankInWorld(cfg, c);
    if s[c].pc == Done(Pinned) {
      StatusAgreed(cfg, s, c);
    } else if s[c].pc == Done(Pageable) {
      RollbackAgreed(cfg, s, c);
    }
  }

  ghost predicate AllPinned(cfg: Config, s: State) {
    forall c :: c in s ==> s[c].pc == Done(Pinned) && s[c].chunks == cfg.plan
  }

  ghost predicate AllReleased(s: State, o: Outcome) {
    forall c :: c in s ==> s[c].pc == Done(o) && s[c].chunks == []
  }

  ghost predicate AllFailed(s: State) {
    forall c :: c in s ==> s[c].pc == Done(Failed)
  }

  ghost predicate Finished(s: State) {
    forall c :: c in s ==> s[c].pc.Done?
  }

  predicate SameCalls(s: State, n: nat) {
    forall c <- s.Keys :: |s[c].sent| == n
  }

  /** For every grid, interleaving and failure pattern, a finished run is unanimous, and every worker has
      made the same number of collective calls.  Unless all are pinned, successful rollbacks leave nothing
      registered: so under policy required an ordinary failure raises everywhere with every chunk released. */
  lemma FinishedRunIsUnanimous(cfg: Config, run: seq<State>, s: State)
    requires cfg.Valid() && Run(cfg, run) && s == run[|run| - 1]
    requires Finished(s)
    ensures || AllPinned(cfg, s)
            || (AllReleased(s, Pageable) && cfg.policy == Auto)
            || (AllReleased(s, Skipped) && cfg.policy == Disabled)
            || AllFailed(s)
    ensures !AllPinned(cfg, s) && (forall c :: c in s ==> s[c].rollbackStatus == 0) ==> forall c :: c in s ==>
            s[c].chunks == []
    ensures exists n: nat :: SameCalls(s, n)
  {
    hide Reachable;
    PrefixReachable(cfg, run, |run| - 1);
    var root := Coord(0, 0, 0);
    LocalOfAll(cfg, s);
    forall c | c in s
      ensures s[c].pc == s[root].pc && |s[c].sent| == |s[root].sent|
      ensures s[c].pc == Done(Pinned) ==> s[c].chunks == cfg.plan
      ensures s[c].pc == Done(Pageable) ==> s[c].chunks == [] && cfg.policy == Auto
      ensures s[c].pc == Done(Skipped) ==> s[c].chunks == [] && cfg.policy == Disabled
      ensures s[c].pc == Done(Failed) && s[c].rollbackStatus == 0 ==> s[c].chunks == []
    {
      FinishedAgree(cfg, s, c, root);
      FinishedChunks(cfg, s, c);
    }
    assert SameCalls(s, |s[root].sent|);
    match s[root].pc.outcome {
      case Skipped => assert AllReleased(s, Skipped);
      case Pinned => assert AllPinned(cfg, s);
      case Pageable => assert AllReleased(s, Pageable);
      case Failed => assert AllFailed(s);
    }
  }

  ghost predicate WorstStatus(s: State, v: nat) {
    (forall m :: m in s ==> s[m].status <= v) && (exists m :: m in s && s[m].status == v)
  }

  /** The outcome is decided by the statuses alone: pinned exactly when every worker registered, pageable
      exactly when the worst failure was an ordinary one and every rollback succeeded under policy auto. */
  lemma FinishedOutcome(cfg: Config, s: State, c: Coord)
    requires Reachable(cfg, s) && Finished(s) && c in s && cfg.policy != Disabled
    ensures s[c].pc == Done(Pinned) <==> WorstStatus(s, 0)
    ensures s[c].pc == Done(Pageable) <==>
            cfg.policy == Auto && WorstStatus(s, 1) && forall m :: m in s ==> s[m].rollbackStatus == 0
  {
    hide Reachable, Honest, Ended;
    FinishedResults(cfg, s, c);
    StatusAgreed(cfg, s, c);
    forall m | m in s ensures HasSent(s[m], cfg.StatusMax()) && s[m].sent[cfg.StatusMax()] == s[m].status {
      FinishedResults(cfg, s, m);
      LocalOf(cfg, s, m);
    }
    if s[c].pc != Done(Pinned) {
      RollbackAgreed(cfg, s, c);
      forall m | m in s ensures HasSent(s[m], cfg.RollbackMax()) &&
        s[m].sent[cfg.RollbackMax()] == s[m].rollbackStatus {
        FinishedAgree(cfg, s, c, m);
        FinishedResults(cfg, s, m);
        LocalOf(cfg, s, m);
      }
    }
  }

  // ---------------------------------------------------------------------------
  // A worker that failed to prepare
  // ---------------------------------------------------------------------------

  /** No step undoes a worse failure: status 2 stays. */
  lemma FailureStays(cfg: Config, s: State, s': State, c: Coord)
    requires Inv(cfg, s) && Step(cfg, s, s') && c in s && s[c].status == 2
    ensures c in s' && s'[c].status == 2
  {
    hide Inv, IsGroupMax, PossibleRegistration, PossibleRollback;
    var d, w' :| d in s && WorkerStep(cfg, s, d, w') && s' == s[d := w'];
    if d == c {
      AllAreLocal(cfg, s, c);
      assert Honest(cfg, c, s[c]);
    }
  }

  lemma AllAreLocal(cfg: Config, s: State, c: Coord)
    requires Inv(cfg, s) && c in s
    ensures Local(cfg, c, s[c])
  {
  }

  /** Once its status is 2 a worker never registers: the status stays, and it is never inside its registration turn. */
  lemma {:induction false} FailedStaysOut(cfg: Config, run: seq<State>, j: nat, m: nat, c: Coord)
    requires cfg.Valid() && Run(cfg, run) && j <= m < |run| && c in run[j] && run[j][c].status == 2
    ensures c in run[m] && run[m][c].status == 2
    ensures !(run[m][c].pc == Inside && RegistrationTurn(cfg, c, run[m][c]))
    decreases m
  {
    hide Inv, Step, Honest, Shape, Ended, Chained;
    RunInv(cfg, run, m);
    if j < m {
      FailedStaysOut(cfg, run, j, m - 1, c);
      RunInv(cfg, run, m - 1);
      assert Step(cfg, run[m - 1], run[m - 1 + 1]);
      FailureStays(cfg, run[m - 1], run[m], c);
    }
    AllAreLocal(cfg, run[m], c);
    NoRegistration(cfg, run[m], c);
  }

  lemma NoRegistration(cfg: Config, s: State, c: Coord)
    requires c in s && Local(cfg, c, s[c]) && s[c].status == 2
    ensures !(s[c].pc == Inside && RegistrationTurn(cfg, c, s[c]))
  {
  }

  /** If some worker's status was ever 2 (its runtime could not be loaded, or its registration went badly wrong), a
      finished run has every worker raising. */
  lemma FailureFailsAll(cfg: Config, run: seq<State>, j: nat, c: Coord)
    requires cfg.Valid() && Run(cfg, run) && j < |run| && c in run[j] && run[j][c].status == 2
    requires Finished(run[|run| - 1])
    ensures AllFailed(run[|run| - 1])
  {
    hide Run, Reachable, Inv, Local;
    var s := run[|run| - 1];
    FailedStaysOut(cfg, run, j, |run| - 1, c);
    PrefixReachable(cfg, run, |run| - 1);
    LocalOf(cfg, s, c);
    NotDisabled(cfg, c, s[c]);
    forall d | d in s ensures s[d].pc == Done(Failed) {
      FinishedOutcome(cfg, s, d);
      assert !WorstStatus(s, 0) && !WorstStatus(s, 1) by { assert s[c].status == 2; }
      FinishedResults(cfg, s, d);
    }
  }

  lemma NotDisabled(cfg: Config, c: Coord, w: Worker)
    requires Local(cfg, c, w) && w.status == 2
    ensures cfg.policy != Disabled
  {
  }

  /** And it can happen: any worker may fail to prepare at once. */
  lemma PrepareCanFail(cfg: Config, s: State, c: Coord) returns (s': State)
    requires cfg.Valid() && cfg.policy != Disabled && Init(cfg, s) && c in s
    ensures Run(cfg, [s, s']) && c in s' && s'[c].status == 2
  {
    var w := s[c];
    var w' := w.(pc := Ready, status := 2);
    s' := s[c := w'];
    assert Prepare(cfg, w, w');
    assert WorkerStep(cfg, s, c, w');
    assert Step(cfg, s, s');
  }

  // ---------------------------------------------------------------------------
  // Nobody is stranded
  // ---------------------------------------------------------------------------

  /** A worker doing local work can always go on. */
  lemma LocalCanMove(cfg: Config, s: State, c: Coord) returns (w': Worker)
    requires Reachable(cfg, s) && c in s && (s[c].pc == Before || s[c].pc == Inside || s[c].pc == Ready)
    ensures WorkerStep(cfg, s, c, w')
  {
    hide Synchronised, AllLocal, Reachable;
    ReachableInv(cfg, s);
    var w := s[c];
    LocalOf(cfg, s, c);
    if w.pc == Before {
      if |w.got| == 0 {
        w' := if cfg.policy == Disabled then w.(pc := Done(Skipped)) else w.(pc := Ready);
      } else {
        w' := w.(pc := if MustAct(cfg, c, w) then Inside else Ready);
      }
    } else if w.pc == Ready {
      w' := w.(pc := Waiting, sent := w.sent + [Payload(cfg, w)]);
    } else if RegistrationTurn(cfg, c, w) {
      var r := RegistrationResult(cfg.plan, None, false, None, None);
      assert PossibleRegistration(cfg.plan, r);
      w' := w.(pc := Ready, chunks := r.chunks, status := LocalStatus(r));
    } else {
      var r := RollbackResult([], None, false, None);
      assert PossibleRollback(w.chunks, r);
      w' := w.(pc := Ready, chunks := r.remaining, rollbackStatus := RollbackStatus(r));
    }
  }

  /** Among workers that are all waiting or done, one that is least advanced finds its whole group present. */
  lemma LeastWaiterHasGroup(cfg: Config, s: State, c: Coord, m: Coord)
    requires Reachable(cfg, s) && c in s && m in s && s[c].pc == Waiting
    requires s[m].pc == Waiting || s[m].pc.Done?
    requires s[m].pc == Waiting ==> |s[c].got| <= |s[m].got|
    ensures HasSent(s[m], |s[c].got|)
  {
    hide Reachable, IsGlobalMax, Chained, Honest;
    LocalOf(cfg, s, c);
    LocalOf(cfg, s, m);
    if s[m].pc.Done? { FinishedResults(cfg, s, m); }
    if s[m].pc == Done(Pinned) && cfg.StatusMax() + 3 <= |s[c].got| {
      StatusAgreed(cfg, s, c);
      StatusAgreed(cfg, s, m);
      GlobalMaxUnique(s, cfg.StatusMax(), s[c].got[cfg.StatusMax() + 2], s[m].got[cfg.StatusMax() + 2]);
    }
  }

  /** The largest contribution among the members listed in `group`. */
  lemma {:induction false} LargestSent(s: State, group: set<Coord>, k: nat) returns (v: nat)
    requires group != {} && forall m <- group :: m in s && HasSent(s[m], k)
    ensures forall m <- group :: HasSent(s[m], k) && s[m].sent[k] <= v
    ensures exists m <- group :: HasSent(s[m], k) && s[m].sent[k] == v
    decreases group
  {
    var m :| m in group;
    v := s[m].sent[k];
    if group != {m} {
      var u := LargestSent(s, group - {m}, k);
      if v < u { v := u; }
    }
  }

  lemma {:induction false} LeastAdvanced(s: State, waiters: set<Coord>) returns (c: Coord)
    requires waiters != {} && forall m <- waiters :: m in s
    ensures c in waiters && forall m <- waiters :: |s[c].got| <= |s[m].got|
    decreases waiters
  {
    c :| c in waiters;
    if waiters != {c} {
      var d := LeastAdvanced(s, waiters - {c});
      if |s[d].got| < |s[c].got| { c := d; }
    }
  }

  /** Until every worker has finished, some worker can move. */
  lemma NeverStuck(cfg: Config, run: seq<State>, s: State)
    requires cfg.Valid() && Run(cfg, run) && s == run[|run| - 1]
    requires !Finished(s)
    ensures exists s' :: Step(cfg, s, s')
  {
    hide Reachable, WorkerStep;
    PrefixReachable(cfg, run, |run| - 1);
    var c, w' := SomeoneMoves(cfg, s);
    assert Step(cfg, s, s[c := w']);
  }

  lemma SomeoneMoves(cfg: Config, s: State) returns (c: Coord, w': Worker)
    requires Reachable(cfg, s) && !Finished(s)
    ensures c in s && WorkerStep(cfg, s, c, w')
  {
    hide Reachable, WorkerStep;
    var busy := set m | m in s && !s[m].pc.Done? && s[m].pc != Waiting;
    if busy != {} {
      c :| c in busy;
      w' := LocalCanMove(cfg, s, c);
    } else {
      assert forall m :: m in s ==> m !in busy;
      var waiters := set m | m in s && s[m].pc == Waiting;
      var d :| d in s && !s[d].pc.Done?;
      assert d in waiters;
      c := LeastAdvanced(s, waiters);
      var k := |s[c].got|;
      var group := set m | m in s && SameGroup(k % 3, c, m);
      forall m | m in group ensures HasSent(s[m], k) {
        LeastWaiterHasGroup(cfg, s, c, m);
      }
      assert c in group;
      var v := LargestSent(s, group, k);
      w' := WaiterMoves(cfg, s, c, v);
    }
  }

  lemma WaiterMoves(cfg: Config, s: State, c: Coord, v: nat) returns (w': Worker)
    requires c in s && s[c].pc == Waiting && IsGroupMax(s, c, |s[c].got|, v)
    ensures WorkerStep(cfg, s, c, w')
  {
    var w1 := s[c].(got := s[c].got + [v]);
    w' := w1.(pc := After(cfg, w1));
    assert Return(cfg, s, c, s[c], w');
  }

  // ---------------------------------------------------------------------------
  // Every run is finite
  // ---------------------------------------------------------------------------

  /** How far a worker has come; every step adds at least one. */
  function Progress(cfg: Config, w: Worker): nat {
    match w.pc
    case Before => 4 * |w.got|
    case Inside => 4 * |w.got| + 1
    case Ready => 4 * |w.got| + 2
    case Waiting => 4 * |w.got| + 3
    case Done(_) => Bound(cfg)
  }

  function Bound(cfg: Config): nat {
    4 * (cfg.RollbackMax() + 3)
  }

  lemma StepProgress(cfg: Config, s: State, c: Coord, w': Worker)
    requires Reachable(cfg, s) && c in s && WorkerStep(cfg, s, c, w')
    ensures Progress(cfg, s[c]) < Progress(cfg, w') <= Bound(cfg)
  {
    hide Reachable, Chained, Ended, Honest, Synchronised, AllLocal, LocalStatus, PossibleRegistration, PossibleRollback,
         IsGroupMax, MustAct, Payload;
    ReachableInv(cfg, s);
    LocalStep(cfg, s, c, w');
    LocalOf(cfg, s, c);
    assert Shape(cfg, s[c]) && Shape(cfg, w');
  }

  function TotalProgress(cfg: Config, s: State, r: nat): nat
    requires cfg.Valid() && r <= cfg.World()
    requires forall i: nat :: i < r ==> CoordOf(cfg, i) in s
  {
    if r == 0 then 0 else TotalProgress(cfg, s, r - 1) + Progress(cfg, s[CoordOf(cfg, r - 1)])
  }

  lemma {:induction false} TotalAfterStep(cfg: Config, s: State, c: Coord, w': Worker, r: nat)
    requires cfg.Valid() && r <= cfg.World() && c in s && InGrid(cfg, c)
    requires forall i: nat :: i < r ==> CoordOf(cfg, i) in s
    ensures Rank(cfg, c) < r ==>
              TotalProgress(cfg, s[c := w'], r) == TotalProgress(cfg, s, r) - Progress(cfg, s[c]) + Progress(cfg, w')
    ensures r <= Rank(cfg, c) ==> TotalProgress(cfg, s[c := w'], r) == TotalProgress(cfg, s, r)
  {
    if r != 0 {
      TotalAfterStep(cfg, s, c, w', r - 1);
      RankInWorld(cfg, c);
      CoordInGrid(cfg, r - 1);
    }
  }

  lemma {:induction false} TotalBound(cfg: Config, s: State, r: nat)
    requires cfg.Valid() && r <= cfg.World()
    requires forall i: nat :: i < r ==> CoordOf(cfg, i) in s
    requires forall c :: c in s ==> Progress(cfg, s[c]) <= Bound(cfg)
    ensures TotalProgress(cfg, s, r) <= r * Bound(cfg)
  {
    if r != 0 {
      TotalBound(cfg, s, r - 1);
      assert r * Bound(cfg) == (r - 1) * Bound(cfg) + Bound(cfg);
    }
  }

  lemma InvGrid(cfg: Config, s: State, c: Coord)
    requires Reachable(cfg, s) && c in s
    ensures InGrid(cfg, c)
  {
    hide Reachable;
    ReachableInv(cfg, s);
  }

  lemma RanksPresent(cfg: Config, s: State)
    requires Reachable(cfg, s)
    ensures forall i: nat :: i < cfg.World() ==> CoordOf(cfg, i) in s
    ensures forall c :: c in s ==> Progress(cfg, s[c]) <= Bound(cfg)
  {
    hide Reachable;
    LocalOfAll(cfg, s);
    forall i: nat | i < cfg.World() ensures CoordOf(cfg, i) in s {
      CoordInGrid(cfg, i);
    }
    forall c | c in s ensures Progress(cfg, s[c]) <= Bound(cfg) {
      LocalOf(cfg, s, c);
    }
  }

  lemma {:induction false} RunProgress(cfg: Config, run: seq<State>, i: nat)
    requires cfg.Valid() && Run(cfg, run) && i < |run|
    ensures forall j: nat :: j < cfg.World() ==> CoordOf(cfg, j) in run[i]
    ensures i <= TotalProgress(cfg, run[i], cfg.World())
  {
    hide Local, Synchronised, AllLocal, WorkerStep, Reachable;
    PrefixReachable(cfg, run, i);
    RanksPresent(cfg, run[i]);
    if i != 0 {
      PrefixReachable(cfg, run, i - 1);
      RunProgress(cfg, run, i - 1);
      var s := run[i - 1];
      assert Step(cfg, run[i - 1], run[i - 1 + 1]);
      var c, w' :| c in s && WorkerStep(cfg, s, c, w') && run[i] == s[c := w'];
      StepProgress(cfg, s, c, w');
      InvGrid(cfg, s, c);
      RankInWorld(cfg, c);
      TotalAfterStep(cfg, s, c, w', cfg.World());
    }
  }

  /** No run is longer than this: with NeverStuck, every run can be, and in the end is, finished. */
  lemma RunsAreBounded(cfg: Config, run: seq<State>)
    requires cfg.Valid() && Run(cfg, run)
    ensures |run| <= cfg.World() * Bound(cfg) + 1
  {
    hide Reachable;
    var i := |run| - 1;
    PrefixReachable(cfg, run, i);
    RunProgress(cfg, run, i);
    RanksPresent(cfg, run[i]);
    TotalBound(cfg, run[i], cfg.World());
  }
}
