/** The dynamic draft-depth controller (radiance_draft.py, patch_mtp_loopbreak.py): a vectorised per-slot gate over
    a batch, a loop that breaks when every request has stopped, and the assembly of ragged drafts, proved equal to
    a one-request reference.

    What the drafter would produce at each slot is an input; confidences are reals. */
module DraftController {
  import opened Options

  // ---------------------------------------------------------------------------
  // The batch-size ceiling
  // ---------------------------------------------------------------------------

  const UNCAPPED: int := 0x4000_0000

  predicate SortedSchedule(sched: seq<(int, int)>) {
    forall i, j :: 0 <= i < j < |sched| ==> sched[i].0 <= sched[j].0
  }

  /** Entry e is the last one the batch size reaches, or the first one when it reaches none. */
  predicate GovernedBy(sched: seq<(int, int)>, numReqs: int, e: nat) {
    e < |sched| && (e == 0 || sched[e].0 <= numReqs) && forall l :: e < l < |sched| ==> numReqs < sched[l].0
  }

  /** _batch_ceil: the depth of the last schedule entry the batch reaches, the first entry's below all of them. */
  method BatchCeil(sched: seq<(int, int)>, numReqs: int) returns (depth: int)
    requires SortedSchedule(sched)
    ensures 1 <= depth
    ensures sched == [] ==> depth == UNCAPPED
    ensures sched != [] ==>
            exists e: nat :: GovernedBy(sched, numReqs, e) && depth == (if sched[e].1 < 1 then 1 else sched[e].1)
  {
    if sched == [] { return UNCAPPED; }
    var d := sched[0].1;
    ghost var e: nat := 0;
    var i := 0;
    while i < |sched| && numReqs >= sched[i].0
      invariant 0 <= i <= |sched| && e < |sched| && d == sched[e].1
      invariant (i == 0 && e == 0) || e == i - 1
      invariant forall l :: 0 <= l < i ==> sched[l].0 <= numReqs
    {
      d := sched[i].1;
      e := i;
      i := i + 1;
    }
    depth := if d < 1 then 1 else d;
    assert GovernedBy(sched, numReqs, e);
  }

  // ---------------------------------------------------------------------------
  // One request on its own
  // ---------------------------------------------------------------------------

  /** The stop threshold, the draft width, and the forward cap (0 for none). */
  datatype Policy = Policy(tau: real, nspec: nat, cap: nat) {
    predicate Valid() {
      1 <= nspec && (cap == 0 || cap < nspec)
    }
  }

  /** The drafter's token and confidence at each slot, and the n-gram continuation. */
  datatype Request = Request(mtp: seq<int>, conf: seq<real>, cont: seq<int>)

  datatype Action = Draft | Copy | Verify

  /** Where a request stops, how, and after how many forwards. */
  datatype Outcome = Outcome(slot: nat, action: Action, forwards: nat)

  predicate Agrees(req: Request, j: nat)
    requires j < |req.mtp|
  {
    j < |req.cont| && req.cont[j] == req.mtp[j]
  }

  predicate Fits(p: Policy, req: Request) {
    p.Valid() && |req.mtp| == |req.conf| == p.nspec
  }

  /** The running product of the confidences before slot j. */
  function Cum(req: Request, j: nat): real
    requires j <= |req.conf|
  {
    if j == 0 then 1.0 else Cum(req, j - 1) * req.conf[j - 1]
  }

  /** The rule, slot by slot: copy on agreement, verify when the confidence product is spent or the cap is hit. */
  function Decide(p: Policy, req: Request, j: nat): (o: Outcome)
    requires Fits(p, req) && j <= p.nspec
    ensures j <= o.slot <= p.nspec && o.slot <= o.forwards <= p.nspec && (j < p.nspec ==> j < o.forwards)
    ensures o.action != Draft && (o.action == Copy ==> o.slot < p.nspec && Agrees(req, o.slot))
    ensures p.cap != 0 && j < p.cap ==> o.forwards <= p.cap
    decreases p.nspec - j
  {
    if j == p.nspec then Outcome(p.nspec, Verify, p.nspec)
    else if Agrees(req, j) then Outcome(j, Copy, j + 1)
    else if Cum(req, j) < p.tau then Outcome(j, Verify, j + 1)
    else if p.cap != 0 && j + 1 >= p.cap then Outcome(j + 1, Verify, j + 1)
    else Decide(p, req, j + 1)
  }

  function Decision(p: Policy, req: Request): (o: Outcome)
    requires Fits(p, req)
  {
    Decide(p, req, 0)
  }

  function Take(s: seq<int>, n: nat): seq<int> {
    if n < |s| then s[..n] else s
  }

  /** The draft of a request from its tokens, its stop slot and its action. */
  function Assemble(mtp: seq<int>, cont: seq<int>, slot: nat, action: Action, nspec: nat): seq<int> {
    var kept := Take(mtp, slot);
    var di := kept + if action == Copy && |kept| < |cont| then cont[|kept|..] else [];
    Take(if di == [] then Take(mtp, 1) else di, nspec)
  }

  /** The reference: one request drafted alone, with every forward available. */
  function ScalarDraft(p: Policy, req: Request): seq<int>
    requires Fits(p, req)
  {
    var o := Decision(p, req);
    Assemble(req.mtp, req.cont, o.slot, o.action, p.nspec)
  }

  /** Still drafting after j slots. */
  predicate Running(p: Policy, req: Request, j: nat)
    requires Fits(p, req)
  {
    j < Decision(p, req).forwards
  }

  /** A request still drafting after j slots resumes the rule at slot j. */
  lemma {:induction false} Resumes(p: Policy, req: Request, j: nat)
    requires Fits(p, req) && j < p.nspec && Running(p, req, j)
    ensures Decision(p, req) == Decide(p, req, j)
  {
    if j != 0 {
      Resumes(p, req, j - 1);
    }
  }

  // ---------------------------------------------------------------------------
  // The gate over a batch
  // ---------------------------------------------------------------------------

  /** The arrays of the gate dictionary, one entry a request. */
  datatype Gate = Gate(cum: seq<real>, stopped: seq<bool>, allAgree: seq<bool>, sslot: seq<nat>, saction: seq<Action>)

  predicate Sized(g: Gate, n: nat) {
    |g.cum| == |g.stopped| == |g.allAgree| == |g.sslot| == |g.saction| == n
  }

  /** One request's entries. */
  datatype View = View(cum: real, stopped: bool, allAgree: bool, sslot: nat, saction: Action)

  function At(g: Gate, i: nat): View
    requires Sized(g, |g.cum|) && i < |g.cum|
  {
    View(g.cum[i], g.stopped[i], g.allAgree[i], g.sslot[i], g.saction[i])
  }

  /** What the gate knows about a request after j slots: it is settled with the reference's outcome, or it is
      running, has never agreed with the n-gram, and nothing is recorded. */
  ghost predicate Tracks(p: Policy, req: Request, j: nat, v: View)
    requires Fits(p, req) && j <= p.nspec
  {
    var o := Decision(p, req);
    if Running(p, req, j) then
      !v.stopped && v.cum == Cum(req, j) && v.sslot == p.nspec && v.saction == Verify && (j != 0 ==> !v.allAgree)
    else
      v.sslot == o.slot && v.saction == o.action && (j < p.nspec ==> v.stopped)
  }

  /** One slot of the vectorised gate before the cap, seen from one request. */
  function Uncapped(p: Policy, j: nat, v: View, agree: bool, conf: real): View {
    var action := if agree then Copy else if v.cum >= p.tau then Draft else Verify;
    var newly := !v.stopped && action != Draft;
    var stopped := v.stopped || action != Draft;
    View(v.cum * conf, stopped, v.allAgree && (agree || stopped),
         if newly then j else v.sslot, if newly then action else v.saction)
  }

  function Capped(j: nat, v: View): View {
    View(v.cum, true, v.allAgree,
         if !v.stopped then j + 1 else v.sslot, if !v.stopped && v.allAgree then Copy else v.saction)
  }

  /** One slot, cap included. */
  function Next(p: Policy, j: nat, v: View, agree: bool, conf: real): View {
    var v1 := Uncapped(p, j, v, agree, conf);
    if p.cap != 0 && j + 1 >= p.cap then Capped(j, v1) else v1
  }

  /** Each slot moves a running request exactly as the reference does and leaves a stopped one alone. */
  lemma NextTracks(p: Policy, req: Request, j: nat, v: View)
    requires Fits(p, req) && j < p.nspec && Tracks(p, req, j, v)
    ensures Tracks(p, req, j + 1, Next(p, j, v, Agrees(req, j), req.conf[j]))
  {
    if Running(p, req, j) {
      Resumes(p, req, j);
      if Running(p, req, j + 1) && j + 1 < p.nspec { Resumes(p, req, j + 1); }
    }
  }

  /** At the forward cap the n-gram tail is never taken: a request still running has just disagreed. */
  lemma CapNeverCopies(p: Policy, req: Request, j: nat, v: View)
    requires Fits(p, req) && j < p.nspec && Tracks(p, req, j, v) && p.cap != 0 && j + 1 >= p.cap
    ensures var before := Next(p.(cap := 0), j, v, Agrees(req, j), req.conf[j]); !before.stopped ==> !before.allAgree
    ensures Next(p, j, v, Agrees(req, j), req.conf[j]).saction ==
            Next(p.(cap := 0), j, v, Agrees(req, j), req.conf[j]).saction
  {
  }

  ghost predicate BatchFits(p: Policy, reqs: seq<Request>) {
    forall i :: 0 <= i < |reqs| ==> Fits(p, reqs[i])
  }

  ghost predicate AllSettled(p: Policy, reqs: seq<Request>, j: nat)
    requires BatchFits(p, reqs)
  {
    forall i :: 0 <= i < |reqs| ==> !Running(p, reqs[i], j)
  }

  predicate All(bs: seq<bool>) {
    forall b <- bs :: b
  }

  ghost predicate AllTrack(p: Policy, reqs: seq<Request>, j: nat, g: Gate) {
    && BatchFits(p, reqs) && j <= p.nspec && Sized(g, |reqs|)
    && forall i :: 0 <= i < |reqs| ==> Tracks(p, reqs[i], j, At(g, i))
  }

  /** The gate dictionary as the first slot fills it. */
  function Opened(n: nat, nspec: nat): (g: Gate)
    ensures Sized(g, n)
  {
    Gate(seq(n, _ => 1.0), seq(n, _ => false), seq(n, _ => true), seq(n, _ => nspec), seq(n, _ => Verify))
  }

  lemma OpenedTracks(p: Policy, reqs: seq<Request>)
    requires BatchFits(p, reqs)
    ensures AllTrack(p, reqs, 0, Opened(|reqs|, p.nspec))
  {
    hide Decide;
    var g := Opened(|reqs|, p.nspec);
    forall i | 0 <= i < |reqs| ensures Tracks(p, reqs[i], 0, At(g, i)) {
      assert At(g, i) == View(1.0, false, true, p.nspec, Verify);
    }
  }

  lemma StopMeans(p: Policy, reqs: seq<Request>, j: nat, g: Gate)
    requires AllTrack(p, reqs, j, g) && j < p.nspec
    ensures All(g.stopped) <==> AllSettled(p, reqs, j)
  {
    hide Decision, Cum;
    if All(g.stopped) {
      forall i | 0 <= i < |reqs| ensures !Running(p, reqs[i], j) {
        assert g.stopped[i] in g.stopped;
        assert Tracks(p, reqs[i], j, At(g, i));
      }
    } else {
      var i :| 0 <= i < |g.stopped| && !g.stopped[i];
      assert Tracks(p, reqs[i], j, At(g, i));
    }
  }

  /** The vectorised decision of one slot without the cap, as array expressions over the batch. */
  method DecideAll(p: Policy, j: nat, st: Gate, agree: seq<bool>, confs: seq<real>) returns (next: Gate)
    requires Sized(st, |agree|) && |confs| == |agree|
    ensures Sized(next, |agree|)
    ensures forall i :: 0 <= i < |agree| ==> At(next, i) == Uncapped(p, j, At(st, i), agree[i], confs[i])
  {
    var n := |agree|;
    var action := seq(n, i requires 0 <= i < n => if agree[i] then Copy else if st.cum[i] >= p.tau then Draft
                                                  else Verify);
    var newly := seq(n, i requires 0 <= i < n => !st.stopped[i] && action[i] != Draft);
    var sslot := seq(n, i requires 0 <= i < n => if newly[i] then j else st.sslot[i]);
    var saction := seq(n, i requires 0 <= i < n => if newly[i] then action[i] else st.saction[i]);
    var stopped := seq(n, i requires 0 <= i < n => st.stopped[i] || action[i] != Draft);
    var cum := seq(n, i requires 0 <= i < n => st.cum[i] * confs[i]);
    var allAgree := seq(n, i requires 0 <= i < n => st.allAgree[i] && (agree[i] || stopped[i]));
    next := Gate(cum, stopped, allAgree, sslot, saction);
    forall i | 0 <= i < n ensures At(next, i) == Uncapped(p, j, At(st, i), agree[i], confs[i]) {
      assert action[i] == if agree[i] then Copy else if st.cum[i] >= p.tau then Draft else Verify;
      assert newly[i] == (!st.stopped[i] && action[i] != Draft);
    }
  }

  /** The forward cap: whoever still runs is stopped after this slot. */
  method CapAll(j: nat, st: Gate) returns (next: Gate)
    requires Sized(st, |st.cum|)
    ensures Sized(next, |st.cum|)
    ensures forall i :: 0 <= i < |st.cum| ==> At(next, i) == Capped(j, At(st, i))
  {
    var n := |st.cum|;
    var capNew := seq(n, i requires 0 <= i < n => !st.stopped[i]);
    var sslot := seq(n, i requires 0 <= i < n => if capNew[i] then j + 1 else st.sslot[i]);
    var saction := seq(n, i requires 0 <= i < n => if capNew[i] && st.allAgree[i] then Copy else st.saction[i]);
    var stopped := seq(n, i requires 0 <= i < n => st.stopped[i] || capNew[i]);
    next := Gate(st.cum, stopped, st.allAgree, sslot, saction);
    forall i | 0 <= i < n ensures At(next, i) == Capped(j, At(st, i)) {
      assert capNew[i] == !st.stopped[i];
    }
  }

  method Advance(p: Policy, j: nat, st: Gate, agree: seq<bool>, confs: seq<real>) returns (next: Gate)
    requires Sized(st, |agree|) && |confs| == |agree|
    ensures Sized(next, |agree|)
    ensures forall i :: 0 <= i < |agree| ==> At(next, i) == Next(p, j, At(st, i), agree[i], confs[i])
  {
    hide Uncapped, Capped, At;
    next := DecideAll(p, j, st, agree, confs);
    if p.cap != 0 && j + 1 >= p.cap {
      next := CapAll(j, next);
    }
  }

  lemma AdvanceTracks(p: Policy, reqs: seq<Request>, j: nat, st: Gate, next: Gate, agree: seq<bool>, confs: seq<real>)
    requires AllTrack(p, reqs, j, st) && j < p.nspec && Sized(next, |reqs|) && |agree| == |confs| == |reqs|
    requires forall i :: 0 <= i < |reqs| ==> agree[i] == Agrees(reqs[i], j) && confs[i] == reqs[i].conf[j]
    requires forall i :: 0 <= i < |agree| ==> At(next, i) == Next(p, j, At(st, i), agree[i], confs[i])
    ensures AllTrack(p, reqs, j + 1, next)
  {
    hide Decide, Cum, Decision, Next, At, Tracks;
    forall i | 0 <= i < |reqs| ensures Tracks(p, reqs[i], j + 1, At(next, i)) {
      NextTracks(p, reqs[i], j, At(st, i));
    }
  }

  /** One row of _postprocess_gpu. */
  method PostprocessRow(r: seq<int>, cont: seq<int>, clen: nat, slot: nat, action: Action, nspec: nat)
    returns (out: seq<int>)
    requires clen <= |cont|
    ensures out == Assemble(r, cont[..clen], slot, action, nspec)
  {
    var k := if slot < |r| then slot else |r|;
    var di := r[..k];
    if action == Copy && k < clen {
      assert cont[..clen][k..] == cont[k..clen];
      di := di + cont[k..clen];
    }
    if di == [] {
      di := if |r| > 0 then [r[0]] else [];
      assert di == Take(r, 1);
    }
    out := Take(di, nspec);
  }

  // ---------------------------------------------------------------------------
  // The proposer
  // ---------------------------------------------------------------------------

  /** The drafter's per-proposal controller state. */
  class Drafter {
    var slot: nat
    var stop: bool
    var gate: Option<Gate>
    const p: Policy
    const matched: bool
    const contCpu: seq<seq<int>>
    const clenCpu: seq<nat>

    /** propose: reset the controller for one proposal; `matched` says whether the matcher ran for this batch. */
    constructor (tau: real, nspec: nat, batchCeil: int, matched: bool, contCpu: seq<seq<int>>, clenCpu: seq<nat>)
      requires 1 <= nspec
      ensures p == Policy(tau, nspec, if 0 < batchCeil < nspec then batchCeil else 0) && p.Valid()
      ensures slot == 0 && !stop && gate == None
      ensures this.matched == matched && this.contCpu == contCpu && this.clenCpu == clenCpu
    {
      p := Policy(tau, nspec, if 0 < batchCeil < nspec then batchCeil else 0);
      slot, stop, gate := 0, false, None;
      this.matched, this.contCpu, this.clenCpu := matched, contCpu, clenCpu;
    }

    /** The continuations the matcher left on the host are those of the batch. */
    ghost predicate Serves(reqs: seq<Request>) {
      && BatchFits(p, reqs)
      && (matched ==> reqs != [] && |contCpu| == |clenCpu| == |reqs|)
      && (matched ==> forall i :: 0 <= i < |reqs| ==>
           clenCpu[i] <= |contCpu[i]| && contCpu[i][..clenCpu[i]] == reqs[i].cont)
    }

    /** After `slot` slots: the gate tracks every request, and stop is raised exactly when all have settled.
        Without a matcher nothing is ever recorded. */
    ghost predicate Gated(reqs: seq<Request>)
      requires Serves(reqs)
      reads this
    {
      && slot <= p.nspec
      && (slot == 0 || !matched ==> !stop && gate == None)
      && (slot > 0 && matched ==>
           gate.Some? && AllTrack(p, reqs, slot, gate.value) &&
               (slot < p.nspec ==> (stop <==> AllSettled(p, reqs, slot))))
    }

    /** greedy_sample: the decision for this slot, for every request at once. */
    method GreedySample(reqs: seq<Request>, tokens: seq<int>, confs: seq<real>)
      requires Serves(reqs) && Gated(reqs) && slot < p.nspec && !stop
      requires |tokens| == |confs| == |reqs|
      requires forall i :: 0 <= i < |reqs| ==> tokens[i] == reqs[i].mtp[slot] && confs[i] == reqs[i].conf[slot]
      modifies this
      ensures Gated(reqs) && slot == old(slot) + 1
    {
      hide Decision, Decide, Cum, Tracks, All, AllSettled, Opened, At, Next, Running;
      var j := slot;
      slot := j + 1;
      if !matched { return; }
      var n := |tokens|;
      OpenedTracks(p, reqs);
      var st := if j == 0 then Opened(n, p.nspec) else gate.value;
      var agree := seq(n, i requires 0 <= i < n => j < clenCpu[i] && contCpu[i][j] == tokens[i]);
      forall i | 0 <= i < n ensures agree[i] == Agrees(reqs[i], j) {
        assert reqs[i].cont == contCpu[i][..clenCpu[i]];
      }
      var next := Advance(p, j, st, agree, confs);
      AdvanceTracks(p, reqs, j, st, next, agree, confs);
      gate := Some(next);
      if All(next.stopped) { stop := true; }
      hide AllTrack, BatchFits;
      if j + 1 < p.nspec { StopMeans(p, reqs, j + 1, next); }
    }

    /** The draft loop with the injected break: slot 0, then one forward a slot until stopped. */
    method RunForwards(reqs: seq<Request>) returns (columns: seq<seq<int>>)
      requires Serves(reqs) && Gated(reqs) && slot == 0 && p.Valid()
      modifies this
      ensures Gated(reqs) && slot == |columns| >= 1
      ensures forall j :: 0 <= j < |columns| ==> columns[j] == Tokens(reqs, p.nspec, j)
      ensures matched ==> AllSettled(p, reqs, slot) && !AllSettled(p, reqs, slot - 1)
      ensures !matched ==> slot == p.nspec
    {
      hide Decision, Running, AllTrack, Tokens, Confidences, AllSettled;
      FirstForward(p, reqs);
      columns := [Tokens(reqs, p.nspec, 0)];
      SlotInputs(p, reqs, 0);
      GreedySample(reqs, Tokens(reqs, p.nspec, 0), Confidences(reqs, p.nspec, 0));
      for tokenIndex := 0 to p.nspec - 1
        invariant Gated(reqs) && slot == |columns| == tokenIndex + 1
        invariant forall j :: 0 <= j < |columns| ==> columns[j] == Tokens(reqs, p.nspec, j)
        invariant matched ==> !AllSettled(p, reqs, slot - 1)
      {
        if stop { break; }
        columns := columns + [Tokens(reqs, p.nspec, slot)];
        SlotInputs(p, reqs, slot);
        GreedySample(reqs, Tokens(reqs, p.nspec, slot), Confidences(reqs, p.nspec, slot));
      }
      LastForward(p, reqs);
    }

    /** _postprocess_gpu: trim each row to its stop slot and append the verbatim tail where one was chosen. */
    method Postprocess(rows: seq<seq<int>>) returns (out: seq<seq<int>>)
      requires gate.Some? ==> |contCpu| == |clenCpu| == |rows| && Sized(gate.value, |rows|)
      requires gate.Some? ==> forall i :: 0 <= i < |rows| ==> clenCpu[i] <= |contCpu[i]|
      ensures gate.None? ==> out == rows
      ensures gate.Some? ==> |out| == |rows| && forall i :: 0 <= i < |rows| ==>
        out[i] == Assemble(rows[i], contCpu[i][..clenCpu[i]], gate.value.sslot[i], gate.value.saction[i], p.nspec)
    {
      hide Assemble;
      if gate.None? { return rows; }
      var st := gate.value;
      out := [];
      for i := 0 to |rows|
        invariant |out| == i
        invariant forall m :: 0 <= m < i ==>
          out[m] == Assemble(rows[m], contCpu[m][..clenCpu[m]], st.sslot[m], st.saction[m], p.nspec)
      {
        var draft := PostprocessRow(rows[i], contCpu[i], clenCpu[i], st.sslot[i], st.saction[i], p.nspec);
        out := out + [draft];
      }
    }
  }

  /** What the drafter hands to slot j. */
  function Tokens(reqs: seq<Request>, nspec: nat, j: nat): (ts: seq<int>)
    requires j < nspec && forall i :: 0 <= i < |reqs| ==> |reqs[i].mtp| == nspec
    ensures |ts| == |reqs|
  {
    seq(|reqs|, i requires 0 <= i < |reqs| => reqs[i].mtp[j])
  }

  function Confidences(reqs: seq<Request>, nspec: nat, j: nat): (cs: seq<real>)
    requires j < nspec && forall i :: 0 <= i < |reqs| ==> |reqs[i].conf| == nspec
    ensures |cs| == |reqs|
  {
    seq(|reqs|, i requires 0 <= i < |reqs| => reqs[i].conf[j])
  }

  lemma SlotInputs(p: Policy, reqs: seq<Request>, j: nat)
    requires BatchFits(p, reqs) && j < p.nspec
    ensures forall i :: 0 <= i < |reqs| ==>
              Tokens(reqs, p.nspec, j)[i] == reqs[i].mtp[j] && Confidences(reqs, p.nspec, j)[i] == reqs[i].conf[j]
  {
  }

  lemma FirstForward(p: Policy, reqs: seq<Request>)
    requires BatchFits(p, reqs)
    ensures reqs != [] ==> !AllSettled(p, reqs, 0)
  {
    if reqs != [] { assert Running(p, reqs[0], 0); }
  }

  lemma LastForward(p: Policy, reqs: seq<Request>)
    requires BatchFits(p, reqs)
    ensures AllSettled(p, reqs, p.nspec)
  {
  }

  /** The stacked tensor: one row a request, one column a forward. */
  function Stack(columns: seq<seq<int>>, n: nat): (rows: seq<seq<int>>)
    requires forall c <- columns :: |c| == n
    ensures |rows| == n
  {
    seq(n, i requires 0 <= i < n => seq(|columns|,
        j requires 0 <= j < |columns| => assert columns[j] in columns; columns[j][i]))
  }

  /** One whole proposal.  With the matcher every request gets exactly its own reference draft, and the batch runs
      as many forwards as its longest request needs; without it the native full-width draft passes through.  So the
      forward cap is kept exactly when the matcher ran. */
  method ProposeDraft(tau: real, nspec: nat, batchCeil: int, matched: bool, contCpu: seq<seq<int>>, clenCpu: seq<nat>,
                      reqs: seq<Request>)
    returns (out: seq<seq<int>>, forwards: nat)
    requires 1 <= nspec && BatchFits(Policy(tau, nspec, 0), reqs) &&
             (matched ==> reqs != [] && |contCpu| == |clenCpu| == |reqs|)
    requires matched ==> forall i :: 0 <= i < |reqs| ==>
             clenCpu[i] <= |contCpu[i]| && contCpu[i][..clenCpu[i]] == reqs[i].cont
    ensures |out| == |reqs| && forwards <= nspec
    ensures var p := Policy(tau, nspec, if 0 < batchCeil < nspec then batchCeil else 0);
            BatchFits(p, reqs)
            && (matched ==> AllSettled(p, reqs, forwards) && 1 <= forwards && !AllSettled(p, reqs, forwards - 1))
            && (matched ==> forall i :: 0 <= i < |reqs| ==> out[i] == ScalarDraft(p, reqs[i]))
            && (p.cap != 0 ==> (forwards <= p.cap <==> matched))
    ensures !matched ==> forwards == nspec && forall i :: 0 <= i < |reqs| ==> out[i] == reqs[i].mtp
  {
    var d := new Drafter(tau, nspec, batchCeil, matched, contCpu, clenCpu);
    var p := d.p;
    assert BatchFits(p, reqs);
    hide Decision, Running, Tracks, Assemble, AllSettled;
    var columns := d.RunForwards(reqs);
    forwards := |columns|;
    var rows := Stack(columns, |reqs|);
    forall i | 0 <= i < |reqs| ensures rows[i] == reqs[i].mtp[..forwards] {
      RowIs(reqs, nspec, columns, i);
    }
    out := d.Postprocess(rows);
    if matched {
      if p.cap != 0 { ForwardsWithinCap(p, reqs, forwards); }
      forall i | 0 <= i < |reqs| ensures out[i] == ScalarDraft(p, reqs[i]) {
        AssembledIsScalar(p, reqs, forwards, d.gate.value, i, rows[i]);
      }
    }
  }

  lemma RowIs(reqs: seq<Request>, nspec: nat, columns: seq<seq<int>>, i: nat)
    requires i < |reqs| && |columns| <= nspec && forall m :: 0 <= m < |reqs| ==> |reqs[m].mtp| == nspec
    requires forall j :: 0 <= j < |columns| ==> columns[j] == Tokens(reqs, nspec, j)
    ensures forall c <- columns :: |c| == |reqs|
    ensures Stack(columns, |reqs|)[i] == reqs[i].mtp[..|columns|]
  {
  }

  /** Breaking early loses no token the assembly needs. */
  lemma AssembledIsScalar(p: Policy, reqs: seq<Request>, forwards: nat, g: Gate, i: nat, row: seq<int>)
    requires AllTrack(p, reqs, forwards, g) && AllSettled(p, reqs, forwards) && i < |reqs| && 1 <= forwards
    requires row == reqs[i].mtp[..forwards]
    ensures Assemble(row, reqs[i].cont, g.sslot[i], g.saction[i], p.nspec) == ScalarDraft(p, reqs[i])
  {
    hide Decide;
    var req, o := reqs[i], Decision(p, reqs[i]);
    assert !Running(p, req, forwards) && Tracks(p, req, forwards, At(g, i));
    assert Take(row, o.slot) == Take(req.mtp, o.slot);
    assert Take(row, 1) == Take(req.mtp, 1);
  }

  // ---------------------------------------------------------------------------
  // What the reference guarantees
  // ---------------------------------------------------------------------------

  function Product(cs: seq<real>): real {
    if cs == [] then 1.0 else Product(cs[..|cs| - 1]) * cs[|cs| - 1]
  }

  /** The slot at which a request is stopped whatever it does: the cap, or the draft width. */
  function Limit(p: Policy): nat {
    if p.cap == 0 then p.nspec else p.cap
  }

  lemma {:induction false} CumIsProduct(req: Request, j: nat)
    requires j <= |req.conf|
    ensures Cum(req, j) == Product(req.conf[..j])
  {
    if j != 0 {
      assert req.conf[..j][..j - 1] == req.conf[..j - 1];
      CumIsProduct(req, j - 1);
    }
  }

  lemma {:induction false} DecideRule(p: Policy, req: Request, j: nat)
    requires Fits(p, req) && (j < Limit(p) || (p.cap == 0 && j == p.nspec))
    ensures var o := Decide(p, req, j);
            && o.slot <= Limit(p) && o.forwards == (if o.slot < Limit(p) then o.slot + 1 else Limit(p))
            && (forall i: nat :: j <= i < o.slot ==> !Agrees(req, i) && p.tau <= Cum(req, i))
            && (o.slot < Limit(p) ==> Agrees(req, o.slot) || Cum(req, o.slot) < p.tau)
            && o.action == if o.slot < Limit(p) && Agrees(req, o.slot) then Copy else Verify
    decreases p.nspec - j
  {
    hide Cum;
    if j < p.nspec && !Agrees(req, j) && p.tau <= Cum(req, j) && !(p.cap != 0 && j + 1 >= p.cap) {
      DecideRule(p, req, j + 1);
    }
  }

  /** Where a request stops.  Before the stop slot no drafted token agrees with the n-gram's and the product of the
      confidences so far is at least tau; the stop slot is the first agreement, which is copied from, or the first
      product below tau, or the limit.  It takes one forward more than the slots before it, within the limit. */
  lemma StopSlot(p: Policy, req: Request)
    requires Fits(p, req)
    ensures var o := Decision(p, req);
            && o.slot <= Limit(p) <= |req.mtp| == |req.conf|
            && (forall i: nat :: i < o.slot ==> !(i < |req.cont| && req.cont[i] == req.mtp[i]))
            && (forall i: nat :: i < o.slot ==> p.tau <= Product(req.conf[..i]))
            && (o.action == Copy <==>
                 o.slot < Limit(p) && o.slot < |req.cont| && req.cont[o.slot] == req.mtp[o.slot])
            && (o.slot < Limit(p) && o.action != Copy ==> Product(req.conf[..o.slot]) < p.tau)
            && o.forwards == if o.slot < Limit(p) then o.slot + 1 else Limit(p)
  {
    hide Decide;
    DecideRule(p, req, 0);
    var o := Decision(p, req);
    forall i: nat | i <= o.slot && i <= |req.conf| ensures Cum(req, i) == Product(req.conf[..i]) {
      CumIsProduct(req, i);
    }
    forall i: nat | i < o.slot ensures !(i < |req.cont| && req.cont[i] == req.mtp[i]) {
      assert !Agrees(req, i);
    }
  }

  /** What is drafted.  A copied draft holds the drafter's tokens before the stop slot and the n-gram's from it on, as
      many as there are and at most nspec; any other holds the drafter's tokens before the stop slot, or the first one
      when there are none. */
  lemma DraftIs(p: Policy, req: Request)
    requires Fits(p, req)
    ensures var o, d := Decision(p, req), ScalarDraft(p, req);
            && (o.action == Copy ==>
                 && |d| == (if p.nspec < |req.cont| then p.nspec else |req.cont|)
                 && forall t :: 0 <= t < |d| ==> d[t] == if t < o.slot then req.mtp[t] else req.cont[t])
            && (o.action != Copy ==> d == if o.slot == 0 then [req.mtp[0]] else req.mtp[..o.slot])
  {
    hide Decide;
  }

  /** Every draft has between 1 and nspec tokens. */
  lemma DraftWidth(p: Policy, req: Request)
    requires Fits(p, req)
    ensures 1 <= |ScalarDraft(p, req)| <= p.nspec
  {
  }

  /** The drafter's own tokens are kept up to the stop, and a copied tail starts with the drafter's token. */
  lemma DraftStartsWithDrafter(p: Policy, req: Request, j: nat)
    requires Fits(p, req)
    requires var o := Decision(p, req); j < o.slot || (j == o.slot && o.action == Copy)
    ensures j < |ScalarDraft(p, req)| && ScalarDraft(p, req)[j] == req.mtp[j]
  {
    hide Decide;
  }

  /** With the matcher, forwards stay within the cap. */
  lemma ForwardsWithinCap(p: Policy, reqs: seq<Request>, forwards: nat)
    requires BatchFits(p, reqs) && p.cap != 0 && 1 <= forwards && !AllSettled(p, reqs, forwards - 1)
    ensures forwards <= p.cap
  {
    var i :| 0 <= i < |reqs| && Running(p, reqs[i], forwards - 1);
  }
}
