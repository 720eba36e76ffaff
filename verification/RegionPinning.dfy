/** Pinning and releasing one worker's mapped region.  This is pin_mmap_region without a coordination
    object, where the worker's turn is the only one; PinProtocol models the coordinated form. */
module RegionPinning {
  import opened HostRegistration
  import opened PinProtocol

  /** Nothing was refused and nothing raised. */
  ghost predicate Clean(es: seq<Entry>) {
    FirstRefused(es).None? && !AnyRaised(es)
  }

  /** Something was refused, and everything registered before it was released. */
  ghost predicate Refused(es: seq<Entry>) {
    FirstRefused(es).Some? && !AnyRaised(es) && FirstBad(es).None?
  }

  /** The outcome a log of registration and rollback calls calls for. */
  ghost function Verdict(policy: Policy, es: seq<Entry>): Outcome {
    if Clean(es) then Pinned else if policy == Auto && Refused(es) then Pageable else Failed
  }

  /** The outcome, call by call: pinned when none was refused or raised; pageable under auto when one was refused and
      neither a release failed nor anything raised; and otherwise an error. */
  lemma VerdictIs(policy: Policy, es: seq<Entry>)
    ensures Verdict(policy, es) == Pinned <==> forall e <- es :: !Refusal(e) && !Raises(e)
    ensures Verdict(policy, es) == Pageable <==>
            policy == Auto && (exists e <- es :: Refusal(e)) && forall e <- es :: !FailedRelease(e) && !Raises(e)
    ensures Verdict(policy, es) in {Pinned, Pageable, Failed}
  {
    hide FirstRefused, FirstBad, AnyRaised, FirstDrain, Refusal, FailedRelease, Raises;
    var i := FirstRefusedAt(es);
    var j := FirstBadAt(es);
    var k := FirstDrainAt(es);
    if i < |es| { assert es[i] in es; }
    if j < |es| { assert es[j] in es; }
  }

  class Region {
    const base: int
    const total: nat
    const stride: nat
    var pinned: seq<Chunk>
    var isPinned: bool
    var runtime: HostRuntime?

    constructor (base: int, total: nat, stride: nat)
      ensures Tracks({}) && pinned == []
      ensures this.base == base && this.total == total && this.stride == stride
    {
      this.base, this.total, this.stride := base, total, stride;
      pinned, isPinned, runtime := [], false, null;
    }

    /** The region's fields agree, and `registered` is exactly what the region has pinned. */
    ghost predicate Tracks(registered: set<int>)
      reads this
    {
      && (isPinned <==> pinned != [])
      && (isPinned ==> runtime != null)
      && Distinct(pinned)
      && registered == Pointers(base, pinned)
    }

    /** The registration turn; the status is what is reported to the group. */
    method RegisterRegion(handle: HostRuntime, requested: nat) returns (status: nat)
      requires ValidPlan(total, stride, requested)
      requires pinned == [] && !isPinned && runtime == null
      requires Pointers(base, Plan(total, stride, requested)) !! handle.registered
      modifies this`pinned, this`isPinned, this`runtime, handle
      ensures handle.registered == old(handle.registered) + Pointers(base, pinned)
      ensures old(handle.registered) !! Pointers(base, pinned)
      ensures Tracks(Pointers(base, pinned)) && (isPinned ==> runtime == handle)
      ensures old(handle.log) <= handle.log
      ensures var es := handle.log[|old(handle.log)|..];
              status <= 2 && (status == 0 <==> Clean(es)) && (status == 1 <==> Refused(es))
      ensures status == 0 ==> pinned == Plan(total, stride, requested)
      ensures status == 1 ==> pinned == []
    {
      hide Tries, Starts, FirstBad, FirstRefused, LastDrained, FirstDrain, AnyRaised, Ranges, Backwards, Plan, Retained;
      var result := RegisterHostChunks(handle, base, total, stride, requested);
      PlanPartitionsRegion(total, stride, requested, 0);
      RetainedDistinct(base, Plan(total, stride, requested), handle.registered);
      RetainedMembers(base, Plan(total, stride, requested), handle.registered);
      pinned := result.chunks;
      isPinned := result.chunks != [];
      runtime := if result.chunks != [] then handle else null;
      status := LocalStatus(result);
    }

    /** The rollback turn. */
    method ReleaseRegion(handle: HostRuntime, ghost others: set<int>) returns (status: nat)
      requires isPinned && Tracks(Pointers(base, pinned)) && runtime == handle
      requires handle.registered == others + Pointers(base, pinned) && others !! Pointers(base, pinned)
      modifies this`pinned, this`isPinned, this`runtime, handle
      ensures handle.registered == others + Pointers(base, pinned)
      ensures Tracks(Pointers(base, pinned)) && (isPinned ==> runtime == handle)
      ensures old(handle.log) <= handle.log && FirstRefused(handle.log[|old(handle.log)|..]).None?
      ensures status == 0 || status == 2
    {
      hide Tries, Starts, FirstBad, FirstRefused, LastDrained, FirstDrain, AnyRaised, Ranges, Backwards, Retained;
      ghost var was, listed := handle.registered, pinned;
      var rollback := RollbackHostChunks(handle, base, pinned);
      RetainedDistinct(base, pinned, handle.registered);
      RetainedMembers(base, pinned, handle.registered);
      RollbackAccounts(base, others, was, listed, rollback.remaining);
      pinned := rollback.remaining;
      isPinned := pinned != [];
      if !isPinned { runtime := null; }
      status := RollbackStatus(rollback);
    }

    /** `handle` is null when creating the runtime library handle raises.  The outcome is the one the calls' results
        call for, and tells what is registered afterwards: everything, nothing, or whatever is still listed in
        `pinned`. */
    method PinMmapRegion(handle: HostRuntime?, policy: Policy, requested: nat) returns (outcome: Outcome)
      requires ValidPlan(total, stride, requested)
      requires pinned == [] && !isPinned && runtime == null
      requires handle != null ==> Pointers(base, Plan(total, stride, requested)) !! handle.registered
      modifies this`pinned, this`isPinned, this`runtime, handle
      ensures handle != null ==> handle.registered == old(handle.registered) + Pointers(base, pinned)
      ensures Tracks(Pointers(base, pinned)) && (isPinned ==> runtime == handle)
      ensures outcome == Skipped <==> policy == Disabled
      ensures outcome == Pinned ==> pinned == Plan(total, stride, requested) && handle != null
      ensures outcome == Pageable ==> pinned == [] && policy == Auto
      ensures outcome == Skipped || handle == null ==> pinned == []
      ensures handle != null ==> old(handle.log) <= handle.log
      ensures handle != null && policy != Disabled ==> outcome == Verdict(policy, handle.log[|old(handle.log)|..])
      ensures handle == null && policy != Disabled ==> outcome == Failed
    {
      hide Tries, Starts, FirstBad, FirstRefused, LastDrained, FirstDrain, AnyRaised, Plan;
      if policy == Disabled { return Skipped; }
      var status := 2;
      if handle != null { status := RegisterRegion(handle, requested); }
      if status == 0 { return Pinned; }
      var rollbackStatus := 0;
      if isPinned {
        ghost var mark := handle.log;
        rollbackStatus := ReleaseRegion(handle, old(handle.registered));
        LogAppend(mark[|old(handle.log)|..], handle.log[|mark|..]);
        assert handle.log[|old(handle.log)|..] == mark[|old(handle.log)|..] + handle.log[|mark|..];
      }
      if status == 1 && rollbackStatus == 0 && policy == Auto { return Pageable; }
      return Failed;
    }

    /** Shutdown.  The fields are cleared even when chunks could not be released, or when there is no runtime handle to
        release them with; those are reported. */
    method Cleanup() returns (lost: seq<Chunk>)
      requires isPinned <==> pinned != []
      requires Distinct(pinned)
      requires runtime != null ==> Pointers(base, pinned) <= runtime.registered
      modifies this`pinned, this`isPinned, this`runtime, runtime
      ensures pinned == [] && !isPinned && (old(isPinned) ==> runtime == null)
      ensures old(runtime) != null ==>
                old(runtime).registered ==
                    old(runtime.registered) - (Pointers(base, old(pinned)) - Pointers(base, lost))
      ensures forall c <- lost :: c in old(pinned)
      ensures old(runtime) != null ==> lost == Retained(base, old(pinned), old(runtime).registered)
      ensures old(runtime) == null ==> lost == old(pinned)
    {
      lost := [];
      if isPinned {
        if runtime != null {
          var rollback := RollbackHostChunks(runtime, base, pinned);
          lost := rollback.remaining;
        } else {
          lost := pinned;
        }
        pinned := [];
        isPinned := false;
        runtime := null;
      }
    }
  }

  lemma RollbackAccounts(base: int, original: set<int>, was: set<int>, listed: seq<Chunk>, remaining: seq<Chunk>)
    requires was == original + Pointers(base, listed) && original !! Pointers(base, listed)
    requires forall c <- remaining :: c in listed
    ensures was - (Pointers(base, listed) - Pointers(base, remaining)) == original + Pointers(base, remaining)
  {
    assert Pointers(base, remaining) <= Pointers(base, listed);
  }
}
