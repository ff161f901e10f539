/**
 * Attaching a volume to a guest node and detaching it: ControllerPublishVolume for RWO volumes and
 * ControllerUnpublishVolume for volumes that are not Longhorn RWX.
 */
module Attach {
  import opened OptimisticStore
  import opened VirtualMachine
  import opened HotplugProtocol
  import opened HostMachine
  import opened HotplugWriters
  import opened Replies

  method CheckVolumeExistsInVM(host: HostVM, id: string) returns (r: Result<bool>)
    modifies host`vm, host`vmi
    ensures Drift(host.present, host.watched, old(host.vm), old(host.vmi), host.vm, host.vmi)
    ensures host.quiet ==> host.vm == old(host.vm)
    ensures host.prompt && old(host.vmi).Some? ==> InLine(host.present, host.vm, host.vmi, host.watched)
    ensures host.steady ==> host.vmi.Some? == old(host.vmi).Some?
    ensures r.Ok? ==> r.value == OnMachine(host.present, host.vm, id)
    ensures !host.faulty ==> r.Ok?
  {
    var reply := host.Get();
    match reply
    case Err(NotFound) => r := Ok(false);
    case Err(Unavailable) => r := Err(Unavailable);
    case Ok(vm) =>
      var found := ContainsName(Volumes(vm.content), id);
      r := Ok(found);
  }

  method CheckVolumeExistsInVMI(host: HostVM, id: string) returns (r: Result<bool>)
    modifies host`vm, host`vmi
    ensures Drift(host.present, host.watched, old(host.vm), old(host.vmi), host.vm, host.vmi)
    ensures host.quiet ==> host.vm == old(host.vm)
    ensures host.prompt && old(host.vmi).Some? ==> InLine(host.present, host.vm, host.vmi, host.watched)
    ensures host.steady ==> host.vmi.Some? == old(host.vmi).Some?
    ensures r.Ok? ==> r.value == InInstance(host.vmi, id)
    ensures !host.faulty ==> r.Ok?
  {
    var reply := host.GetInstance();
    match reply
    case Err(NotFound) => r := Ok(false);
    case Err(Unavailable) => r := Err(Unavailable);
    case Ok(statuses) =>
      r := Ok(false);
      for i := 0 to |statuses|
        invariant forall j :: 0 <= j < i ==> !(statuses[j].name == id && statuses[j].body)
      {
        if statuses[i].name == id && statuses[i].body {
          return Ok(true);
        }
      }
  }

  /** Both reads agree with the state at the time of the reply, although they are two calls. */
  method IsVolAttached(host: HostVM, id: string) returns (r: Result<bool>)
    modifies host`vm, host`vmi
    ensures Drift(host.present, host.watched, old(host.vm), old(host.vmi), host.vm, host.vmi)
    ensures host.quiet ==> host.vm == old(host.vm)
    ensures host.prompt && old(host.vmi).Some? ==> InLine(host.present, host.vm, host.vmi, host.watched)
    ensures r.Ok? && id == host.watched ==>
      r.value == (OnMachine(host.present, host.vm, id) && InInstance(host.vmi, id))
    ensures !host.faulty ==> r.Ok?
  {
    r := CheckVolumeExistsInVM(host, id);
    ghost var vm, vmi := host.vm, host.vmi;
    if r.Err? {
      return r;
    }
    var inVM := r.value;
    r := CheckVolumeExistsInVMI(host, id);
    DriftAgain(host.present, host.watched, old(host.vm), old(host.vmi), vm, vmi, host.vm, host.vmi);
    if r.Ok? {
      r := Ok(inVM && r.value);
    }
  }

  method HotplugVolumeToVM(host: HostVM, declarative: bool, id: string) returns (ok: bool)
    modifies host
    ensures ok && id == host.watched ==> OnMachine(host.present, host.vm, id) && AddedOver(old(host.vm), host.vm, id)
    ensures host.quiet && !host.faulty && declarative ==>
      (ok <==> host.present && (!Sends(Add(id), old(host.vm).content) || Patchable(Add(id), old(host.vm).content)))
    ensures !declarative ==> host.requests == old(host.requests) + 1 && (!host.faulty ==> ok == host.present)
    ensures host.prompt && old(host.vmi).Some? ==> host.vmi.Some?
  {
    if declarative {
      ghost var seen, current;
      ok, seen, current := AddVolumeToVM(host, id);
    } else {
      ghost var vm, vmi := host.vm, host.vmi;
      ok := host.AddVolume(id);
      if ok {
        ghost var current: VM :| Drift(host.present, host.watched, vm, vmi, current, host.vmi)
                                 && host.vm == Commit(current, Effect(Add(id), current.content));
        AddIsThere(id, current.content);
        if id == host.watched {
          ServedAddIsThere(id, vm, current, host.vm);
        }
      }
    }
  }

  /** The RWO part of a publish call, after the attachments have settled: polls at most `polls` times. */
  method AttachVolume(host: HostVM, declarative: bool, id: string, polls: nat) returns (r: Reply)
    modifies host
    ensures r == OK && id == host.watched ==> OnMachine(host.present, host.vm, id) && InInstance(host.vmi, id)
    // What was not there is added hot-pluggable.
    ensures r == OK && id == host.watched && !InSpec(old(host.vm), id) ==> HotplugEntry(host.vm, id)
    ensures r in {OK, Internal, Aborted}
    // A volume already attached is answered at once; one that is not gets into the spec.
    ensures !host.faulty && id == host.watched && OnMachine(host.present, old(host.vm), id) && InInstance(old(host.vmi), id) ==>
      r == OK && host.requests == old(host.requests)
    ensures !host.faulty && host.quiet && declarative && host.present && id == host.watched
            && Patchable(Add(id), old(host.vm).content) ==>
      r != Internal && InSpec(host.vm, id)
    ensures !host.faulty && !declarative && id == host.watched && host.present ==> r != Internal && InSpec(host.vm, id)
    // With KubeVirt prompt the call succeeds.
    ensures (&& !host.faulty && host.present && id == host.watched && host.prompt && old(host.vmi).Some? && polls > 0
             && (declarative ==> host.quiet && Patchable(Add(id), old(host.vm).content))) ==> r == OK
    ensures !host.faulty && id == host.watched && polls > 0 && r == Aborted ==> !InInstance(host.vmi, id)
    // A machine that is missing, or whose patch is refused, is an error.
    ensures !host.faulty && id == host.watched && !host.present ==> r == Internal
    ensures (&& !host.faulty && host.quiet && declarative && id == host.watched
             && !InSpec(old(host.vm), id) && !Patchable(Add(id), old(host.vm).content)) ==> r == Internal
  {
    var attached := IsVolAttached(host, id);
    DriftIsSame(host.present, host.watched, old(host.vm), old(host.vmi), host.vm, host.vmi);
    if attached.Err? {
      return Internal;
    }
    if attached.value {
      return OK;
    }
    ghost var before := host.vm;
    var added := HotplugVolumeToVM(host, declarative, id);
    if !added {
      return Internal;
    }
    for i := 0 to polls
      invariant id == host.watched ==> OnMachine(host.present, host.vm, id)
      invariant id == host.watched && !InSpec(before, id) ==> HotplugEntry(host.vm, id)
      invariant host.prompt && old(host.vmi).Some? ==> host.vmi.Some?
      invariant host.prompt && old(host.vmi).Some? && !host.faulty && id == host.watched ==> i == 0
      invariant !host.faulty && id == host.watched && i > 0 ==> !InInstance(host.vmi, id)
    {
      ghost var vm, vmi := host.vm, host.vmi;
      attached := IsVolAttached(host, id);
      EntriesSame(host.vm, vm, host.watched);
      DriftIsSame(host.present, host.watched, vm, vmi, host.vm, host.vmi);
      if attached.Ok? && attached.value {
        return OK;
      }
    }
    return Aborted;
  }

  /** What is left to do before an unpublish can answer OK: take the volume out of the spec, then out of the instance. */
  function Remaining(present: bool, vm: VM, vmi: Instance, id: string): nat {
    if OnMachine(present, vm, id) then 2 else if InInstance(vmi, id) then 1 else 0
  }

  /** A removal goes to the spec: it is a patch, or no instance runs. */
  predicate Removes(declarative: bool, steady: bool, vmi: Instance) { declarative || (steady && vmi.None?) }

  /** A legacy removal goes to the running instance, which gets the volume back from the spec. */
  predicate Stuck(declarative: bool, present: bool, vm: VM, vmi: Instance, id: string) {
    !declarative && OnMachine(present, vm, id) && InInstance(vmi, id)
  }

  /** Sends the removal of a volume that was found on the machine or in its instance. */
  method UnplugVolumeFromVM(host: HostVM, declarative: bool, id: string, inVMI: bool) returns (sent: bool)
    modifies host
    ensures old(host.requests) <= host.requests <= old(host.requests) + 1 && (sent ==> host.requests > old(host.requests))
    ensures id == host.watched ==>
      && ((declarative || !inVMI) && sent ==> !OnMachine(host.present, host.vm, id))
      && Remaining(host.present, host.vm, host.vmi, id) <= Remaining(host.present, old(host.vm), old(host.vmi), id)
    ensures host.steady && !declarative ==> host.vmi.Some? == old(host.vmi).Some?
    ensures !declarative ==> host.requests == old(host.requests) + 1
    ensures !declarative && !host.faulty ==> sent == if inVMI then host.vmi.Some? else host.present
    // The legacy form asks the instance first and leaves the spec as it is.
    ensures id == host.watched && !declarative && inVMI ==>
      && InSpec(host.vm, id) == InSpec(old(host.vm), id)
      && (OnMachine(host.present, old(host.vm), id) && InInstance(old(host.vmi), id) ==> host.vmi.Some?)
    ensures host.quiet && declarative && !Patchable(Remove(id), old(host.vm).content) ==> host.vm == old(host.vm)
    ensures host.quiet && !host.faulty && host.present && id == host.watched && declarative
            && Patchable(Remove(id), old(host.vm).content) ==>
      sent && !InSpec(host.vm, id) && Patchable(Remove(id), host.vm.content)
  {
    if declarative {
      ghost var seen, current;
      sent, seen, current := RemoveVolumeFromVM(host, id);
      DriftIsSame(host.present, host.watched, old(host.vm), old(host.vmi), current, host.vmi);
      ServeIsGuarded();
      RemovalClears(current.content, {id}, id);
      ServeIsEffect(Remove(id), current);
    } else if inVMI {
      sent := host.RemoveInstanceVolume(id);
      SameForSame(host.vm.content, old(host.vm).content, host.watched);
    } else {
      ghost var current;
      sent, current := host.RemoveVolume(id);
      DriftIsSame(host.present, host.watched, old(host.vm), old(host.vmi), current, host.vmi);
      RemovalClears(current.content, {id}, id);
    }
  }

  /** Whether a removal request went out, or why none did. */
  method RemoveVolumeFromHostVM(host: HostVM, declarative: bool, id: string) returns (r: Result<bool>)
    modifies host
    ensures r.Ok? ==> r.value == (host.requests > old(host.requests))
    ensures host.steady && !declarative ==> host.vmi.Some? == old(host.vmi).Some?
    ensures old(host.requests) <= host.requests <= old(host.requests) + 1
    ensures host.quiet && declarative && !Patchable(Remove(id), old(host.vm).content) ==> host.vm == old(host.vm)
    // A volume in the spec is asked to go, unless a call fails.
    ensures !host.faulty && !declarative && id == host.watched && OnMachine(host.present, old(host.vm), id) ==> r == Ok(true)
    ensures r == Ok(false) && id == host.watched ==>
      !OnMachine(host.present, host.vm, id) && !InInstance(host.vmi, id)
    ensures id == host.watched && OnMachine(host.present, old(host.vm), id) ==> r != Ok(false)
    ensures !host.faulty && id == host.watched && !OnMachine(host.present, old(host.vm), id) && !InInstance(old(host.vmi), id) ==>
      r == Ok(false)
    // What a call leaves, whatever fails: a sent removal took the volume out of the spec, it does not come
    // back, and a volume gone from spec and instance stays gone and is answered so.
    ensures id == host.watched ==>
      && (Removes(declarative, host.steady, old(host.vmi)) && r == Ok(true) ==> !OnMachine(host.present, host.vm, id))
      && (Stuck(declarative, host.present, old(host.vm), old(host.vmi), id) ==>
            OnMachine(host.present, host.vm, id) && host.vmi.Some?)
      && Remaining(host.present, host.vm, host.vmi, id) <= Remaining(host.present, old(host.vm), old(host.vmi), id)
      && (Remaining(host.present, old(host.vm), old(host.vmi), id) == 0 && r.Ok? ==> r == Ok(false))
    ensures host.quiet && !host.faulty && host.present && id == host.watched && declarative
            && Patchable(Remove(id), old(host.vm).content) ==>
      && r.Ok?
      && !InSpec(host.vm, id)
      && Patchable(Remove(id), host.vm.content)
      && (!InSpec(old(host.vm), id) && !InInstance(old(host.vmi), id) ==> r == Ok(false))
  {
    r := CheckVolumeExistsInVMI(host, id);
    DriftIsSame(host.present, host.watched, old(host.vm), old(host.vmi), host.vm, host.vmi);
    if r.Err? {
      return r;
    }
    var inVMI := r.value;
    ghost var vm, vmi := host.vm, host.vmi;
    r := CheckVolumeExistsInVM(host, id);
    DriftAgain(host.present, host.watched, old(host.vm), old(host.vmi), vm, vmi, host.vm, host.vmi);
    if r.Err? {
      return r;
    }
    var inVM := r.value;
    if !inVM && !inVMI {
      return Ok(false);
    }
    var sent := UnplugVolumeFromVM(host, declarative, id, inVMI);
    r := if sent then Ok(true) else Err(Unavailable);
  }

  method UnpublishVolume(host: HostVM, declarative: bool, id: string) returns (r: Reply)
    modifies host
    ensures r in {OK, Internal, Aborted}
    // OK means gone, from the spec and from the instance, when the reply is given.
    ensures r == OK && id == host.watched ==>
      !OnMachine(host.present, host.vm, id) && !InInstance(host.vmi, id)
    // A call that sends a removal, or starts with the volume in the spec, never answers OK.
    ensures r == OK ==> host.requests == old(host.requests)
    ensures r == Aborted ==> host.requests == old(host.requests) + 1
    ensures host.steady && !declarative ==> host.vmi.Some? == old(host.vmi).Some?
    ensures host.requests <= old(host.requests) + 1
    ensures id == host.watched && OnMachine(host.present, old(host.vm), id) ==> r != OK
    ensures !host.faulty && id == host.watched && !OnMachine(host.present, old(host.vm), id) && !InInstance(old(host.vmi), id) ==>
      r == OK
    ensures !host.faulty && !declarative && id == host.watched && OnMachine(host.present, old(host.vm), id) ==> r == Aborted
    ensures id == host.watched ==>
      && (Removes(declarative, host.steady, old(host.vmi)) && r == Aborted ==> !OnMachine(host.present, host.vm, id))
      && (Stuck(declarative, host.present, old(host.vm), old(host.vmi), id) ==>
            OnMachine(host.present, host.vm, id) && host.vmi.Some?)
      && Remaining(host.present, host.vm, host.vmi, id) <= Remaining(host.present, old(host.vm), old(host.vmi), id)
      && (Remaining(host.present, old(host.vm), old(host.vmi), id) == 0 ==> r != Aborted)
    ensures host.quiet && !host.faulty && host.present && id == host.watched && declarative
            && Patchable(Remove(id), old(host.vm).content) ==>
      && r != Internal
      && !InSpec(host.vm, id)
      && Patchable(Remove(id), host.vm.content)
      && (!InSpec(old(host.vm), id) && !InInstance(old(host.vmi), id) ==> r == OK)
    // Without both arrays the removal is refused and, the volume being in the spec, no retry ever succeeds.
    ensures host.quiet && declarative && !Patchable(Remove(id), old(host.vm).content) ==> host.vm == old(host.vm)
  {
    var removing := RemoveVolumeFromHostVM(host, declarative, id);
    match removing
    case Err(_) => r := Internal;
    case Ok(true) => r := Aborted;
    case Ok(false) => r := OK;
  }

  /** KubeVirt reconciles and the caller calls once more: the call fails, answers OK with nothing left, or gets
      closer, unless it goes to an instance that has the volume from the spec. */
  method RetryRound(host: HostVM, declarative: bool, id: string) returns (r: Reply)
    requires id == host.watched
    modifies host
    ensures r in {OK, Internal, Aborted}
    ensures Remaining(host.present, host.vm, host.vmi, id) <= Remaining(host.present, old(host.vm), old(host.vmi), id)
    ensures r == OK ==> Remaining(host.present, host.vm, host.vmi, id) == 0
    ensures r == Aborted && Removes(declarative, host.steady, old(host.vmi)) ==>
      Remaining(host.present, host.vm, host.vmi, id) < Remaining(host.present, old(host.vm), old(host.vmi), id) == 2
    ensures r == Aborted ==> OnMachine(host.present, old(host.vm), id)
    ensures !declarative && OnMachine(host.present, old(host.vm), id) && old(host.vmi).Some? ==>
      r != OK && OnMachine(host.present, host.vm, id) && host.vmi.Some?
    ensures host.steady && !declarative ==> host.vmi.Some? == old(host.vmi).Some?
    ensures host.requests <= old(host.requests) + 1
  {
    host.Reconcile();
    r := UnpublishVolume(host, declarative, id);
  }

  /**
   * The caller retries, KubeVirt reconciles in between, every API call may fail, and others write the machine.
   * OK means the volume is gone from spec and instance.  The second call that does not fail is OK at the latest,
   * except that legacy removals of a volume in the spec of a machine with a running instance never end.
   */
  method RetryUnpublish(host: HostVM, declarative: bool, id: string, rounds: nat) returns (r: Reply, calls: nat, failed: nat)
    requires id == host.watched
    modifies host
    ensures calls <= rounds && failed <= calls && (r != OK ==> calls == rounds)
    ensures r == OK ==> !OnMachine(host.present, host.vm, id) && !InInstance(host.vmi, id)
    ensures Removes(declarative, host.steady, old(host.vmi)) || !OnMachine(host.present, old(host.vm), id) ==>
      (failed + 2 <= rounds ==> r == OK && calls <= failed + 2) && (r != OK ==> rounds <= failed + 1)
    ensures !declarative && OnMachine(host.present, old(host.vm), id) && old(host.vmi).Some? ==>
      r != OK && OnMachine(host.present, host.vm, id)
    // While no instance starts or stops, that is exactly when retries end.
    ensures host.steady && failed + 2 <= rounds ==>
      (r == OK <==> declarative || !OnMachine(host.present, old(host.vm), id) || old(host.vmi).None?)
  {
    r, calls, failed := Internal, 0, 0;
    ghost var ends := Removes(declarative, host.steady, host.vmi) || !OnMachine(host.present, host.vm, id);
    ghost var stuck := !declarative && OnMachine(host.present, host.vm, id) && host.vmi.Some?;
    while calls < rounds && r != OK
      invariant failed <= calls <= rounds
      invariant r == OK ==> Remaining(host.present, host.vm, host.vmi, id) == 0
      invariant ends ==> Removes(declarative, host.steady, host.vmi) || !OnMachine(host.present, host.vm, id)
      invariant ends && r == OK ==> calls <= failed + 2
      invariant ends && r != OK ==> calls <= failed + if Remaining(host.present, host.vm, host.vmi, id) == 2 then 0 else 1
      invariant stuck ==> r != OK && OnMachine(host.present, host.vm, id) && host.vmi.Some?
    {
      r := RetryRound(host, declarative, id);
      calls := calls + 1;
      if r == Internal {
        failed := failed + 1;
      }
    }
  }
}
