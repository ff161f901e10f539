/**
 * One virtual machine of the host cluster behind the API server: its VirtualMachine object, the status
 * of its running instance, and everybody else who changes them between two calls of the driver.
 */
module HostMachine {
  import opened Options
  import opened OptimisticStore
  import opened NamedItems
  import opened VirtualMachine
  import opened HotplugProtocol

  datatype Failure = NotFound | Unavailable

  datatype Result<+T> = Ok(value: T) | Err(failure: Failure)

  /** Volume status of an instance; the body says whether the entry is a hot-plugged volume. */
  type Instance = Option<seq<Item<bool>>>

  predicate StatusHas(statuses: seq<Item<bool>>, id: string)
    ensures StatusHas(statuses, id) <==> exists i :: 0 <= i < |statuses| && statuses[i].name == id && statuses[i].body
  {
    statuses != [] && ((statuses[|statuses| - 1].name == id && statuses[|statuses| - 1].body)
                       || StatusHas(statuses[..|statuses| - 1], id))
  }

  lemma {:induction false} StatusWithout(statuses: seq<Item<bool>>, names: set<string>, id: string)
    ensures StatusHas(Without(statuses, names), id) ==> StatusHas(statuses, id)
  {
    if statuses != [] {
      StatusWithout(statuses[..|statuses| - 1], names, id);
    }
  }

  predicate InInstance(vmi: Instance, id: string) { vmi.Some? && StatusHas(vmi.value, id) }

  predicate InSpec(vm: VM, id: string) { Has(Volumes(vm.content), id) }

  /** The spec has the volume as a hot-pluggable claim of that name. */
  predicate HotplugEntry(vm: VM, id: string) { Item(id, Claim(id, true)) in Volumes(vm.content) }

  predicate ScsiEntry(vm: VM, id: string) { Item(id, DiskTarget("scsi")) in Disks(vm.content) }

  /** What is there of the volume now was there before, or is what an add puts there. */
  predicate AddedOver(was: VM, vm: VM, id: string) {
    && (InSpec(was, id) || HotplugEntry(vm, id))
    && (Has(Disks(was.content), id) || ScsiEntry(vm, id))
  }

  lemma EntriesSame(a: VM, b: VM, id: string)
    requires SameFor(a.content, b.content, {id})
    ensures HotplugEntry(a, id) == HotplugEntry(b, id) && ScsiEntry(a, id) == ScsiEntry(b, id)
    ensures InSpec(a, id) == InSpec(b, id) && Has(Disks(a.content), id) == Has(Disks(b.content), id)
  {
    InOnly(Volumes(a.content), Item(id, Claim(id, true)), {id});
    InOnly(Volumes(b.content), Item(id, Claim(id, true)), {id});
    InOnly(Disks(a.content), Item(id, DiskTarget("scsi")), {id});
    InOnly(Disks(b.content), Item(id, DiskTarget("scsi")), {id});
    SameForSame(a.content, b.content, id);
  }

  /** The volume is in the spec of an existing machine. */
  predicate OnMachine(present: bool, vm: VM, id: string) { present && InSpec(vm, id) }

  /** The instance gains a volume only from the spec, and loses only one missing from the spec. */
  predicate InstanceFollows(present: bool, vm: VM, vmi: Instance, next: Instance, id: string) {
    InInstance(vmi, id) != InInstance(next, id) ==> InInstance(next, id) == OnMachine(present, vm, id)
  }

  /** The instance is there and has the volume exactly when the machine has. */
  predicate InLine(present: bool, vm: VM, vmi: Instance, id: string) {
    vmi.Some? && InInstance(vmi, id) == OnMachine(present, vm, id)
  }

  /** What others may do: anything, except to the one watched volume, which only KubeVirt moves. */
  predicate Drift(present: bool, id: string, vm: VM, vmi: Instance, vm': VM, vmi': Instance) {
    && Later(vm, vm')
    && SameFor(vm'.content, vm.content, {id})
    && InstanceFollows(present, vm, vmi, vmi', id)
  }

  lemma DriftIsSame(present: bool, id: string, vm: VM, vmi: Instance, vm': VM, vmi': Instance)
    requires Drift(present, id, vm, vmi, vm', vmi')
    ensures InSpec(vm', id) == InSpec(vm, id)
  {
    SameForSame(vm'.content, vm.content, id);
  }

  lemma DriftAgain(present: bool, id: string, vm: VM, vmi: Instance, vm': VM, vmi': Instance, vm'': VM, vmi'': Instance)
    requires Drift(present, id, vm, vmi, vm', vmi')
    requires Drift(present, id, vm', vmi', vm'', vmi'')
    ensures Drift(present, id, vm, vmi, vm'', vmi'')
    ensures InSpec(vm'', id) == InSpec(vm', id) == InSpec(vm, id)
  {
    SameForSame(vm'.content, vm.content, id);
    SameForSame(vm''.content, vm'.content, id);
  }

  class HostVM {
    const present: bool      // the VirtualMachine object is there
    const faulty: bool       // calls may fail, or be served and their reply lost
    const hostNode: string   // the host node its instance runs on
    const quiet: bool        // for a while, nobody but the driver writes the VirtualMachine
    const prompt: bool       // KubeVirt has the instance in line whenever it is looked at
    const steady: bool       // for a while, no instance starts or stops
    const watched: string    // the volume nobody but the driver and KubeVirt touches
    var vm: VM
    var vmi: Instance
    var requests: nat        // write requests issued so far

    constructor (present: bool, faulty: bool, hostNode: string, quiet: bool, prompt: bool, steady: bool, watched: string,
                 vm: VM, vmi: Instance)
      ensures this.present == present && this.faulty == faulty && this.hostNode == hostNode
      ensures this.quiet == quiet && this.prompt == prompt && this.steady == steady && this.watched == watched
      ensures this.vm == vm && this.vmi == vmi && requests == 0
    {
      this.present, this.faulty, this.hostNode := present, faulty, hostNode;
      this.quiet, this.prompt, this.steady, this.watched := quiet, prompt, steady, watched;
      this.vm, this.vmi, requests := vm, vmi, 0;
    }

    /** Any number of steps of everybody else. */
    method Interfere()
      modifies this`vm, this`vmi
      ensures Drift(present, watched, old(vm), old(vmi), vm, vmi)
      ensures quiet ==> vm == old(vm)
      ensures prompt && old(vmi).Some? ==> InLine(present, vm, vmi, watched)
      ensures steady ==> vmi.Some? == old(vmi).Some?
    {
      var m: VM := *;
      var i: Instance := *;
      if Drift(present, watched, vm, vmi, m, i) && (quiet ==> m == vm) && (prompt && vmi.Some? ==> i.Some?)
         && (steady ==> i.Some? == vmi.Some?) {
        vm, vmi := m, i;
      }
      if prompt {
        DriftIsSame(present, watched, old(vm), old(vmi), vm, vmi);
        Reconcile();
      }
    }

    method Get() returns (r: Result<VM>)
      modifies this`vm, this`vmi
      ensures Drift(present, watched, old(vm), old(vmi), vm, vmi)
      ensures quiet ==> vm == old(vm)
      ensures prompt && old(vmi).Some? ==> InLine(present, vm, vmi, watched)
      ensures steady ==> vmi.Some? == old(vmi).Some?
      ensures r.Ok? ==> present && r.value == vm
      ensures r == Err(NotFound) ==> !present
      ensures !faulty ==> r == if present then Ok(vm) else Err(NotFound)
    {
      Interfere();
      var unserved: bool := *;
      if faulty && unserved {
        return Err(Unavailable);
      }
      r := if present then Ok(vm) else Err(NotFound);
    }

    method GetInstance() returns (r: Result<seq<Item<bool>>>)
      modifies this`vm, this`vmi
      ensures Drift(present, watched, old(vm), old(vmi), vm, vmi)
      ensures quiet ==> vm == old(vm)
      ensures prompt && old(vmi).Some? ==> InLine(present, vm, vmi, watched)
      ensures steady ==> vmi.Some? == old(vmi).Some?
      ensures r.Ok? ==> vmi == Some(r.value)
      ensures r == Err(NotFound) ==> vmi.None?
      ensures !faulty ==> r == if vmi.Some? then Ok(vmi.value) else Err(NotFound)
    {
      Interfere();
      var unserved: bool := *;
      if faulty && unserved {
        return Err(Unavailable);
      }
      r := if vmi.Some? then Ok(vmi.value) else Err(NotFound);
    }

    /** A JSON patch; `current` is the object the server applied it to. */
    method Patch(ops: seq<PatchOp>) returns (ok: bool, ghost current: VM)
      modifies this
      ensures Drift(present, watched, old(vm), old(vmi), current, vmi)
      ensures quiet ==> current == old(vm)
      ensures prompt && old(vmi).Some? ==> vmi.Some?
      ensures requests == old(requests) + 1
      ensures ok ==> present && ApplyPatch(ops, current).Some? && vm == Commit(current, ApplyPatch(ops, current).value)
      ensures vm == current ||
              (ApplyPatch(ops, current).Some? && vm == Commit(current, ApplyPatch(ops, current).value))
      ensures !present ==> vm == current
      ensures !faulty ==> ok == (present && ApplyPatch(ops, current).Some?)
    {
      requests := requests + 1;
      Interfere();
      current := vm;
      var unserved: bool, lost: bool := *, *;
      if !present || (faulty && unserved) {
        return false, vm;
      }
      match ApplyPatch(ops, vm)
      case None => ok := false;
      case Some(spec) =>
        vm := Commit(vm, spec);
        ok := !(faulty && lost);
    }

    /** The legacy AddVolume call on the VirtualMachine. */
    method AddVolume(id: string) returns (ok: bool)
      modifies this
      ensures requests == old(requests) + 1
      ensures Added(id, present, watched, old(vm), old(vmi), vm, vmi) || Drift(present, watched, old(vm), old(vmi), vm, vmi)
      ensures !faulty ==> ok == present
      ensures prompt && old(vmi).Some? ==> vmi.Some?
      ensures ok ==> present && Added(id, present, watched, old(vm), old(vmi), vm, vmi)
    {
      requests := requests + 1;
      Interfere();
      var unserved: bool, lost: bool := *, *;
      if !present || (faulty && unserved) {
        return false;
      }
      ghost var current := vm;
      vm := Commit(vm, Effect(Add(id), vm.content));
      ok := !(faulty && lost);
      assert Drift(present, watched, old(vm), old(vmi), current, vmi) && vm == Commit(current, Effect(Add(id), current.content));
    }

    /** The legacy RemoveVolume call on the VirtualMachine: drops the named volume and its disk. */
    method RemoveVolume(id: string) returns (ok: bool, ghost current: VM)
      modifies this
      ensures requests == old(requests) + 1
      ensures Drift(present, watched, old(vm), old(vmi), current, vmi)
      ensures quiet ==> current == old(vm)
      ensures vm == current || vm == Commit(current, WithoutNames(current.content, {id}))
      ensures ok ==> present && vm == Commit(current, WithoutNames(current.content, {id}))
      ensures !present ==> vm == current
      ensures steady ==> vmi.Some? == old(vmi).Some?
      ensures !faulty ==> ok == present
    {
      requests := requests + 1;
      Interfere();
      current := vm;
      var unserved: bool, lost: bool := *, *;
      if !present || (faulty && unserved) {
        return false, vm;
      }
      vm := Commit(vm, WithoutNames(vm.content, {id}));
      ok := !(faulty && lost);
    }

    /** KubeVirt brings the instance in line with the spec. */
    method Reconcile()
      modifies this`vmi
      ensures InstanceFollows(present, vm, old(vmi), vmi, watched)
      ensures InInstance(vmi, watched) == (vmi.Some? && OnMachine(present, vm, watched))
      ensures vmi.Some? == old(vmi.Some?)
    {
      if vmi.Some? {
        var others := Without(vmi.value, {watched});
        HasWithout(vmi.value, {watched}, watched);
        var status := if OnMachine(present, vm, watched) then others + [Item(watched, true)] else others;
        assert OnMachine(present, vm, watched) ==> status[|others|] == Item(watched, true);
        vmi := Some(status);
      }
    }

    /** The legacy RemoveVolume call on the running instance, which detaches at some later time. */
    method RemoveInstanceVolume(id: string) returns (ok: bool)
      modifies this
      ensures requests == old(requests) + 1
      ensures Later(old(vm), vm) && SameFor(vm.content, old(vm).content, {watched})
      ensures !faulty ==> ok == vmi.Some?
      ensures steady ==> vmi.Some? == old(vmi).Some?
      ensures InInstance(vmi, watched) ==> InInstance(old(vmi), watched) || OnMachine(present, old(vm), watched)
      ensures OnMachine(present, old(vm), watched) && InInstance(old(vmi), watched) ==> vmi.Some?
    {
      requests := requests + 1;
      Interfere();
      var served: bool, detached: bool := *, *;
      ok := (!faulty || served) && vmi.Some?;
      if vmi.Some? && detached {
        StatusWithout(vmi.value, {id}, watched);
        vmi := Some(Without(vmi.value, {id}));
      }
    }
  }

  /** An add was served at some point between two states. */
  ghost predicate Added(id: string, present: bool, watched: string, vm: VM, vmi: Instance, vm': VM, vmi': Instance) {
    exists current: VM ::
      Drift(present, watched, vm, vmi, current, vmi') && vm' == Commit(current, Effect(Add(id), current.content))
  }
}
