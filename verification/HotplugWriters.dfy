/** The writers of a VM spec that belong to the CSI controller: declarative add and remove. */
module HotplugWriters {
  import opened Options
  import opened OptimisticStore
  import opened NamedItems
  import opened VirtualMachine
  import opened HotplugProtocol
  import opened HostMachine

  /**
   * What one read-compute-write call amounts to on the server: it read `seen`, its request met
   * `current`, and the object is now `vm`.  Nobody touched the watched volume in between.
   */
  ghost predicate OneWrite(op: Op, watched: string, was: VM, seen: VM, current: VM, vm: VM) {
    && Later(was, seen) && Later(seen, current)
    && SameFor(seen.content, was.content, {watched}) && SameFor(current.content, seen.content, {watched})
    && (vm == current || vm == Deliver(Serve, op, seen, current))
  }

  /** The call is done: the read showed nothing to do, or the operation ran atomically on `current`. */
  ghost predicate Performed(op: Op, seen: VM, current: VM, vm: VM) {
    || (!Sends(op, seen.content) && vm == current)
    || (vm == Commit(current, Effect(op, current.content)) && Sends(op, current.content) && Patchable(op, current.content))
  }

  lemma DeliveredIsPerformed(op: Op, seen: VM, current: VM)
    requires Later(seen, current)
    requires Serve(op, seen, current).Some?
    ensures Performed(op, seen, current, Deliver(Serve, op, seen, current))
  {
    ServeIsGuarded();
    ServeIsEffect(op, current);
  }

  method ContainsName<B>(items: seq<Item<B>>, id: string) returns (found: bool)
    ensures found <==> exists i :: 0 <= i < |items| && items[i].name == id
  {
    found := false;
    for i := 0 to |items|
      invariant !found
      invariant forall j :: 0 <= j < i ==> items[j].name != id
    {
      if items[i].name == id {
        return true;
      }
    }
  }

  method DropNames<B>(items: seq<Item<B>>, names: set<string>) returns (kept: seq<Item<B>>)
    ensures kept == Without(items, names)
  {
    kept := [];
    for i := 0 to |items|
      invariant kept == Without(items[..i], names)
    {
      assert items[..i + 1][..i] == items[..i];
      if items[i].name !in names {
        kept := kept + [items[i]];
      }
    }
    assert items[..|items|] == items;
  }

  /** The patch that adds what is missing; None if nothing is. */
  method BuildAdd(vm: VM, id: string) returns (patch: Option<seq<PatchOp>>)
    ensures patch == Request(Add(id), vm)
  {
    var volumeExists := ContainsName(Volumes(vm.content), id);
    var diskExists := ContainsName(Disks(vm.content), id);
    if volumeExists && diskExists {
      return None;
    }
    var ops := [TestVersion(vm.version)];
    if !volumeExists {
      ops := ops + [AppendVolume(HotplugVolume(id))];
    }
    if !diskExists {
      ops := ops + [AppendDisk(HotplugDisk(id))];
    }
    assert ops == Request(Add(id), vm).value;
    patch := Some(ops);
  }

  lemma ServedAddIsThere(id: string, was: VM, current: VM, vm: VM)
    requires SameFor(current.content, was.content, {id})
    requires vm == Commit(current, Effect(Add(id), current.content))
    ensures InSpec(vm, id) && AddedOver(was, vm, id)
  {
    EntriesSame(current, was, id);
    AddedEntries(id, current.content);
    AddIsThere(id, current.content);
  }

  lemma PerformedAddIsThere(id: string, was: VM, seen: VM, current: VM, vm: VM)
    requires Performed(Add(id), seen, current, vm)
    requires SameFor(seen.content, was.content, {id}) && SameFor(current.content, seen.content, {id})
    ensures InSpec(vm, id) && AddedOver(was, vm, id)
  {
    EntriesSame(seen, was, id);
    EntriesSame(current, seen, id);
    if vm == Commit(current, Effect(Add(id), current.content)) {
      ServedAddIsThere(id, was, current, vm);
    }
  }

  /** Declaratively adds a volume and its disk to the VM spec. */
  method AddVolumeToVM(host: HostVM, id: string) returns (ok: bool, ghost seen: VM, ghost current: VM)
    modifies host
    ensures OneWrite(Add(id), host.watched, old(host.vm), seen, current, host.vm)
    ensures Drift(host.present, host.watched, old(host.vm), old(host.vmi), current, host.vmi)
    ensures ok ==> host.present && Performed(Add(id), seen, current, host.vm)
    ensures ok && id == host.watched ==> InSpec(host.vm, id) && AddedOver(old(host.vm), host.vm, id)
    ensures !host.faulty ==>
      (ok <==> host.present && (!Sends(Add(id), seen.content) || (seen == current && Patchable(Add(id), seen.content))))
    ensures host.quiet ==> seen == current == old(host.vm)
    ensures host.prompt && old(host.vmi).Some? ==> host.vmi.Some?
    ensures old(host.requests) <= host.requests <= old(host.requests) + 1
  {
    var reply := host.Get();
    seen, current := host.vm, host.vm;
    if reply.Err? {
      return false, seen, current;
    }
    var vm := reply.value;
    var ops := BuildAdd(vm, id);
    if ops.None? {
      if id == host.watched {
        PerformedAddIsThere(id, old(host.vm), seen, current, host.vm);
      }
      return true, seen, current;
    }
    ghost var status := host.vmi;
    ok, current := host.Patch(ops.value);
    DriftAgain(host.present, host.watched, old(host.vm), old(host.vmi), seen, status, current, host.vmi);
    if ok {
      DeliveredIsPerformed(Add(id), seen, current);
      if id == host.watched {
        PerformedAddIsThere(id, old(host.vm), seen, current, host.vm);
      }
    }
    ServeIsEffect(Add(id), current);
  }

  /** Declaratively removes a volume and its disk from the VM spec. */
  method RemoveVolumeFromVM(host: HostVM, id: string) returns (ok: bool, ghost seen: VM, ghost current: VM)
    modifies host
    ensures OneWrite(Remove(id), host.watched, old(host.vm), seen, current, host.vm)
    ensures Drift(host.present, host.watched, old(host.vm), old(host.vmi), current, host.vmi)
    ensures ok ==> host.present && Performed(Remove(id), seen, current, host.vm) && host.requests == old(host.requests) + 1
    ensures !host.faulty ==>
      (ok <==> host.present && (!Sends(Remove(id), seen.content) || (seen == current && Patchable(Remove(id), seen.content))))
    ensures host.quiet ==> seen == current == old(host.vm)
    ensures old(host.requests) <= host.requests <= old(host.requests) + 1
  {
    var reply := host.Get();
    seen, current := host.vm, host.vm;
    if reply.Err? {
      return false, seen, current;
    }
    var vm := reply.value;
    var volumes := DropNames(Volumes(vm.content), {id});
    var disks := DropNames(Disks(vm.content), {id});
    var ops := [TestVersion(vm.version), ReplaceVolumes(volumes), ReplaceDisks(disks)];
    ghost var status := host.vmi;
    ok, current := host.Patch(ops);
    DriftAgain(host.present, host.watched, old(host.vm), old(host.vmi), seen, status, current, host.vmi);
    if ok {
      DeliveredIsPerformed(Remove(id), seen, current);
    }
    ServeIsEffect(Remove(id), current);
  }
}
