/** The publish and unpublish calls as a whole: which of the two mechanisms a volume gets, and whole runs of the
    driver's calls. */
module Controller {
  import opened Options
  import opened VirtualMachine
  import opened HostMachine
  import opened Attach
  import opened Exclusivity
  import opened HostCluster
  import opened VolumeLifecycle
  import opened SharedVolumes
  import opened Replies

  /** `seen` is the state the claim is read in, `read` the one the NetworkFilesystem of a shared volume is. */
  method ControllerPublishVolume(c: Cluster, host: HostVM, lists: AttachmentLists, declarative: bool,
                                 id: string, node: string, multiNode: bool, settlePolls: nat, attachPolls: nat)
    returns (r: Reply, ghost listed: bool, ghost seen: State, ghost read: State)
    modifies c`st, c`alwaysOwned, c`wanted, host, lists`hostSide
    ensures old(c.wanted) <= c.wanted
    ensures node == "" ==> r == InvalidArgument && c.st == old(c.st)
    ensures old(c.Sound()) && (multiNode ==> !Restored(old(c.st), id)) ==> c.Sound()
    // The claim decides first.
    ensures node != "" ==> EnvMoves(old(c.st), seen) && (read == seen || EnvMoves(seen, read))
    ensures r == OK ==> id in seen.pvcs && seen.pvcs[id].bound
    ensures !c.faulty && node != "" ==>
      && (id !in seen.pvcs ==> r == Internal)
      && (id in seen.pvcs && !seen.pvcs[id].bound ==> r == Aborted)
    // With a multi-node capability a shared Longhorn volume is switched on and no machine is touched.
    ensures multiNode ==> host.vm == old(host.vm) && host.vmi == old(host.vmi) && host.requests == old(host.requests)
    ensures multiNode && r == OK && IsLHRWX(seen.pvcs[id]) ==> SwitchedOn(read, c.st, seen.pvcs[id].volumeName)
    ensures multiNode && !c.faulty && c.still && node != "" ==> (r == OK <==> Shared(old(c.st), id))
    // A volume goes to a machine only with a single-node capability.
    ensures !multiNode && r == OK && id == host.watched ==>
      && OnMachine(host.present, host.vm, id) && InInstance(host.vmi, id)
      && (InSpec(old(host.vm), id) || HotplugEntry(host.vm, id))
    ensures !multiNode && r == OK && listed && Mine(old(c.st), id) && !old(c.st).pvcs[id].filesystem ==>
      NoOther(Attached(lists.guestSide), id, node) && OnlyOn(lists.hostSide, seen.pvcs[id].volumeName, host.hostNode)
    ensures !multiNode ==> c.st == old(c.st) || EnvMoves(old(c.st), c.st)
    ensures !multiNode && Mine(old(c.st), id) ==> Mine(c.st, id) && PvcMoves(old(c.st).pvcs[id], c.st.pvcs[id])
    ensures !multiNode && r == OK ==> id in c.st.pvcs && c.st.pvcs[id].bound
    // With calls answered, a bound volume gets to any machine that can take it.
    ensures (&& !c.faulty && !multiNode && node != "" && settlePolls > 0
             && Mine(old(c.st), id) && old(c.st).pvcs[id].bound && old(c.st).pvcs[id].volumeName != ""
             && old(Attachable(host, declarative, id, attachPolls))
             && (!old(c.st).pvcs[id].filesystem ==> Clear(lists.faulty, lists.listable, lists.still))
             && (!old(c.st).pvcs[id].filesystem && lists.listable ==>
                   && NoOther(Attached(lists.guestSide), id, node)
                   && OnlyOn(old(lists.hostSide), old(c.st).pvcs[id].volumeName, host.hostNode))) ==> r == OK
  {
    listed, seen, read := false, c.st, c.st;
    if node == "" {
      return InvalidArgument, false, seen, read;
    }
    if multiNode {
      r, seen, read := PublishShared(c, id);
      return r, false, seen, read;
    }
    var pvc := c.GetPvc(id);
    seen, read := c.st, c.st;
    if pvc.Err? {
      return Internal, false, seen, read;
    }
    if !pvc.value.bound {
      return Aborted, false, seen, read;
    }
    var claim := HostClaim(id, pvc.value.volumeName, Some(if pvc.value.filesystem then Filesystem else Block));
    r, listed := PublishRWO(host, lists, declarative, claim, node, settlePolls, attachPolls);
  }

  /** A bound claim of a shared Longhorn volume. */
  predicate Shareable(pvc: Pvc) { IsLHRWX(pvc) && pvc.bound && pvc.volumeName != "" }

  /** A bound claim of any other volume. */
  predicate Unshared(pvc: Pvc) { !(pvc.filesystem && pvc.rwxAccess && pvc.longhorn) && pvc.bound }

  /** Nothing but a failing call keeps a removal from being sent. */
  predicate Removable(quiet: bool, declarative: bool, vm: VM, id: string) {
    declarative ==> quiet && Patchable(Remove(id), vm.content)
  }

  predicate Off(s: State, name: string) { name in s.nfss && !s.nfss[name].terminating && s.nfss[name].desired == Disabled }

  predicate CanUnshare(s: State, g: Guest, id: string)
    requires id in s.pvcs
  {
    && s.pvcs[id].volumeName in s.nfss
    && (NeedsOff(s.nfss[s.pvcs[id].volumeName]) ==> id in g.claimOf)
  }

  lemma MineStays(s: State, t: State, id: string)
    requires Mine(s, id) && (t == s || EnvMoves(s, t))
    ensures Mine(t, id) && PvcMoves(s.pvcs[id], t.pvcs[id])
  {
  }

  /** What a step of the host leaves of the switches and of a claim nobody deletes. */
  lemma SwitchesStay(s: State, t: State, id: string)
    requires EnvMoves(s, t)
    ensures t.nfss.Keys <= s.nfss.Keys && forall v :: v in t.nfss ==> t.nfss[v].desired == s.nfss[v].desired
    ensures forall v :: Off(s, v) ==> Off(t, v)
    ensures Mine(s, id) ==> Mine(t, id) && PvcMoves(s.pvcs[id], t.pvcs[id])
  {
    assert forall v :: v in t.nfss ==> v in s.nfss;
  }

  /** The shared branch of an unpublish, its claim just read. */
  method UnpublishClaim(c: Cluster, g: Guest, id: string, pvc: Pvc) returns (r: Reply, ghost read: State)
    requires id in c.st.pvcs && c.st.pvcs[id] == pvc && IsLHRWX(pvc)
    modifies c`st, c`alwaysOwned, c`wanted
    ensures old(c.Sound()) ==> c.Sound()
    ensures EnvMoves(old(c.st), read) && (r == OK ==> SwitchedOff(g, id, read, c.st, pvc.volumeName))
    ensures Mine(old(c.st), id) ==> Mine(c.st, id) && PvcMoves(pvc, c.st.pvcs[id])
    ensures old(c.Sound()) ==> OnlyOf(c.owner, id, old(c.wanted), c.wanted)
    ensures Kept(g, id) ==> c.wanted == old(c.wanted)
    ensures !c.faulty && Shareable(pvc) ==>
      && (Off(old(c.st), pvc.volumeName) ==> r == OK)
      && (c.still ==> (r == OK <==> CanUnshare(old(c.st), g, id)))
    ensures r in {OK, Internal}
    ensures c.st.nfss.Keys <= old(c.st).nfss.Keys
    ensures g.indexAnswers && UsedByRunning(g, id) ==>
      forall v :: v in c.st.nfss && v in old(c.st).nfss ==> c.st.nfss[v].desired == old(c.st).nfss[v].desired
  {
    ghost var met;
    r, read, met := UnpublishRWXVolume(c, g, id, pvc);
    IndexKeepsIff(g, id);
    if Mine(old(c.st), id) {
      MineStays(old(c.st), read, id);
      MineStays(read, met, id);
    }
  }

  /** An unpublish once its claim is read and bound: the kind of the claim alone says which way it goes. */
  method UnpublishBound(c: Cluster, host: HostVM, g: Guest, declarative: bool, id: string, pvc: Pvc)
    returns (r: Reply, ghost shared: bool, ghost read: State)
    requires id in c.st.pvcs && c.st.pvcs[id] == pvc && pvc.bound
    modifies c`st, c`alwaysOwned, c`wanted, host
    ensures r in {OK, Internal, Aborted} && shared == IsLHRWX(pvc)
    ensures old(c.Sound()) ==> c.Sound() && OnlyOf(c.owner, id, old(c.wanted), c.wanted)
    ensures Kept(g, id) ==> c.wanted == old(c.wanted)
    ensures !shared ==> c.st == old(c.st)
    ensures r == OK && !shared && id == host.watched ==>
      !OnMachine(host.present, host.vm, id) && !InInstance(host.vmi, id)
    ensures !host.faulty && id == host.watched && Unshared(pvc) ==>
      && (OnMachine(host.present, old(host.vm), id) && Removable(host.quiet, declarative, old(host.vm), id) ==> r == Aborted)
      && (OnMachine(host.present, old(host.vm), id) && declarative && Removable(host.quiet, declarative, old(host.vm), id) ==>
            !InSpec(host.vm, id))
      && (!OnMachine(host.present, old(host.vm), id) && !InInstance(old(host.vmi), id) ==> r == OK)
    ensures shared ==> host.vm == old(host.vm) && host.vmi == old(host.vmi) && host.requests == old(host.requests)
    ensures shared ==> EnvMoves(old(c.st), read) && (r == OK ==> SwitchedOff(g, id, read, c.st, pvc.volumeName))
    ensures Mine(old(c.st), id) ==> Mine(c.st, id) && PvcMoves(pvc, c.st.pvcs[id])
    ensures !c.faulty && Shareable(pvc) ==>
      && (Off(old(c.st), pvc.volumeName) ==> r == OK)
      && (c.still ==> (r == OK <==> CanUnshare(old(c.st), g, id)))
    ensures c.st.nfss.Keys <= old(c.st).nfss.Keys
    ensures g.indexAnswers && UsedByRunning(g, id) ==>
      forall v :: v in c.st.nfss && v in old(c.st).nfss ==> c.st.nfss[v].desired == old(c.st).nfss[v].desired
  {
    shared, read := IsLHRWX(pvc), c.st;
    if IsLHRWX(pvc) {
      r, read := UnpublishClaim(c, g, id, pvc);
    } else {
      r := UnpublishVolume(host, declarative, id);
    }
  }

  /** `seen` is the state the claim is read in, `read` the one the NetworkFilesystem of a shared volume is. */
  method ControllerUnpublishVolume(c: Cluster, host: HostVM, g: Guest, declarative: bool, id: string)
    returns (r: Reply, ghost shared: bool, ghost seen: State, ghost read: State)
    modifies c`st, c`alwaysOwned, c`wanted, host
    ensures old(c.Sound()) ==> c.Sound() && OnlyOf(c.owner, id, old(c.wanted), c.wanted)
    ensures Kept(g, id) ==> c.wanted == old(c.wanted)
    // The claim decides first, and its kind alone says which way it goes.
    ensures id == "" ==> r == InvalidArgument
    ensures id != "" ==> EnvMoves(old(c.st), seen)
    ensures shared || r == OK ==> id in seen.pvcs && seen.pvcs[id].bound && shared == IsLHRWX(seen.pvcs[id])
    ensures !c.faulty && id != "" ==>
      && (id !in seen.pvcs ==> r == Internal)
      && (id in seen.pvcs && !seen.pvcs[id].bound ==> r == Aborted)
      && (id in seen.pvcs && seen.pvcs[id].bound ==> shared == IsLHRWX(seen.pvcs[id]))
    ensures Mine(old(c.st), id) && r !in {Internal, InvalidArgument, Aborted} ==> shared == IsLHRWX(old(c.st).pvcs[id])
    // OK means gone from the machine for a volume that is not a shared Longhorn one.
    ensures r == OK && !shared && id == host.watched ==>
      !OnMachine(host.present, host.vm, id) && !InInstance(host.vmi, id)
    // With calls answered it is asked to go while it is in the spec, and answered OK once there is nothing of it.
    ensures !c.faulty && !host.faulty && id != "" && id == host.watched && Mine(old(c.st), id) && Unshared(old(c.st).pvcs[id]) ==>
      && (OnMachine(host.present, old(host.vm), id) && Removable(host.quiet, declarative, old(host.vm), id) ==> r == Aborted)
      && (OnMachine(host.present, old(host.vm), id) && declarative && Removable(host.quiet, declarative, old(host.vm), id) ==>
            !InSpec(host.vm, id))
      && (!OnMachine(host.present, old(host.vm), id) && !InInstance(old(host.vmi), id) ==> r == OK)
    // For a shared one the machine is never touched, however the volume was published.
    ensures shared ==> host.vm == old(host.vm) && host.vmi == old(host.vmi) && host.requests == old(host.requests)
    ensures shared ==> EnvMoves(seen, read) && (r == OK ==> SwitchedOff(g, id, read, c.st, seen.pvcs[id].volumeName))
    ensures Mine(old(c.st), id) && IsLHRWX(old(c.st).pvcs[id]) ==> host.vm == old(host.vm)
    ensures Mine(old(c.st), id) ==> Mine(c.st, id) && PvcMoves(old(c.st).pvcs[id], c.st.pvcs[id])
    // With calls answered, what a shared one needs for OK: its NetworkFilesystem and, to be switched off, its
    // claim in the guest.
    ensures id != "" && !c.faulty && Mine(old(c.st), id) && Shareable(old(c.st).pvcs[id]) ==>
      && (Off(old(c.st), old(c.st).pvcs[id].volumeName) ==> r == OK)
      && (c.still ==> (r == OK <==> CanUnshare(old(c.st), g, id)))
    ensures g.indexAnswers && UsedByRunning(g, id) ==>
      forall v :: v in c.st.nfss && v in old(c.st).nfss ==> c.st.nfss[v].desired == old(c.st).nfss[v].desired
  {
    shared, seen, read := false, c.st, c.st;
    if id == "" {
      return InvalidArgument, false, seen, read;
    }
    var pvc := c.GetPvc(id);
    seen, read := c.st, c.st;
    SwitchesStay(old(c.st), c.st, id);
    if pvc.Err? {
      return Internal, false, seen, read;
    }
    if !pvc.value.bound {
      return Aborted, false, seen, read;
    }
    r, shared, read := UnpublishBound(c, host, g, declarative, id, pvc.value);
  }

  /**
   * A filesystem volume of Longhorn that is published to a single node, every call answered: both answers are
   * OK and the volume is still on its machine.
   */
  method PublishThenUnpublishFilesystem(c: Cluster, host: HostVM, lists: AttachmentLists, g: Guest, declarative: bool,
                                        id: string, node: string, settlePolls: nat, attachPolls: nat)
    returns (published: Reply, unpublished: Reply)
    requires !c.faulty && id != "" && node != "" && settlePolls > 0
    requires Mine(c.st, id) && Shareable(c.st.pvcs[id]) && Off(c.st, c.st.pvcs[id].volumeName)
    requires Attachable(host, declarative, id, attachPolls)
    modifies c, host, lists`hostSide
    ensures published == unpublished == OK && OnMachine(host.present, host.vm, id)
  {
    ghost var listed, shared, seen, read;
    ghost var before := c.st;
    published, listed, seen, read :=
      ControllerPublishVolume(c, host, lists, declarative, id, node, false, settlePolls, attachPolls);
    if c.st != before {
      SwitchesStay(before, c.st, id);
    }
    assert Shareable(c.st.pvcs[id]) && Off(c.st, c.st.pvcs[id].volumeName);
    unpublished, shared, seen, read := ControllerUnpublishVolume(c, host, g, declarative, id);
  }

  /**
   * An attached volume is unpublished until the answer is OK, whatever fails on the way: it is then gone from
   * its machine if and only if it is not a shared Longhorn volume.
   */
  method UnpublishUntilOK(c: Cluster, host: HostVM, g: Guest, declarative: bool, id: string, rounds: nat)
    returns (r: Reply)
    requires Mine(c.st, id) && id == host.watched && OnMachine(host.present, host.vm, id)
    modifies c, host
    // With calls answered it comes to that: at once for a shared one that is off, by the second call for any other
    // that is removed by a patch.
    ensures !c.faulty && id != "" && Shareable(old(c.st).pvcs[id]) && Off(old(c.st), old(c.st).pvcs[id].volumeName) && rounds > 0 ==>
      r == OK
    ensures (&& !c.faulty && !host.faulty && id != "" && Unshared(old(c.st).pvcs[id]) && rounds > 1
             && declarative && Removable(host.quiet, declarative, old(host.vm), id)) ==> r == OK
    ensures r == OK ==> (OnMachine(host.present, host.vm, id) <==>
      old(c.st).pvcs[id].filesystem && old(c.st).pvcs[id].rwxAccess && old(c.st).pvcs[id].longhorn)
  {
    r := Internal;
    ghost var off := !c.faulty && id != "" && Shareable(c.st.pvcs[id]) && Off(c.st, c.st.pvcs[id].volumeName);
    ghost var removed := !c.faulty && !host.faulty && id != "" && Unshared(c.st.pvcs[id])
      && declarative && Removable(host.quiet, declarative, host.vm, id);
    for i := 0 to rounds
      invariant r != OK
      invariant Mine(c.st, id) && PvcMoves(old(c.st).pvcs[id], c.st.pvcs[id])
      invariant IsLHRWX(c.st.pvcs[id]) ==> OnMachine(host.present, host.vm, id)
      invariant off ==> i == 0 && c.st == old(c.st)
      invariant removed ==> i <= 1 && Unshared(c.st.pvcs[id])
      invariant removed && i == 0 ==> host.vm == old(host.vm)
      invariant removed && i == 1 ==> !InSpec(host.vm, id)
    {
      host.Reconcile();
      ghost var shared, seen, read;
      r, shared, seen, read := ControllerUnpublishVolume(c, host, g, declarative, id);
      if r == OK {
        return;
      }
    }
  }

  // ---- Whole runs ----

  datatype Call =
    | Create(id: string, filesystem: bool, longhorn: bool)
    | Restore(id: string)
    | Delete(id: string)
    | Publish(id: string, node: string, multiNode: bool)
    | Unpublish(id: string, node: string, guest: Guest)

  /** The caller lets the volumes of a claim be taken down: it deletes them, or unpublishes them while the index
      of pods does not keep them. */
  predicate TakesDown(call: Call, id: string) {
    call == Delete(id) || (call.Unpublish? && call.id == id && !Kept(call.guest, id))
  }

  /**
   * Any calls in any order, one at a time, each failing anywhere, on any machines: at every moment each
   * NetworkFilesystem that stays has a claim that stays, no claim was deleted before a restore of its name, and
   * a volume that was on is on unless one of the calls lets it be taken down.
   * Callers publish restored volumes to single nodes only, as they were created.
   */
  method AnyRun(c: Cluster, hosts: map<string, HostVM>, lists: AttachmentLists, declarative: bool, calls: seq<Call>, polls: nat)
    returns (replies: seq<Reply>)
    requires c.Sound()
    modifies c, hosts.Values, lists`hostSide
    ensures c.Sound() && Owned(c.st)
    ensures |replies| == |calls|
    ensures forall v :: On(old(c.st), v) && !On(c.st, v) ==>
      exists k :: 0 <= k < |calls| && TakesDown(calls[k], c.owner(v))
  {
    replies := [];
    for i := 0 to |calls|
      invariant c.Sound() && |replies| == i
      invariant forall v :: v in old(c.wanted) && v !in c.wanted ==>
        exists k :: 0 <= k < i && TakesDown(calls[k], c.owner(v))
    {
      var r := OneCall(c, hosts, lists, declarative, calls[i], polls);
      replies := replies + [r];
    }
    InvImpliesOwned(c.st);
  }

  method OneCall(c: Cluster, hosts: map<string, HostVM>, lists: AttachmentLists, declarative: bool, call: Call, polls: nat)
    returns (r: Reply)
    requires c.Sound()
    modifies c, hosts.Values, lists`hostSide
    ensures c.Sound()
    // The calls do what they are for.
    ensures !c.faulty && call.Create? && call.id !in old(c.st).pvcs && call.id !in old(c.st).vrrs && !(call.filesystem && call.longhorn) ==>
      r == OK && call.id in c.st.pvcs
    ensures !c.faulty && call.Restore? && (call.id in old(c.st).vrrs ==> !old(c.st).vrrs[call.id].terminating) ==> call.id in c.st.vrrs
    ensures !c.faulty && call.Delete? && call.id != "" && Named(old(c.st), call.id) && Settled(old(c.st), call.id) ==>
      r == OK && Deleted(c.st, call.id)
    ensures !c.faulty && c.still && call.Publish? && call.multiNode && call.node in hosts && call.node != "" && !Restored(old(c.st), call.id) ==>
      (r == OK <==> Shared(old(c.st), call.id))
    ensures (&& !c.faulty && c.still && call.Unpublish? && call.node in hosts && call.id != ""
             && Mine(old(c.st), call.id) && Shareable(old(c.st).pvcs[call.id])) ==>
      (r == OK <==> CanUnshare(old(c.st), call.guest, call.id))
    ensures forall v :: v in old(c.wanted) && v !in c.wanted ==> TakesDown(call, c.owner(v))
  {
    r := InvalidArgument;
    match call {
      case Create(id, filesystem, longhorn) => r := CreateVolume(c, id, filesystem, longhorn, polls);
      case Restore(id) => r := CreateFromBackup(c, id);
      case Delete(id) => r := DeleteVolume(c, id);
      case Publish(id, node, multiNode) =>
        if node in hosts && (multiNode ==> !Restored(c.st, id)) {
          assert hosts[node] in hosts.Values;
          ghost var listed, seen, read;
          r, listed, seen, read :=
            ControllerPublishVolume(c, hosts[node], lists, declarative, id, node, multiNode, polls, polls);
        }
      case Unpublish(id, node, guest) =>
        if node in hosts {
          assert hosts[node] in hosts.Values;
          ghost var shared, seen, read;
          r, shared, seen, read := ControllerUnpublishVolume(c, hosts[node], guest, declarative, id);
        }
    }
  }
}
