/** Creating and deleting volumes over the host cluster's objects. */
module VolumeLifecycle {
  import opened HostCluster
  import opened Replies

  // ---- Create ----

  /** The answer to creating a NetworkFilesystem; one that exists already is as good. */
  method CreateNetworkFilesystem(c: Cluster, name: string) returns (ok: bool, ghost mid: State)
    modifies c`st, c`alwaysOwned
    ensures EnvMoves(old(c.st), mid) && (c.still ==> mid == old(c.st))
    ensures c.st == mid ||
            (name != "" && name !in mid.nfss && c.st == mid.(nfss := mid.nfss[name := Nfs(0, Disabled, Down, false)]))
    ensures ok ==> name in c.st.nfss
    ensures !c.faulty && name != "" ==> ok
    ensures old(c.Sound()) && (exists p :: p in mid.pvcs && Owns(mid.pvcs[p], name)) ==> c.Sound()
  {
    var created;
    created, mid := c.CreateNfs(name);
    ok := created.Ok? || created.error == AlreadyExists;
  }

  /** Waits for the volume behind a claim; gives up on the first failed read. */
  method WaitForLHVolumeName(c: Cluster, id: string, polls: nat) returns (ok: bool)
    modifies c`st, c`alwaysOwned
    ensures old(c.Sound()) ==> c.Sound()
    ensures Mine(old(c.st), id) ==> Mine(c.st, id) && PvcMoves(old(c.st).pvcs[id], c.st.pvcs[id])
    ensures ok ==> id in c.st.pvcs && c.st.pvcs[id].volumeName != ""
    ensures !c.faulty && polls > 0 && Mine(old(c.st), id) ==> (ok <==> c.st.pvcs[id].volumeName != "")
    ensures !c.faulty && polls > 0 && Mine(old(c.st), id) && old(c.st).pvcs[id].volumeName != "" ==> ok
  {
    for i := 0 to polls
      invariant old(c.Sound()) ==> c.Sound()
      invariant Mine(old(c.st), id) ==> Mine(c.st, id) && PvcMoves(old(c.st).pvcs[id], c.st.pvcs[id])
      invariant !c.faulty && Mine(old(c.st), id) && old(c.st).pvcs[id].volumeName != "" ==> i == 0
      invariant !c.faulty && Mine(old(c.st), id) && i > 0 ==> c.st.pvcs[id].volumeName == ""
    {
      var pvc := c.GetPvc(id);
      if pvc.Err? {
        return false;
      }
      if pvc.value.volumeName != "" {
        return true;
      }
    }
    return false;
  }

  /** A live claim only the driver may delete. */
  predicate Mine(s: State, id: string) { id in s.pvcs && !s.pvcs[id].terminating && !s.pvcs[id].restored }

  /** Creates a claim and, for a shared volume, its NetworkFilesystem after it. */
  method CreateVolume(c: Cluster, id: string, filesystem: bool, longhorn: bool, polls: nat) returns (r: Reply)
    modifies c`st, c`alwaysOwned
    ensures old(c.Sound()) ==> c.Sound()
    ensures r in {OK, Internal, DeadlineExceeded}
    ensures r == OK ==> id in c.st.pvcs && !c.st.pvcs[id].terminating
    ensures r == OK && filesystem && longhorn ==> c.st.pvcs[id].volumeName in c.st.nfss
    // The claim is the one asked for, open to many nodes.
    ensures r == OK ==>
      var pvc := c.st.pvcs[id]; (pvc.filesystem, pvc.longhorn, pvc.rwxAccess, pvc.restored) == (filesystem, longhorn, true, false)
    // Not idempotent: while the claim of an earlier call is there, a repeated call is refused.
    ensures Mine(old(c.st), id) ==> r != OK
    // Without failures only a volume that is not bound in time keeps a new claim from being answered.
    ensures !c.faulty && id !in old(c.st).pvcs && id !in old(c.st).vrrs ==>
      r == OK || (filesystem && longhorn && r == DeadlineExceeded && Mine(c.st, id))
  {
    var claim := Pvc("", false, false, false, filesystem, true, longhorn);
    var created;
    ghost var mid;
    created, mid := c.CreatePvc(id, claim);
    if created.Err? {
      return Internal;
    }
    r := OK;
    if IsLHRWX(created.value) {
      r := AddNetworkFilesystem(c, id, polls);
    }
  }

  /** The second part of creating a shared volume, its claim just made. */
  method AddNetworkFilesystem(c: Cluster, id: string, polls: nat) returns (r: Reply)
    requires Mine(c.st, id) && IsLHRWX(c.st.pvcs[id])
    modifies c`st, c`alwaysOwned
    ensures old(c.Sound()) ==> c.Sound()
    ensures Mine(c.st, id) && PvcMoves(old(c.st).pvcs[id], c.st.pvcs[id])
    ensures r in {OK, Internal, DeadlineExceeded}
    ensures r == OK ==> c.st.pvcs[id].volumeName in c.st.nfss
    ensures !c.faulty ==> r in {OK, DeadlineExceeded}
  {
    var named := WaitForLHVolumeName(c, id, polls);
    if !named {
      return DeadlineExceeded;
    }
    var bound := c.GetPvc(id);
    if bound.Err? {
      return Internal;
    }
    var made;
    ghost var mid;
    made, mid := CreateNetworkFilesystem(c, bound.value.volumeName);
    assert Owns(mid.pvcs[id], bound.value.volumeName);
    r := if made then OK else Internal;
  }

  /** Creates a volume by restoring a backup: makes the restore unless it exists, then asks whether it is done. */
  method CreateFromBackup(c: Cluster, id: string) returns (r: Reply)
    modifies c`st, c`alwaysOwned
    ensures old(c.Sound()) ==> c.Sound()
    ensures r in {OK, Internal}
    ensures r == OK ==> id in c.st.vrrs && c.st.vrrs[id].success
    // A call without failures leaves the restore there and answers whether it is finished.
    ensures !c.faulty && (id in old(c.st).vrrs ==> !old(c.st).vrrs[id].terminating) ==>
      id in c.st.vrrs && (r == OK <==> c.st.vrrs[id].success)
    // Idempotent: a call repeated on a finished restore succeeds again.
    ensures !c.faulty && id in old(c.st).vrrs && !old(c.st).vrrs[id].terminating && old(c.st).vrrs[id].success ==>
      r == OK && c.st.vrrs[id] == old(c.st).vrrs[id]
  {
    var vrr := c.GetVrr(id);
    if vrr.Err? && vrr.error != NotFound {
      return Internal;
    }
    if vrr.Err? {
      ghost var mid;
      vrr, mid := c.CreateVrr(id);
      if vrr.Err? {
        return Internal;
      }
    }
    var ready := c.GetVrr(id);
    r := if ready.Ok? && ready.value.success then OK else Internal;
  }

  // ---- Delete ----

  /** The deletion of the volume has been accepted: of its restore, or else of its claim, or there is neither. */
  predicate Deleted(s: State, id: string) {
    if id in s.vrrs then s.vrrs[id].terminating
    else id in s.pvcs ==> s.pvcs[id].terminating
  }

  /** The claim, if it is a shared one, knows its volume. */
  predicate Named(s: State, id: string) { id in s.pvcs && IsLHRWX(s.pvcs[id]) ==> s.pvcs[id].volumeName != "" }

  /** Neither the restore nor the NetworkFilesystem of the volume is waiting for its finalizers. */
  predicate Settled(s: State, id: string) {
    && (id in s.vrrs ==> !s.vrrs[id].terminating)
    && (id in s.pvcs && IsLHRWX(s.pvcs[id]) && s.pvcs[id].volumeName in s.nfss ==>
          !s.nfss[s.pvcs[id].volumeName].terminating)
  }

  /** Only volumes of this claim were taken down. */
  ghost predicate OnlyOf(owner: string -> string, id: string, before: set<string>, after: set<string>) {
    forall v :: v in before && v !in after ==> owner(v) == id
  }

  method DeleteVolume(c: Cluster, id: string) returns (r: Reply)
    modifies c
    ensures old(c.Sound()) ==> c.Sound()
    ensures old(c.Sound()) ==> OnlyOf(c.owner, id, old(c.wanted), c.wanted)
    ensures r == OK ==> Deleted(c.st, id)
    ensures id != "" ==> r in {OK, Internal}
    ensures id == "" ==> r == InvalidArgument && c.st == old(c.st)
    // Whatever an earlier call left, a call without failures succeeds unless an object already being deleted
    // goes away between its read and its deletion; that object is then gone for the next call.
    ensures !c.faulty && id != "" && Named(old(c.st), id) && Settled(old(c.st), id) ==> r == OK
    ensures !c.faulty && id != "" && Named(old(c.st), id) && r != OK ==>
      && !Settled(old(c.st), id)
      && Named(c.st, id)
      && id !in c.st.vrrs
      && (id in old(c.st).vrrs || (VanishedNfs(old(c.st), c.st, id) && Settled(c.st, id)))
    // A shared claim that is still unbound cannot be deleted.
    ensures id !in old(c.st).vrrs && id in c.st.pvcs && !Named(c.st, id) ==> r != OK && Untouched(old(c.st), c.st, id)
  {
    if id == "" {
      return InvalidArgument;
    }
    var restore;
    ghost var read, met;
    restore, read, met := DeleteRestoreIfExists(c, id);
    match restore
    case Failed => r := Internal;
    case Deleting => r := OK;
    case NoRestore => r := DeleteClaim(c, id);
  }

  /** The claim was there, and the driver has not asked for its deletion since. */
  predicate Untouched(s: State, t: State, id: string) {
    id in s.pvcs && id in t.pvcs && (t.pvcs[id].terminating ==> s.pvcs[id].terminating || s.pvcs[id].restored)
  }

  /** A volume whose claim is known is deleted by three calls without failures at most, whatever state earlier
      calls, failed ones among them, left. */
  method RetryDelete(c: Cluster, id: string) returns (r: Reply, calls: nat)
    requires !c.faulty && id != "" && Named(c.st, id)
    modifies c
    ensures r == OK && Deleted(c.st, id) && calls <= 3
    ensures Settled(old(c.st), id) ==> calls == 1
    ensures id !in old(c.st).vrrs ==> calls <= 2
    ensures old(c.Sound()) ==> c.Sound()
  {
    r := DeleteVolume(c, id);
    calls := 1;
    while r != OK
      invariant calls <= 3
      invariant r == OK ==> Deleted(c.st, id)
      invariant r != OK ==> calls < 3 && Named(c.st, id) && id !in c.st.vrrs && !Settled(old(c.st), id)
      invariant r != OK && (calls == 2 || id !in old(c.st).vrrs) ==> Settled(c.st, id)
      invariant id !in old(c.st).vrrs ==> calls <= 2 && (r != OK ==> calls == 1)
      invariant Settled(old(c.st), id) ==> calls == 1
      invariant old(c.Sound()) ==> c.Sound()
      decreases 3 - calls
    {
      r := DeleteVolume(c, id);
      calls := calls + 1;
    }
  }

  datatype RestoreDeletion = Deleting | NoRestore | Failed

  /** Deletes the restore of a volume, if it has one: `read` is the state it is looked up in, `met` the one
      its deletion meets. */
  method DeleteRestoreIfExists(c: Cluster, id: string) returns (r: RestoreDeletion, ghost read: State, ghost met: State)
    modifies c`st, c`alwaysOwned
    ensures old(c.Sound()) ==> c.Sound()
    ensures EnvMoves(old(c.st), read) && (met == read || EnvMoves(read, met))
    ensures r == NoRestore ==> c.st == read && id !in read.vrrs
    ensures r == Deleting ==> id in met.vrrs && c.st == met.(vrrs := met.vrrs[id := met.vrrs[id].(terminating := true)])
    ensures !c.faulty ==>
      r == if id !in read.vrrs then NoRestore else if id in met.vrrs then Deleting else Failed
    ensures c.st == met || (id in met.vrrs && c.st == met.(vrrs := met.vrrs[id := met.vrrs[id].(terminating := true)]))
    ensures !c.faulty && r == Failed ==> c.st == met
  {
    var vrr := c.GetVrr(id);
    read, met := c.st, c.st;
    if vrr.Ok? {
      var gone;
      gone, met := c.DeleteVrr(id);
      return if gone.Ok? then Deleting else Failed, read, met;
    }
    r := if vrr.error == NotFound then NoRestore else Failed;
  }

  /** A restore can go between its lookup and its deletion exactly when it is being deleted already; so that
      is exactly when a call without failures can fail on it. */
  lemma RestoreCanGoIffTerminating(s: State, id: string)
    requires id in s.vrrs
    ensures s.vrrs[id].terminating <==> exists t :: EnvMoves(s, t) && id !in t.vrrs
  {
    if s.vrrs[id].terminating {
      var t := s.(vrrs := s.vrrs - {id});
      assert EnvMoves(s, t) && id !in t.vrrs;
    }
  }

  /** The same for a NetworkFilesystem. */
  lemma NfsCanGoIffTerminating(s: State, name: string)
    requires name in s.nfss
    ensures s.nfss[name].terminating <==> exists t :: EnvMoves(s, t) && name !in t.nfss
  {
    if s.nfss[name].terminating {
      var t := s.(nfss := s.nfss - {name});
      assert EnvMoves(s, t) && name !in t.nfss;
    }
  }

  /** Deletes the claim of a volume that has no restore, its NetworkFilesystem before it. */
  method DeleteClaim(c: Cluster, id: string) returns (r: Reply)
    requires id !in c.st.vrrs
    modifies c
    ensures old(c.Sound()) ==> c.Sound()
    ensures id !in c.st.vrrs && r in {OK, Internal}
    ensures old(c.Sound()) ==> OnlyOf(c.owner, id, old(c.wanted), c.wanted)
    ensures r == OK ==> Deleted(c.st, id)
    ensures !c.faulty && Named(old(c.st), id) && r != OK ==>
      VanishedNfs(old(c.st), c.st, id) && ClaimFollows(old(c.st), c.st, id)
    ensures Named(old(c.st), id) ==> Named(c.st, id)
    ensures id in c.st.pvcs && !Named(c.st, id) ==> r != OK && Untouched(old(c.st), c.st, id)
  {
    var pvc := c.GetPvc(id);
    if pvc == Err(NotFound) {
      return OK;
    }
    if pvc.Err? {
      return Internal;
    }
    if IsLHRWX(pvc.value) {
      var ok := DropNetworkFilesystemOf(c, id, pvc.value);
      if !ok {
        return Internal;
      }
    }
    r := DeleteClaimObject(c, id);
  }

  /** The last step of a deletion, once nothing depends on the claim. */
  method DeleteClaimObject(c: Cluster, id: string) returns (r: Reply)
    requires id !in c.st.vrrs && NothingOf(c.st, id) && Named(c.st, id)
    modifies c`st, c`alwaysOwned, c`restoresFirst
    ensures old(c.Sound()) ==> c.Sound()
    ensures r in {OK, Internal} && id !in c.st.vrrs && Named(c.st, id)
    ensures r == OK ==> Deleted(c.st, id)
    ensures !c.faulty ==> r == OK
  {
    var gone;
    ghost var mid;
    gone, mid := c.DeletePvc(id);
    r := if gone.Ok? || gone == Err(NotFound) then OK else Internal;
  }

  /** The NetworkFilesystem of the claim was on its way out and is gone now. */
  predicate VanishedNfs(s: State, t: State, id: string) {
    && id in s.pvcs && IsLHRWX(s.pvcs[id])
    && s.pvcs[id].volumeName in s.nfss && s.nfss[s.pvcs[id].volumeName].terminating
    && s.pvcs[id].volumeName !in t.nfss
  }

  /** Deletes a NetworkFilesystem unless it is gone already: `read` is the state it is looked up in, `met` the
      one its deletion meets. */
  method DropNetworkFilesystem(c: Cluster, name: string) returns (ok: bool, ghost read: State, ghost met: State)
    modifies c`st, c`alwaysOwned, c`wanted
    ensures old(c.Sound()) ==> c.Sound()
    ensures EnvMoves(old(c.st), read) && (met == read || EnvMoves(read, met))
    ensures c.st == met || (name in met.nfss && c.st == met.(nfss := met.nfss[name := met.nfss[name].(terminating := true)]))
    ensures c.wanted == old(c.wanted) || (name != "" && c.wanted == old(c.wanted) - {name})
    ensures ok ==> name != "" && (name in c.st.nfss ==> c.st.nfss[name].terminating)
    ensures !c.faulty && name != "" ==> (ok <==> (name in read.nfss ==> name in met.nfss))
  {
    var nfs := c.GetNfs(name);
    read, met := c.st, c.st;
    if nfs.Err? {
      return nfs.error == NotFound, read, met;
    }
    var gone;
    gone, met := c.DeleteNfs(name);
    ok := gone.Ok?;
  }

  /** The same for the claim it belongs to. */
  method DropNetworkFilesystemOf(c: Cluster, id: string, pvc: Pvc) returns (ok: bool)
    requires id !in c.st.vrrs && id in c.st.pvcs && c.st.pvcs[id] == pvc && IsLHRWX(pvc)
    modifies c`st, c`alwaysOwned, c`wanted
    ensures old(c.Sound()) ==> c.Sound()
    ensures id !in c.st.vrrs && ClaimFollows(old(c.st), c.st, id)
    ensures old(c.Sound()) ==> OnlyOf(c.owner, id, old(c.wanted), c.wanted)
    ensures ok ==> NothingOf(c.st, id) && Named(c.st, id)
    ensures pvc.volumeName == "" ==> !ok
    ensures !c.faulty && pvc.volumeName != "" && !ok ==> VanishedNfs(old(c.st), c.st, id)
  {
    ghost var read, met;
    ok, read, met := DropNetworkFilesystem(c, pvc.volumeName);
    FollowsTwice(old(c.st), read, met, id);
  }

  lemma FollowsTwice(s: State, read: State, met: State, id: string)
    requires EnvMoves(s, read) && (met == read || EnvMoves(read, met)) && id !in s.vrrs
    ensures id !in met.vrrs && ClaimFollows(s, met, id)
  {
  }

  /** What the host may do to a claim without a restore. */
  predicate ClaimFollows(s: State, t: State, id: string) {
    id !in s.vrrs ==>
      && (id !in s.pvcs ==> id !in t.pvcs)
      && (id in s.pvcs && id in t.pvcs ==> PvcMoves(s.pvcs[id], t.pvcs[id]))
      && (id in s.pvcs && id !in t.pvcs ==> s.pvcs[id].terminating || s.pvcs[id].restored)
  }
}
