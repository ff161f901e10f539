/**
 * The objects behind a volume in the host cluster: its claim, the restore it may come from, and the
 * NetworkFilesystem of a shared (RWX) volume.  Every call may fail, or be served and its reply lost, and
 * the controllers of the host cluster take steps between any two calls.
 */
module HostCluster {
  datatype Pvc = Pvc(
    volumeName: string,     // empty until the claim is bound to a volume
    bound: bool,
    terminating: bool,
    restored: bool,         // owned by a VolumeRemoteRestore
    filesystem: bool,
    rwxAccess: bool,
    longhorn: bool)         // the provisioner of its storage class

  datatype Vrr = Vrr(terminating: bool, success: bool)

  datatype Desired = Enabled | Disabled

  datatype NfsStatus = Ready | Enabling | Disabling | Down

  datatype Nfs = Nfs(version: nat, desired: Desired, status: NfsStatus, terminating: bool)

  datatype State = State(pvcs: map<string, Pvc>, vrrs: map<string, Vrr>, nfss: map<string, Nfs>)

  /** A shared Longhorn volume, the only kind with a NetworkFilesystem. */
  predicate IsLHRWX(pvc: Pvc) { pvc.filesystem && pvc.rwxAccess && pvc.longhorn }

  /** Every NetworkFilesystem not being deleted belongs to a claim that exists and is not being deleted. */
  ghost predicate Owned(s: State) {
    forall v :: v in s.nfss && !s.nfss[v].terminating ==>
      exists p :: p in s.pvcs && s.pvcs[p].volumeName == v && !s.pvcs[p].terminating
  }

  predicate Owns(pvc: Pvc, v: string) {
    v != "" && pvc.volumeName == v && !pvc.terminating && !pvc.restored && IsLHRWX(pvc)
  }

  /** The inductive form of `Owned`: the owner is a shared claim nobody but the driver deletes. */
  ghost predicate Inv(s: State) {
    forall v :: v in s.nfss && !s.nfss[v].terminating ==> exists p :: p in s.pvcs && Owns(s.pvcs[p], v)
  }

  /** The NetworkFilesystem stays and is wanted enabled. */
  predicate On(s: State, v: string) { v in s.nfss && !s.nfss[v].terminating && s.nfss[v].desired == Enabled }

  ghost predicate Tracks(on: set<string>, s: State) { forall v :: v in on <==> On(s, v) }

  /** A volume belongs to one claim. */
  predicate Belongs(s: State, owner: string -> string) {
    forall p :: p in s.pvcs && s.pvcs[p].volumeName != "" ==> owner(s.pvcs[p].volumeName) == p
  }

  /** The volume came or comes from a restore. */
  predicate Restored(s: State, id: string) { id in s.vrrs || (id in s.pvcs && s.pvcs[id].restored) }

  // ---- What the controllers of the host cluster may do ----

  predicate PvcMoves(a: Pvc, b: Pvc) {
    && (b.filesystem, b.rwxAccess, b.longhorn, b.restored) == (a.filesystem, a.rwxAccess, a.longhorn, a.restored)
    && (a.bound ==> b.bound)
    && (a.volumeName != "" ==> b.volumeName == a.volumeName)
    && (a.terminating ==> b.terminating)
    && (b.terminating && !a.terminating ==> a.restored)
  }

  predicate NfsMoves(a: Nfs, b: Nfs) {
    && b.desired == a.desired && b.terminating == a.terminating
    && a.version <= b.version && (a.version == b.version ==> a == b)
  }

  /** The claim went and the restore of its name made it again. */
  predicate Remade(s: State, p: string, a: Pvc, b: Pvc) {
    (a.terminating || a.restored) && b.restored && p in s.vrrs && !s.vrrs[p].terminating
  }

  predicate ClaimsMove(s: State, t: State) {
    && (forall p :: p in s.pvcs && p in t.pvcs ==>
          PvcMoves(s.pvcs[p], t.pvcs[p]) || Remade(s, p, s.pvcs[p], t.pvcs[p]))
    && (forall p :: p in s.pvcs && p !in t.pvcs ==> s.pvcs[p].terminating || s.pvcs[p].restored)
    && (forall p :: p in t.pvcs && p !in s.pvcs ==> t.pvcs[p].restored && p in s.vrrs && !s.vrrs[p].terminating)
  }

  predicate RestoresMove(s: State, t: State) {
    && t.vrrs.Keys <= s.vrrs.Keys
    && (forall p :: p in s.vrrs && p !in t.vrrs ==> s.vrrs[p].terminating)
    && (forall p :: p in t.vrrs && p in s.vrrs ==> t.vrrs[p].terminating == s.vrrs[p].terminating)
    && (forall p :: p in t.vrrs && p in s.vrrs && s.vrrs[p].success ==> t.vrrs[p].success)
  }

  predicate NfssMove(s: State, t: State) {
    && t.nfss.Keys <= s.nfss.Keys
    && (forall v :: v in s.nfss && v !in t.nfss ==> s.nfss[v].terminating)
    && (forall v :: v in t.nfss && v in s.nfss ==> NfsMoves(s.nfss[v], t.nfss[v]))
  }

  /** Any number of steps: claims get bound; objects being deleted go; a restore makes its claim and takes it along
      when it goes; the status of a NetworkFilesystem moves.  Nobody else creates or deletes. */
  predicate EnvMoves(s: State, t: State) { ClaimsMove(s, t) && RestoresMove(s, t) && NfssMove(s, t) }

  /** Steps of the host add up. */
  lemma EnvAgain(s: State, t: State, u: State)
    requires EnvMoves(s, t) && EnvMoves(t, u)
    ensures EnvMoves(s, u)
  {
    ClaimsAgain(s, t, u);
    assert NfssMove(s, u) by {
      assert forall v :: v in u.nfss ==> v in t.nfss && v in s.nfss;
    }
  }

  lemma ClaimsAgain(s: State, t: State, u: State)
    requires ClaimsMove(s, t) && ClaimsMove(t, u) && RestoresMove(s, t)
    ensures ClaimsMove(s, u)
  {
    forall p | p in s.pvcs && p in u.pvcs
      ensures PvcMoves(s.pvcs[p], u.pvcs[p]) || Remade(s, p, s.pvcs[p], u.pvcs[p])
    {
      if p in t.pvcs {
        ClaimAgain(s, t, p, s.pvcs[p], t.pvcs[p], u.pvcs[p]);
      }
    }
  }

  lemma ClaimAgain(s: State, t: State, p: string, a: Pvc, b: Pvc, c: Pvc)
    requires RestoresMove(s, t)
    requires PvcMoves(a, b) || Remade(s, p, a, b)
    requires PvcMoves(b, c) || Remade(t, p, b, c)
    ensures PvcMoves(a, c) || Remade(s, p, a, c)
  {
  }

  lemma EnvKeepsInv(s: State, t: State)
    requires Inv(s) && EnvMoves(s, t)
    ensures Inv(t)
  {
    forall v | v in t.nfss && !t.nfss[v].terminating
      ensures exists p :: p in t.pvcs && Owns(t.pvcs[p], v)
    {
      var p :| p in s.pvcs && Owns(s.pvcs[p], v);
      assert p in t.pvcs;
      assert Owns(t.pvcs[p], v);
    }
  }

  lemma InvImpliesOwned(s: State)
    requires Inv(s)
    ensures Owned(s)
  {
    forall v | v in s.nfss && !s.nfss[v].terminating
      ensures exists p :: p in s.pvcs && s.pvcs[p].volumeName == v && !s.pvcs[p].terminating
    {
      var p :| p in s.pvcs && Owns(s.pvcs[p], v);
    }
  }

  /** What holds of the objects between any two calls; `on` are the NetworkFilesystems that are on. */
  ghost predicate Good(s: State, owner: string -> string, on: set<string>) {
    Inv(s) && Belongs(s, owner) && Tracks(on, s)
  }

  lemma EnvKeepsGood(s: State, t: State, owner: string -> string, on: set<string>)
    requires Good(s, owner, on) && EnvMoves(s, t) && Belongs(t, owner)
    ensures Good(t, owner, on) && Owned(t)
  {
    EnvKeepsInv(s, t);
    InvImpliesOwned(t);
    assert forall v :: v in t.nfss ==> v in s.nfss;
  }

  lemma RestoresKeepGood(s: State, t: State, owner: string -> string, on: set<string>)
    requires Good(s, owner, on) && (t.pvcs, t.nfss) == (s.pvcs, s.nfss)
    ensures Good(t, owner, on) && Owned(t)
  {
    assert forall v :: On(t, v) <==> On(s, v);
    InvImpliesOwned(t);
  }

  lemma NfsMadeKeepsGood(s: State, name: string, p: string, owner: string -> string, on: set<string>)
    requires Good(s, owner, on) && name !in s.nfss && p in s.pvcs && Owns(s.pvcs[p], name)
    ensures var t := s.(nfss := s.nfss[name := Nfs(0, Disabled, Down, false)]); Good(t, owner, on) && Owned(t)
  {
    var t := s.(nfss := s.nfss[name := Nfs(0, Disabled, Down, false)]);
    assert forall v :: On(t, v) <==> On(s, v);
    InvImpliesOwned(t);
  }

  /** Writing the switch of one NetworkFilesystem. */
  lemma UpdateKeepsGood(s: State, t: State, name: string, seen: Nfs, desired: Desired, owner: string -> string, on: set<string>)
    requires Good(s, owner, on) && Updated(s, t, name, seen, desired)
    ensures Good(t, owner, if s.nfss[name].terminating then on else Switch(on, name, desired)) && Owned(t)
  {
    assert forall v :: v != name ==> (On(t, v) <==> On(s, v));
    assert forall v :: v in t.nfss ==> v in s.nfss && t.nfss[v].terminating == s.nfss[v].terminating;
    InvImpliesOwned(t);
  }

  lemma NfsDeletedKeepsGood(s: State, name: string, owner: string -> string, on: set<string>)
    requires Good(s, owner, on) && name in s.nfss
    ensures var t := s.(nfss := s.nfss[name := s.nfss[name].(terminating := true)]);
      Good(t, owner, on - {name}) && Owned(t)
  {
    var t := s.(nfss := s.nfss[name := s.nfss[name].(terminating := true)]);
    assert forall v :: v != name ==> (On(t, v) <==> On(s, v));
    InvImpliesOwned(t);
  }

  lemma ClaimMadeKeepsGood(s: State, id: string, pvc: Pvc, owner: string -> string, on: set<string>)
    requires Good(s, owner, on) && id !in s.pvcs && pvc.volumeName == ""
    ensures var t := s.(pvcs := s.pvcs[id := pvc]); Good(t, owner, on) && Owned(t)
  {
    var t := s.(pvcs := s.pvcs[id := pvc]);
    assert forall v :: On(t, v) <==> On(s, v);
    ClaimAddedKeepsInv(s, id, pvc);
  }

  lemma ClaimDeletedKeepsGood(s: State, id: string, owner: string -> string, on: set<string>)
    requires Good(s, owner, on) && id in s.pvcs && NothingOf(s, id)
    ensures var t := s.(pvcs := s.pvcs[id := s.pvcs[id].(terminating := true)]); Good(t, owner, on) && Owned(t)
  {
    var t := s.(pvcs := s.pvcs[id := s.pvcs[id].(terminating := true)]);
    assert forall v :: On(t, v) <==> On(s, v);
    ClaimDeletedKeepsInv(s, id);
  }

  // ---- The API server ----

  datatype ApiError = NotFound | AlreadyExists | Conflict | Unavailable

  datatype Answer<+T> = Ok(value: T) | Err(error: ApiError)

  class Cluster {
    const faulty: bool
    const still: bool                // for a while, the controllers of the host do nothing
    const owner: string -> string    // the claim a volume belongs to
    var st: State
    ghost var wanted: set<string>    // the NetworkFilesystems that are on
    ghost var alwaysOwned: bool      // `Owned` held after every call and every step of the host so far
    ghost var restoresFirst: bool    // no claim was deleted while a restore of its name existed

    constructor (faulty: bool, still: bool, owner: string -> string, st: State)
      ensures this.faulty == faulty && this.still == still && this.owner == owner && this.st == st
      ensures Inv(st) && Belongs(st, owner) ==> Sound()
    {
      this.faulty, this.still, this.owner, this.st := faulty, still, owner, st;
      wanted, alwaysOwned, restoresFirst := (set v | v in st.nfss && On(st, v)), Owned(st), true;
      if Inv(st) {
        InvImpliesOwned(st);
      }
    }

    /** Holds between any two calls. */
    ghost predicate Sound()
      reads this
    {
      Good(st, owner, wanted) && alwaysOwned && restoresFirst
    }

    ghost method Observe()
      modifies this`alwaysOwned
      ensures alwaysOwned == (old(alwaysOwned) && Owned(st))
    {
      alwaysOwned := alwaysOwned && Owned(st);
    }

    method Interfere()
      modifies this`st, this`alwaysOwned
      ensures EnvMoves(old(st), st) && (still ==> st == old(st))
      ensures old(Sound()) ==> Sound()
    {
      var t: State := *;
      if EnvMoves(st, t) && Belongs(t, owner) && (still ==> t == st) {
        st := t;
      }
      Observe();
      if old(Sound()) {
        if st == old(st) {
          InvImpliesOwned(st);
        } else {
          EnvKeepsGood(old(st), st, owner, wanted);
        }
      }
    }

    method GetPvc(id: string) returns (r: Answer<Pvc>)
      modifies this`st, this`alwaysOwned
      ensures EnvMoves(old(st), st) && (still ==> st == old(st)) && (old(Sound()) ==> Sound())
      ensures r.Ok? ==> id in st.pvcs && r.value == st.pvcs[id]
      ensures r == Err(NotFound) ==> id !in st.pvcs
      ensures r.Err? ==> r.error in {NotFound, Unavailable}
      ensures !faulty ==> r == if id in st.pvcs then Ok(st.pvcs[id]) else Err(NotFound)
    {
      Interfere();
      var fails: bool := *;
      if faulty && fails {
        return Err(Unavailable);
      }
      r := if id in st.pvcs then Ok(st.pvcs[id]) else Err(NotFound);
    }

    method GetVrr(id: string) returns (r: Answer<Vrr>)
      modifies this`st, this`alwaysOwned
      ensures EnvMoves(old(st), st) && (still ==> st == old(st)) && (old(Sound()) ==> Sound())
      ensures r.Ok? ==> id in st.vrrs && r.value == st.vrrs[id]
      ensures r == Err(NotFound) ==> id !in st.vrrs
      ensures r.Err? ==> r.error in {NotFound, Unavailable}
      ensures !faulty ==> r == if id in st.vrrs then Ok(st.vrrs[id]) else Err(NotFound)
    {
      Interfere();
      var fails: bool := *;
      if faulty && fails {
        return Err(Unavailable);
      }
      r := if id in st.vrrs then Ok(st.vrrs[id]) else Err(NotFound);
    }

    /** A request without a name is refused. */
    method GetNfs(name: string) returns (r: Answer<Nfs>)
      modifies this`st, this`alwaysOwned
      ensures EnvMoves(old(st), st) && (still ==> st == old(st)) && (old(Sound()) ==> Sound())
      ensures r.Ok? ==> name in st.nfss && r.value == st.nfss[name]
      ensures r == Err(NotFound) ==> name !in st.nfss
      ensures r.Err? ==> r.error in {NotFound, Unavailable}
      ensures name == "" ==> r == Err(Unavailable)
      ensures !faulty && name != "" ==> r == if name in st.nfss then Ok(st.nfss[name]) else Err(NotFound)
    {
      Interfere();
      var fails: bool := *;
      if name == "" || (faulty && fails) {
        return Err(Unavailable);
      }
      r := if name in st.nfss then Ok(st.nfss[name]) else Err(NotFound);
    }

    method CreatePvc(id: string, pvc: Pvc) returns (r: Answer<Pvc>, ghost mid: State)
      requires !pvc.terminating && pvc.volumeName == "" && !pvc.bound
      modifies this`st, this`alwaysOwned
      ensures EnvMoves(old(st), mid) && (still ==> mid == old(st)) && (old(Sound()) ==> Sound())
      ensures st == mid || (id !in mid.pvcs && st == mid.(pvcs := mid.pvcs[id := pvc]))
      ensures r.Ok? ==> id !in mid.pvcs && st == mid.(pvcs := mid.pvcs[id := pvc]) && r.value == pvc
      ensures !faulty ==> r == if id in mid.pvcs then Err(AlreadyExists) else Ok(pvc)
    {
      Interfere();
      mid := st;
      var fails: bool, lost: bool := *, *;
      if faulty && fails {
        return Err(Unavailable), mid;
      }
      if id in st.pvcs {
        return Err(AlreadyExists), mid;
      }
      st := st.(pvcs := st.pvcs[id := pvc]);
      Observe();
      if old(Sound()) {
        ClaimMadeKeepsGood(mid, id, pvc, owner, wanted);
      }
      r := if faulty && lost then Err(Unavailable) else Ok(pvc);
    }

    /** Deletion is accepted; finalizers hold the object until a later step of the host. */
    method DeletePvc(id: string) returns (r: Answer<()>, ghost mid: State)
      modifies this`st, this`alwaysOwned, this`restoresFirst
      ensures EnvMoves(old(st), mid) && (still ==> mid == old(st))
      ensures st == mid || (id in mid.pvcs && st == mid.(pvcs := mid.pvcs[id := mid.pvcs[id].(terminating := true)]))
      ensures r.Ok? ==> id in mid.pvcs && st == mid.(pvcs := mid.pvcs[id := mid.pvcs[id].(terminating := true)])
      ensures r == Err(NotFound) ==> id !in mid.pvcs && st == mid
      ensures r.Err? ==> r.error in {NotFound, Unavailable}
      ensures !faulty ==> r == if id in mid.pvcs then Ok(()) else Err(NotFound)
      // The deletion is safe when no restore has the name and the claim's NetworkFilesystem is on its way out.
      ensures old(Sound()) && id !in mid.vrrs && NothingOf(mid, id) ==> Sound()
    {
      Interfere();
      mid := st;
      var fails: bool, lost: bool := *, *;
      if faulty && fails {
        return Err(Unavailable), mid;
      }
      if id !in st.pvcs {
        return Err(NotFound), mid;
      }
      restoresFirst := restoresFirst && id !in st.vrrs;
      st := st.(pvcs := st.pvcs[id := st.pvcs[id].(terminating := true)]);
      Observe();
      if old(Sound()) && id !in mid.vrrs && NothingOf(mid, id) {
        ClaimDeletedKeepsGood(mid, id, owner, wanted);
      }
      r := if faulty && lost then Err(Unavailable) else Ok(());
    }

    method CreateVrr(id: string) returns (r: Answer<Vrr>, ghost mid: State)
      modifies this`st, this`alwaysOwned
      ensures EnvMoves(old(st), mid) && (still ==> mid == old(st)) && (old(Sound()) ==> Sound())
      ensures st == mid || (id !in mid.vrrs && st == mid.(vrrs := mid.vrrs[id := Vrr(false, false)]))
      ensures r.Ok? ==> id !in mid.vrrs && st == mid.(vrrs := mid.vrrs[id := Vrr(false, false)])
      ensures !faulty ==> r == if id in mid.vrrs then Err(AlreadyExists) else Ok(Vrr(false, false))
    {
      Interfere();
      mid := st;
      var fails: bool, lost: bool := *, *;
      if faulty && fails {
        return Err(Unavailable), mid;
      }
      if id in st.vrrs {
        return Err(AlreadyExists), mid;
      }
      st := st.(vrrs := st.vrrs[id := Vrr(false, false)]);
      Observe();
      if old(Sound()) {
        RestoresKeepGood(mid, st, owner, wanted);
      }
      r := if faulty && lost then Err(Unavailable) else Ok(Vrr(false, false));
    }

    method DeleteVrr(id: string) returns (r: Answer<()>, ghost mid: State)
      modifies this`st, this`alwaysOwned
      ensures EnvMoves(old(st), mid) && (still ==> mid == old(st)) && (old(Sound()) ==> Sound())
      ensures st == mid || (id in mid.vrrs && st == mid.(vrrs := mid.vrrs[id := mid.vrrs[id].(terminating := true)]))
      ensures r.Ok? ==> id in mid.vrrs && st == mid.(vrrs := mid.vrrs[id := mid.vrrs[id].(terminating := true)])
      ensures !faulty ==> (r.Ok? <==> id in mid.vrrs)
    {
      Interfere();
      mid := st;
      var fails: bool, lost: bool := *, *;
      if faulty && fails {
        return Err(Unavailable), mid;
      }
      if id !in st.vrrs {
        return Err(NotFound), mid;
      }
      st := st.(vrrs := st.vrrs[id := st.vrrs[id].(terminating := true)]);
      Observe();
      if old(Sound()) {
        RestoresKeepGood(mid, st, owner, wanted);
      }
      r := if faulty && lost then Err(Unavailable) else Ok(());
    }

    /** New NetworkFilesystems are created disabled. */
    method CreateNfs(name: string) returns (r: Answer<()>, ghost mid: State)
      modifies this`st, this`alwaysOwned
      ensures EnvMoves(old(st), mid) && (still ==> mid == old(st))
      ensures st == mid || (name != "" && name !in mid.nfss && st == mid.(nfss := mid.nfss[name := Nfs(0, Disabled, Down, false)]))
      ensures r.Ok? ==> name in st.nfss
      ensures r == Err(AlreadyExists) ==> name in mid.nfss && st == mid
      ensures !faulty && name != "" ==> r == if name in mid.nfss then Err(AlreadyExists) else Ok(())
      ensures old(Sound()) && (exists p :: p in mid.pvcs && Owns(mid.pvcs[p], name)) ==> Sound()
    {
      Interfere();
      mid := st;
      var fails: bool, lost: bool := *, *;
      if name == "" || (faulty && fails) {
        return Err(Unavailable), mid;
      }
      if name in st.nfss {
        return Err(AlreadyExists), mid;
      }
      st := st.(nfss := st.nfss[name := Nfs(0, Disabled, Down, false)]);
      Observe();
      if old(Sound()) && exists p :: p in mid.pvcs && Owns(mid.pvcs[p], name) {
        ghost var p :| p in mid.pvcs && Owns(mid.pvcs[p], name);
        NfsMadeKeepsGood(mid, name, p, owner, wanted);
      }
      r := if faulty && lost then Err(Unavailable) else Ok(());
    }

    /** Refused when the NetworkFilesystem was changed after the caller read it. */
    method UpdateNfs(name: string, seen: Nfs, desired: Desired) returns (r: Answer<()>, ghost mid: State)
      modifies this`st, this`alwaysOwned, this`wanted
      ensures EnvMoves(old(st), mid) && (still ==> mid == old(st)) && (old(Sound()) ==> Sound())
      ensures st == mid || Updated(mid, st, name, seen, desired)
      ensures r.Ok? ==> Updated(mid, st, name, seen, desired)
      ensures wanted == old(wanted) || wanted == Switch(old(wanted), name, desired)
      ensures !faulty ==> (r.Ok? <==> name in mid.nfss && mid.nfss[name].version == seen.version)
    {
      Interfere();
      mid := st;
      var fails: bool, lost: bool := *, *;
      if name !in st.nfss || (faulty && fails) {
        return Err(Unavailable), mid;
      }
      if st.nfss[name].version != seen.version {
        return Err(Conflict), mid;
      }
      st := st.(nfss := st.nfss[name := st.nfss[name].(desired := desired, version := seen.version + 1)]);
      if !mid.nfss[name].terminating {
        wanted := Switch(wanted, name, desired);
      }
      Observe();
      if old(Sound()) {
        UpdateKeepsGood(mid, st, name, seen, desired, owner, old(wanted));
      }
      r := if faulty && lost then Err(Unavailable) else Ok(());
    }

    method DeleteNfs(name: string) returns (r: Answer<()>, ghost mid: State)
      modifies this`st, this`alwaysOwned, this`wanted
      ensures EnvMoves(old(st), mid) && (still ==> mid == old(st)) && (old(Sound()) ==> Sound())
      ensures st == mid || (name in mid.nfss && st == mid.(nfss := mid.nfss[name := mid.nfss[name].(terminating := true)]))
      ensures r.Ok? ==> name in mid.nfss && st == mid.(nfss := mid.nfss[name := mid.nfss[name].(terminating := true)])
      ensures wanted == old(wanted) || wanted == old(wanted) - {name}
      ensures !faulty ==> (r.Ok? <==> name in mid.nfss)
    {
      Interfere();
      mid := st;
      var fails: bool, lost: bool := *, *;
      if faulty && fails {
        return Err(Unavailable), mid;
      }
      if name !in st.nfss {
        return Err(NotFound), mid;
      }
      st := st.(nfss := st.nfss[name := st.nfss[name].(terminating := true)]);
      wanted := wanted - {name};
      Observe();
      if old(Sound()) {
        NfsDeletedKeepsGood(mid, name, owner, old(wanted));
      }
      r := if faulty && lost then Err(Unavailable) else Ok(());
    }
  }

  function Switch(on: set<string>, name: string, desired: Desired): set<string> {
    if desired == Enabled then on + {name} else on - {name}
  }

  predicate Updated(mid: State, st: State, name: string, seen: Nfs, desired: Desired) {
    && name in mid.nfss && mid.nfss[name].version == seen.version
    && st == mid.(nfss := mid.nfss[name := mid.nfss[name].(desired := desired, version := seen.version + 1)])
  }

  /** No NetworkFilesystem that stays belongs to this claim. */
  predicate NothingOf(s: State, id: string) {
    id in s.pvcs && IsLHRWX(s.pvcs[id]) && s.pvcs[id].volumeName in s.nfss ==>
      s.nfss[s.pvcs[id].volumeName].terminating
  }

  lemma ClaimAddedKeepsInv(s: State, id: string, pvc: Pvc)
    requires Inv(s) && id !in s.pvcs
    ensures Inv(s.(pvcs := s.pvcs[id := pvc])) && Owned(s.(pvcs := s.pvcs[id := pvc]))
  {
    var t := s.(pvcs := s.pvcs[id := pvc]);
    forall v | v in t.nfss && !t.nfss[v].terminating
      ensures exists p :: p in t.pvcs && Owns(t.pvcs[p], v)
    {
      var p :| p in s.pvcs && Owns(s.pvcs[p], v);
      assert p in t.pvcs && Owns(t.pvcs[p], v);
    }
    InvImpliesOwned(t);
  }

  lemma ClaimDeletedKeepsInv(s: State, id: string)
    requires Inv(s) && id in s.pvcs && NothingOf(s, id)
    ensures var t := s.(pvcs := s.pvcs[id := s.pvcs[id].(terminating := true)]); Inv(t) && Owned(t)
  {
    var t := s.(pvcs := s.pvcs[id := s.pvcs[id].(terminating := true)]);
    forall v | v in t.nfss && !t.nfss[v].terminating
      ensures exists p :: p in t.pvcs && Owns(t.pvcs[p], v)
    {
      var p :| p in s.pvcs && Owns(s.pvcs[p], v);
      assert p in t.pvcs && Owns(t.pvcs[p], v);
    }
    InvImpliesOwned(t);
  }
}
