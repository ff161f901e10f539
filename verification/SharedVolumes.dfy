/** Publishing and unpublishing a shared (RWX) volume by switching its NetworkFilesystem on and off. */
module SharedVolumes {
  import opened Options
  import opened HostCluster
  import opened VolumeLifecycle
  import opened Replies

  // ---- The switch itself ----

  /** What a publish writes; None when it answers OK without writing. */
  function SwitchOn(n: Nfs): Option<Desired> {
    if n.desired == Enabled || n.status == Enabling then None else Some(Enabled)
  }

  /** What an unpublish of an unused volume writes. */
  function SwitchOff(n: Nfs): Option<Desired> {
    if n.desired == Disabled || n.status == Disabling then None else Some(Disabled)
  }

  /** Wanted disabled, and not on its way to being enabled. */
  predicate NeedsOn(n: Nfs) { n.desired == Disabled && n.status != Enabling }

  /** Wanted enabled, and not on its way to being disabled. */
  predicate NeedsOff(n: Nfs) { n.desired == Enabled && n.status != Disabling }

  function Written(n: Nfs, d: Option<Desired>): Nfs {
    match d
    case None => n
    case Some(desired) => n.(desired := desired, version := n.version + 1)
  }

  /** Being enabled only when wanted enabled. */
  predicate Steady(n: Nfs) { n.status == Enabling ==> n.desired == Enabled }

  /** Being disabled only when wanted disabled. */
  predicate SteadyOff(n: Nfs) { n.status == Disabling ==> n.desired == Disabled }

  /** An OK publish leaves the volume wanted enabled exactly when it was steady. */
  lemma PublishEnablesIffSteady(n: Nfs)
    ensures Written(n, SwitchOn(n)).desired == Enabled <==> Steady(n)
  {
  }

  /** The same the other way round, for an unpublish of a volume the index does not keep. */
  lemma UnpublishDisablesIffSteady(n: Nfs)
    ensures Written(n, SwitchOff(n)).desired == Disabled <==> SteadyOff(n)
  {
  }

  /** Steadiness gets lost: what a publish, a step of the host to being enabled, an unpublish and a publish leave of
      a disabled volume is wanted disabled.  `RepublishEnabling` runs the calls. */
  lemma RepublishWhileEnabling(v: nat)
    ensures var published := Written(Nfs(v, Disabled, Down, false), SwitchOn(Nfs(v, Disabled, Down, false)));
      var enabling := published.(status := Enabling, version := published.version + 1);
      var unpublished := Written(enabling, SwitchOff(enabling));
      && NfsMoves(published, enabling) && Steady(enabling)
      && SwitchOn(unpublished) == None && Written(unpublished, SwitchOn(unpublished)).desired == Disabled
  {
  }

  // ---- Publish ----

  /** What an OK publish promises. */
  predicate Switched(s: State, name: string) { name in s.nfss && (Steady(s.nfss[name]) ==> s.nfss[name].desired == Enabled) }

  /** What an OK answer leaves: the switch is written, or nothing had to be. */
  predicate Answered(read: State, met: State, st: State, name: string, d: Option<Desired>) {
    && name in read.nfss && name in met.nfss
    && st == met.(nfss := met.nfss[name := Written(met.nfss[name], d)])
  }

  /** Nobody wrote the NetworkFilesystem between its lookup and the update. */
  predicate Unwritten(read: State, met: State, name: string) {
    name in read.nfss && name in met.nfss && met.nfss[name].version == read.nfss[name].version
  }

  /** `seen` was looked up in `read`; `met` is the state the update meets. */
  method WriteDesired(c: Cluster, name: string, seen: Nfs, desired: Desired, ghost read: State) returns (r: Reply, ghost met: State)
    requires c.st == read && name in read.nfss && read.nfss[name] == seen
    modifies c`st, c`alwaysOwned, c`wanted
    ensures old(c.Sound()) ==> c.Sound()
    ensures EnvMoves(read, met) && (c.still ==> met == read)
    ensures r in {OK, Internal} && (r == OK ==> Answered(read, met, c.st, name, Some(desired)))
    ensures c.st == met || Updated(met, c.st, name, seen, desired)
    ensures c.wanted == old(c.wanted) || c.wanted == Switch(old(c.wanted), name, desired)
    ensures !c.faulty ==> (r == OK <==> Unwritten(read, met, name))
  {
    var written;
    written, met := c.UpdateNfs(name, seen, desired);
    r := if written.Ok? then OK else Internal;
  }

  /** `read` is the state the NetworkFilesystem is looked up in, `met` the one the write meets. */
  method PublishRWXVolume(c: Cluster, id: string, pvc: Pvc) returns (r: Reply, ghost read: State, ghost met: State)
    requires IsLHRWX(pvc)
    modifies c`st, c`alwaysOwned, c`wanted
    ensures old(c.Sound()) && id in old(c.st).pvcs && old(c.st).pvcs[id] == pvc && !pvc.restored ==> c.Sound()
    ensures EnvMoves(old(c.st), read) && (met == read || EnvMoves(read, met)) && (c.still ==> read == met == old(c.st))
    ensures old(c.wanted) <= c.wanted
    ensures r in {OK, Internal} && (r == OK ==> pvc.volumeName in read.nfss)
    ensures r == OK ==> Answered(read, met, c.st, pvc.volumeName, SwitchOn(read.nfss[pvc.volumeName]))
    ensures r == OK ==> Switched(c.st, pvc.volumeName)
    // It ends wanted enabled exactly when it was steady.
    ensures r == OK ==> (c.st.nfss[pvc.volumeName].desired == Enabled <==> Steady(read.nfss[pvc.volumeName]))
    // Without failures, OK if it is there and, when something is to be written, nobody wrote it in between.
    ensures !c.faulty && pvc.volumeName != "" ==>
      (r == OK <==> && pvc.volumeName in read.nfss
                    && (NeedsOn(read.nfss[pvc.volumeName]) ==> Unwritten(read, met, pvc.volumeName)))
    // A missing NetworkFilesystem is made again, disabled, only for a claim not being deleted, and never answered with OK.
    ensures pvc.terminating ==> c.st.nfss.Keys <= old(c.st).nfss.Keys
    ensures c.st.nfss.Keys <= old(c.st).nfss.Keys + {pvc.volumeName}
    ensures pvc.volumeName !in old(c.st).nfss || pvc.volumeName == "" ==> r == Internal
    ensures !c.faulty && pvc.volumeName != "" && !pvc.terminating ==> pvc.volumeName in c.st.nfss || pvc.volumeName in read.nfss
    ensures ClaimFollows(old(c.st), c.st, id)
  {
    r := Internal;
    var nfs := c.GetNfs(pvc.volumeName);
    read, met := c.st, c.st;
    if nfs.Err? && nfs.error != NotFound {
      return;
    }
    if nfs.Err? && !pvc.terminating {
      met := RecreateNetworkFilesystem(c, id, pvc);
      Follows(old(c.st), read, met, c.st, id);
      return;
    }
    if nfs.Err? {
      // The lookup left an object without a name, and its update is refused.
      return;
    }
    r, met := SwitchOnFound(c, pvc.volumeName, nfs.value, read);
    Follows(old(c.st), read, met, c.st, id);
  }

  lemma Follows(s: State, read: State, met: State, t: State, id: string)
    requires EnvMoves(s, read) && (met == read || EnvMoves(read, met)) && t.pvcs == met.pvcs
    ensures ClaimFollows(s, t, id)
    ensures met.nfss.Keys <= s.nfss.Keys
  {
    if id !in s.vrrs {
      FollowsTwice(s, read, met, id);
    }
  }

  /** The part of a publish that writes the switch, the NetworkFilesystem just read. */
  method SwitchOnFound(c: Cluster, name: string, seen: Nfs, ghost read: State) returns (r: Reply, ghost met: State)
    requires c.st == read && name in read.nfss && read.nfss[name] == seen
    modifies c`st, c`alwaysOwned, c`wanted
    ensures old(c.Sound()) ==> c.Sound()
    ensures (met == read || EnvMoves(read, met)) && c.st.nfss.Keys == met.nfss.Keys && c.st.pvcs == met.pvcs && c.st.vrrs == met.vrrs
    ensures c.still ==> met == read
    ensures old(c.wanted) <= c.wanted
    ensures r in {OK, Internal} && (r == OK ==> Answered(read, met, c.st, name, SwitchOn(seen)))
    ensures r == OK ==> Switched(c.st, name) && (c.st.nfss[name].desired == Enabled <==> Steady(seen))
    ensures !c.faulty ==> (r == OK <==> (SwitchOn(seen).Some? ==> Unwritten(read, met, name)))
  {
    met := read;
    if seen.desired == Enabled || seen.status == Enabling {
      return OK, met;
    }
    r, met := WriteDesired(c, name, seen, Enabled, read);
  }

  /** Gives a live claim its NetworkFilesystem again. */
  method RecreateNetworkFilesystem(c: Cluster, ghost id: string, pvc: Pvc) returns (ghost met: State)
    requires IsLHRWX(pvc) && !pvc.terminating && pvc.volumeName != ""
    modifies c`st, c`alwaysOwned
    ensures EnvMoves(old(c.st), met) && (c.still ==> met == old(c.st))
    ensures c.st == met || c.st == met.(nfss := met.nfss[pvc.volumeName := Nfs(0, Disabled, Down, false)])
    ensures !c.faulty ==> pvc.volumeName in c.st.nfss
    ensures old(c.Sound()) && id in old(c.st).pvcs && PvcMoves(pvc, old(c.st).pvcs[id]) && !pvc.restored ==> c.Sound()
  {
    var made;
    made, met := CreateNetworkFilesystem(c, pvc.volumeName);
    assert id in old(c.st).pvcs && PvcMoves(pvc, old(c.st).pvcs[id]) && !pvc.restored ==>
      Owns(met.pvcs[id], pvc.volumeName);
  }

  /** An OK publish of a shared volume, read in `read`: it is there, and wanted enabled exactly if it was steady. */
  predicate SwitchedOn(read: State, t: State, name: string) {
    && name in read.nfss && name in t.nfss
    && (t.nfss[name].desired == Enabled <==> (read.nfss[name].status == Enabling ==> read.nfss[name].desired == Enabled))
  }

  /** A claim that is there and bound and, if it is a shared one, has its NetworkFilesystem. */
  predicate Shared(s: State, id: string) {
    && id in s.pvcs && s.pvcs[id].bound
    && (IsLHRWX(s.pvcs[id]) ==> s.pvcs[id].volumeName != "" && s.pvcs[id].volumeName in s.nfss)
  }

  /** Publishing with a multi-node capability: `seen` is the state the claim is read in, `read` the one its
      NetworkFilesystem is. */
  method PublishShared(c: Cluster, id: string) returns (r: Reply, ghost seen: State, ghost read: State)
    modifies c`st, c`alwaysOwned, c`wanted
    ensures old(c.wanted) <= c.wanted
    ensures old(c.Sound()) && !Restored(old(c.st), id) ==> c.Sound()
    ensures EnvMoves(old(c.st), seen) && (read == seen || EnvMoves(seen, read)) && (c.still ==> seen == read == old(c.st))
    ensures r in {OK, Internal, Aborted}
    ensures r == OK ==> id in seen.pvcs && seen.pvcs[id].bound
    ensures r == OK && IsLHRWX(seen.pvcs[id]) ==> SwitchedOn(read, c.st, seen.pvcs[id].volumeName)
    ensures r == OK && id in c.st.pvcs && IsLHRWX(c.st.pvcs[id]) && !Restored(old(c.st), id) ==>
      Switched(c.st, c.st.pvcs[id].volumeName)
    ensures !c.faulty && Mine(old(c.st), id) && old(c.st).pvcs[id].bound && !IsLHRWX(old(c.st).pvcs[id]) ==>
      r == OK && c.st.nfss.Keys <= old(c.st).nfss.Keys
    ensures !c.faulty && id !in seen.pvcs ==> r == Internal
    ensures !c.faulty && id in seen.pvcs && !seen.pvcs[id].bound ==> r == Aborted
    ensures !c.faulty && c.still ==> (r == OK <==> Shared(old(c.st), id))
  {
    var pvc := c.GetPvc(id);
    seen, read := c.st, c.st;
    if pvc.Err? {
      return Internal, seen, read;
    }
    if !pvc.value.bound {
      return Aborted, seen, read;
    }
    r := OK;
    if IsLHRWX(pvc.value) {
      ghost var met;
      r, read, met := PublishRWXVolume(c, id, pvc.value);
    }
  }

  /** Publishing a restored volume to many nodes would break ownership: its claim goes with the restore. */
  lemma RestoredOwnerCanVanish(s: State, id: string)
    requires id in s.pvcs && s.pvcs[id].restored
    requires s.pvcs[id].volumeName in s.nfss && !s.nfss[s.pvcs[id].volumeName].terminating
    requires forall p :: p in s.pvcs && p != id ==> s.pvcs[p].volumeName != s.pvcs[id].volumeName
    ensures var t := s.(pvcs := s.pvcs - {id}); EnvMoves(s, t) && !Owned(t)
  {
    var t := s.(pvcs := s.pvcs - {id});
    var v := s.pvcs[id].volumeName;
    assert v in t.nfss && !t.nfss[v].terminating;
  }

  // ---- Unpublish ----

  datatype Pod = Pod(namespace: string, claims: set<string>, running: bool)

  /** The guest cluster: the claim each volume is bound to, its pods, and whether their index answers. */
  datatype Guest = Guest(claimOf: map<string, (string, string)>, pods: seq<Pod>, indexAnswers: bool)

  function IndexKey(namespace: string, claim: string): string { namespace + "-" + claim }

  /** The index holds a pod under the keys of its claims, and only while it is running. */
  predicate Under(p: Pod, key: string) {
    p.running && exists claim :: claim in p.claims && IndexKey(p.namespace, claim) == key
  }

  /** The pods the index holds under a key. */
  function Indexed(pods: seq<Pod>, key: string): seq<Pod> {
    if pods == [] then []
    else if Under(pods[0], key) then [pods[0]] + Indexed(pods[1..], key)
    else Indexed(pods[1..], key)
  }

  predicate Uses(p: Pod, namespace: string, claim: string) { p.namespace == namespace && claim in p.claims }

  predicate InUse(g: Guest, volume: string) {
    volume in g.claimOf && exists p :: p in g.pods && Uses(p, g.claimOf[volume].0, g.claimOf[volume].1)
  }

  predicate UsedByRunning(g: Guest, volume: string) {
    volume in g.claimOf && exists p :: p in g.pods && p.running && Uses(p, g.claimOf[volume].0, g.claimOf[volume].1)
  }

  /** A running pod has another claim that comes out under the same key. */
  ghost predicate Collides(g: Guest, volume: string) {
    && volume in g.claimOf
    && exists p, claim :: p in g.pods && p.running && claim in p.claims && (p.namespace, claim) != g.claimOf[volume]
                          && IndexKey(p.namespace, claim) == IndexKey(g.claimOf[volume].0, g.claimOf[volume].1)
  }

  /** The index answers and lists some pod for the volume. */
  predicate Kept(g: Guest, id: string) {
    g.indexAnswers && id in g.claimOf && Indexed(g.pods, IndexKey(g.claimOf[id].0, g.claimOf[id].1)) != []
  }

  lemma {:induction false} IndexedIff(pods: seq<Pod>, key: string)
    ensures Indexed(pods, key) != [] <==> exists p :: p in pods && Under(p, key)
  {
    if pods != [] {
      IndexedIff(pods[1..], key);
      assert forall p :: p in pods <==> p == pods[0] || p in pods[1..];
    }
  }

  /** The index keeps a volume exactly when a running pod uses it, or has a claim with the same key. */
  lemma IndexKeepsIff(g: Guest, id: string)
    ensures Kept(g, id) <==> g.indexAnswers && (UsedByRunning(g, id) || Collides(g, id))
  {
    if id in g.claimOf {
      var (namespace, name) := g.claimOf[id];
      IndexedIff(g.pods, IndexKey(namespace, name));
      if UsedByRunning(g, id) {
        var p :| p in g.pods && p.running && Uses(p, namespace, name);
        assert name in p.claims && Under(p, IndexKey(namespace, name));
      }
      if Collides(g, id) {
        var p, claim :| p in g.pods && p.running && claim in p.claims && IndexKey(p.namespace, claim) == IndexKey(namespace, name);
        assert Under(p, IndexKey(namespace, name));
      }
      if Kept(g, id) && !UsedByRunning(g, id) {
        var p :| p in g.pods && Under(p, IndexKey(namespace, name));
        var claim :| claim in p.claims && IndexKey(p.namespace, claim) == IndexKey(namespace, name);
        assert !Uses(p, namespace, name);
      }
    }
  }

  /** Keys do collide: a hyphen may belong to the namespace or to the claim. */
  lemma IndexKeysCollide(g: Guest, id: string, namespace: string, a: string, b: string, p: Pod)
    requires id in g.claimOf && g.claimOf[id] == (namespace, a + "-" + b)
    requires p in g.pods && p.running && p.namespace == namespace + "-" + a && b in p.claims
    ensures Collides(g, id) && (g.indexAnswers ==> Kept(g, id))
  {
    assert IndexKey(namespace, a + "-" + b) == IndexKey(namespace + "-" + a, b);
    assert |p.namespace| > |namespace|;
    IndexKeepsIff(g, id);
  }

  /** An OK unpublish of a shared volume, read in `read`: it is there, wanted as before if the index keeps it, and
      else wanted disabled exactly if being disabled meant wanted disabled. */
  predicate SwitchedOff(g: Guest, id: string, read: State, t: State, name: string) {
    && name in read.nfss && name in t.nfss
    && (if Kept(g, id) then t.nfss[name].desired == read.nfss[name].desired
        else t.nfss[name].desired == Disabled <==> (read.nfss[name].status == Disabling ==> read.nfss[name].desired == Disabled))
  }

  /** The part of an unpublish that looks for users, the NetworkFilesystem just read. */
  method SwitchOffUnused(c: Cluster, g: Guest, id: string, name: string, seen: Nfs, ghost read: State)
    returns (r: Reply, ghost met: State)
    requires c.st == read && name in read.nfss && read.nfss[name] == seen
    modifies c`st, c`alwaysOwned, c`wanted
    ensures old(c.Sound()) ==> c.Sound()
    ensures (met == read || EnvMoves(read, met)) && (c.still ==> met == read)
    ensures c.st == met || (!Kept(g, id) && Updated(met, c.st, name, seen, Disabled))
    ensures c.wanted == old(c.wanted) || (!Kept(g, id) && c.wanted == old(c.wanted) - {name})
    ensures r in {OK, Internal}
    ensures r == OK ==> Answered(read, met, c.st, name, if Kept(g, id) then None else Some(Disabled))
    ensures !c.faulty ==> (r == OK <==> id in g.claimOf && (Kept(g, id) || Unwritten(read, met, name)))
  {
    met := read;
    if id !in g.claimOf {
      return Internal, met;
    }
    var (namespace, claim) := g.claimOf[id];
    if g.indexAnswers && |Indexed(g.pods, IndexKey(namespace, claim))| > 0 {
      return OK, met;
    }
    r, met := WriteDesired(c, name, seen, Disabled, read);
  }

  lemma OnlySwitchedOff(s: State, read: State, met: State, t: State, name: string, seen: Nfs, kept: bool)
    requires EnvMoves(s, read) && (met == read || EnvMoves(read, met))
    requires t == met || (!kept && Updated(met, t, name, seen, Disabled))
    ensures t.nfss.Keys <= s.nfss.Keys && t.pvcs == met.pvcs
    ensures forall v :: v in t.nfss && v in s.nfss && t.nfss[v].desired != s.nfss[v].desired ==>
      v == name && t.nfss[v].desired == Disabled && !kept
  {
    assert t.nfss.Keys == met.nfss.Keys <= read.nfss.Keys;
    assert forall v :: v in met.nfss && v in s.nfss ==> met.nfss[v].desired == s.nfss[v].desired;
  }

  method UnpublishRWXVolume(c: Cluster, g: Guest, id: string, pvc: Pvc) returns (r: Reply, ghost read: State, ghost met: State)
    modifies c`st, c`alwaysOwned, c`wanted
    ensures old(c.Sound()) ==> c.Sound()
    ensures EnvMoves(old(c.st), read) && (met == read || EnvMoves(read, met)) && (c.still ==> read == met == old(c.st))
    // Only this volume can be switched off, and not one the index keeps.
    ensures forall v :: v in c.st.nfss && v in old(c.st).nfss && c.st.nfss[v].desired != old(c.st).nfss[v].desired ==>
      v == pvc.volumeName && c.st.nfss[v].desired == Disabled && !Kept(g, id)
    ensures c.st.nfss.Keys <= old(c.st).nfss.Keys
    ensures c.wanted == old(c.wanted) || (!Kept(g, id) && pvc.volumeName != "" && c.wanted == old(c.wanted) - {pvc.volumeName})
    ensures r in {OK, Internal} && (r == OK ==> pvc.volumeName in read.nfss)
    ensures r == OK ==>
      Answered(read, met, c.st, pvc.volumeName, if Kept(g, id) then None else SwitchOff(read.nfss[pvc.volumeName]))
    ensures r == OK ==> SwitchedOff(g, id, read, c.st, pvc.volumeName)
    // A missing NetworkFilesystem is an error, not a volume already unpublished.
    ensures !c.faulty && pvc.volumeName != "" ==>
      (r == OK <==> && pvc.volumeName in read.nfss
                    && (NeedsOff(read.nfss[pvc.volumeName]) ==>
                          id in g.claimOf && (Kept(g, id) || Unwritten(read, met, pvc.volumeName))))
    ensures c.st.pvcs == met.pvcs
  {
    r := Internal;
    var nfs := c.GetNfs(pvc.volumeName);
    read, met := c.st, c.st;
    if nfs.Err? {
      return;
    }
    if nfs.value.desired == Disabled || nfs.value.status == Disabling {
      r := OK;
      return;
    }
    r, met := SwitchOffUnused(c, g, id, pvc.volumeName, nfs.value, read);
    OnlySwitchedOff(old(c.st), read, met, c.st, pvc.volumeName, nfs.value, Kept(g, id));
  }

  /** Without failures and with the host still: an unpublish switches a wanted volume off exactly when the index
      does not keep it, so a volume used by pods that have not started yet is switched off under them. */
  method UnpublishWanted(c: Cluster, g: Guest, id: string, pvc: Pvc) returns (r: Reply)
    requires !c.faulty && c.still && pvc.volumeName != "" && pvc.volumeName in c.st.nfss && id in g.claimOf
    requires c.st.nfss[pvc.volumeName].desired == Enabled && c.st.nfss[pvc.volumeName].status != Disabling
    modifies c
    ensures r == OK && pvc.volumeName in c.st.nfss
    ensures c.st.nfss[pvc.volumeName].desired ==
      if g.indexAnswers && (UsedByRunning(g, id) || Collides(g, id)) then Enabled else Disabled
    ensures c.st == old(c.st).(nfss := old(c.st).nfss[pvc.volumeName :=
      Written(old(c.st).nfss[pvc.volumeName], if Kept(g, id) then None else Some(Disabled))])
    ensures InUse(g, id) && (forall p :: p in g.pods ==> !p.running) ==> c.st.nfss[pvc.volumeName].desired == Disabled
  {
    ghost var read, met;
    r, read, met := UnpublishRWXVolume(c, g, id, pvc);
    IndexKeepsIff(g, id);
  }

  /** The driver's own calls lose steadiness: a volume that is still being enabled when it is unpublished and
      published again is answered OK twice and ends wanted disabled. */
  method RepublishEnabling(c: Cluster, g: Guest, id: string, pvc: Pvc) returns (unpublished: Reply, published: Reply)
    requires !c.faulty && c.still && IsLHRWX(pvc) && pvc.volumeName != "" && pvc.volumeName in c.st.nfss && id in g.claimOf
    requires c.st.nfss[pvc.volumeName].desired == Enabled && c.st.nfss[pvc.volumeName].status == Enabling && !Kept(g, id)
    modifies c
    ensures unpublished == published == OK
    ensures pvc.volumeName in c.st.nfss && c.st.nfss[pvc.volumeName].desired == Disabled
  {
    unpublished := UnpublishWanted(c, g, id, pvc);
    ghost var read, met;
    published, read, met := PublishRWXVolume(c, id, pvc);
  }
}
