/**
 * Whole runs of the hot-plug protocol: any number of adds, removes and remove-alls on one virtual
 * machine, interleaved in any way with each other and with other writers of the machine.
 */
module HotplugProtocol {
  import opened Options
  import opened OptimisticStore
  import opened NamedItems
  import opened VirtualMachine

  type Cluster = System<Op, Spec>

  type Happening = Event<Op, Spec>

  type Write = Entry<Op, Spec>

  function Final(s: Cluster, es: seq<Happening>): Spec { Run(Serve, s, es).current.content }

  function Writes(s: Cluster, es: seq<Happening>): seq<Write> { Log(Serve, s, es) }

  /** The spec just before the k-th committed write. */
  function Before(vm: VM, log: seq<Write>, k: nat): Spec
    requires k <= |log|
  {
    Replay(Serve, vm, log[..k]).content
  }

  // ---- One write ----

  function Written(write: Write, spec: Spec): Spec {
    match write
    case ByWriter(op) => if Sends(op, spec) && Patchable(op, spec) then Effect(op, spec) else spec
    case ByOther(content) => content
  }

  lemma ApplyWrites(vm: VM, write: Write)
    ensures Apply(Serve, vm, write).content == Written(write, vm.content)
  {
    if write.ByWriter? {
      ServeIsEffect(write.op, vm);
    }
  }

  /** Whether a write touches entries with one of these names. */
  predicate Touches(write: Write, spec: Spec, names: set<string>) {
    match write
    case ByWriter(Add(id)) => id in names
    case ByWriter(Remove(id)) => id in names
    case ByWriter(RemoveAll) => !(HotplugNames(Volumes(spec)) !! names)
    case ByOther(content) =>
      || Only(Volumes(content), names) != Only(Volumes(spec), names)
      || Only(Disks(content), names) != Only(Disks(spec), names)
  }

  predicate SameFor(a: Spec, b: Spec, names: set<string>) {
    && Only(Volumes(a), names) == Only(Volumes(b), names)
    && Only(Disks(a), names) == Only(Disks(b), names)
  }

  lemma UntouchedBySame(write: Write, spec: Spec, names: set<string>)
    requires !Touches(write, spec, names)
    ensures SameFor(Written(write, spec), spec, names)
  {
    if write.ByWriter? {
      match write.op
      case Add(id) =>
        Snoc(Volumes(spec), HotplugVolume(id), names);
        Snoc(Disks(spec), HotplugDisk(id), names);
      case Remove(id) =>
        OnlyWithout(Volumes(spec), {id}, names);
        OnlyWithout(Disks(spec), {id}, names);
      case RemoveAll =>
        var hot := HotplugNames(Volumes(spec));
        OnlyWithout(Volumes(spec), hot, names);
        OnlyWithout(Disks(spec), hot, names);
    }
  }

  /** From `before` to `after`: an entry of the item's name is there, the item itself if there was none, no second
      one was added, and nothing else changed. */
  ghost predicate Completed<B>(before: seq<Item<B>>, after: seq<Item<B>>, item: Item<B>) {
    && Only(after, {item.name}) == (if Has(before, item.name) then Only(before, {item.name}) else [item])
    && Has(after, item.name)
    && (Unique(before) ==> |Only(after, {item.name})| == 1)
    && Without(after, {item.name}) == Without(before, {item.name})
  }

  lemma IncludingCompletes<B>(list: Option<seq<Item<B>>>, item: Item<B>)
    ensures Completed(Items(list), Items(Including(list, item)), item)
  {
    var before := Items(list);
    Snoc(before, item, {item.name});
    HasOnly(before, item.name);
    if Unique(before) {
      UniqueOnly(before, item.name);
    }
  }

  /** An add that finds the volume, the disk, both or neither completes both lists. */
  lemma AddCompletes(id: string, spec: Spec)
    ensures var after := Effect(Add(id), spec);
      && Completed(Volumes(spec), Volumes(after), HotplugVolume(id))
      && Completed(Disks(spec), Disks(after), HotplugDisk(id))
  {
    IncludingCompletes(spec.volumes, HotplugVolume(id));
    IncludingCompletes(spec.disks, HotplugDisk(id));
  }

  /** What is added: a volume that is the claim of its name, hot-pluggable, and a scsi disk. */
  lemma AddedEntries(id: string, spec: Spec)
    ensures var after := Effect(Add(id), spec);
      && Volumes(after) == Volumes(spec) + (if Has(Volumes(spec), id) then [] else [Item(id, Claim(id, true))])
      && Disks(after) == Disks(spec) + (if Has(Disks(spec), id) then [] else [Item(id, DiskTarget("scsi"))])
  {
  }

  /** So a removal of all hot-plugged volumes finds it, and takes it out again. */
  lemma RemoveAllFindsAdded(id: string, spec: Spec)
    requires !Has(Volumes(spec), id)
    ensures id in HotplugNames(Volumes(Effect(Add(id), spec)))
    ensures var after := Effect(RemoveAll, Effect(Add(id), spec)); !Has(Volumes(after), id) && !Has(Disks(after), id)
  {
    var added := Effect(Add(id), spec);
    AddedEntries(id, spec);
    assert Volumes(added)[|Volumes(spec)|] == Item(id, Claim(id, true));
    RemovalClears(added, HotplugNames(Volumes(added)), id);
  }

  lemma AddIsThere(id: string, spec: Spec)
    ensures Has(Volumes(Effect(Add(id), spec)), id) && Has(Disks(Effect(Add(id), spec)), id)
  {
    Snoc(Volumes(spec), HotplugVolume(id), {});
    Snoc(Disks(spec), HotplugDisk(id), {});
  }

  lemma RemovalClears(spec: Spec, names: set<string>, id: string)
    ensures var after := WithoutNames(spec, names);
      && (Has(Volumes(after), id) <==> Has(Volumes(spec), id) && id !in names)
      && (Has(Disks(after), id) <==> Has(Disks(spec), id) && id !in names)
  {
    HasWithout(Volumes(spec), names, id);
    HasWithout(Disks(spec), names, id);
  }

  // ---- Whole runs ----

  /** Every accepted patch in any interleaving had the operation's effect on the spec it found. */
  lemma EveryPatchHasItsEffect(s: Cluster, es: seq<Happening>, k: nat)
    requires Coherent(s)
    requires k < |Writes(s, es)| && Writes(s, es)[k].ByWriter?
    ensures var log := Writes(s, es);
      && Sends(log[k].op, Before(s.current, log, k))
      && Before(s.current, log, k + 1) == Effect(log[k].op, Before(s.current, log, k))
    ensures Final(s, es) == Before(s.current, Writes(s, es), |Writes(s, es)|)
  {
    ServeIsGuarded();
    WriteInPlace(Serve, s, es, k);
    var log := Writes(s, es);
    ServeIsEffect(log[k].op, Replay(Serve, s.current, log[..k]));
  }

  /** A send whose copy is stale changes nothing; one whose copy is fresh does the whole operation. */
  lemma SendOutcome(s: Cluster, id: nat)
    requires Coherent(s)
    requires id in s.writers
    ensures var w, spec := s.writers[id], s.current.content;
      Step(Serve, s, Send(id)).current.content ==
        if w.seen.version == s.current.version && Sends(w.op, spec) && Patchable(w.op, spec)
        then Effect(w.op, spec) else spec
    ensures s.writers[id].seen.version != s.current.version ==> Step(Serve, s, Send(id)).current == s.current
  {
    ServeIsGuarded();
    SendIsAtomicOrNothing(Serve, s, id);
    ServeIsEffect(s.writers[id].op, s.current);
  }

  lemma {:induction false} UntouchedKept(vm: VM, log: seq<Write>, k: nat, names: set<string>)
    requires k <= |log|
    requires forall j :: k <= j < |log| ==> !Touches(log[j], Before(vm, log, j), names)
    ensures SameFor(Replay(Serve, vm, log).content, Before(vm, log, k), names)
  {
    if k == |log| {
      assert log[..k] == log;
    } else {
      var init := log[..|log| - 1];
      forall j | k <= j < |init|
        ensures !Touches(init[j], Before(vm, init, j), names)
      {
        assert init[..j] == log[..j];
      }
      UntouchedKept(vm, init, k, names);
      assert init[..k] == log[..k];
      var here := Replay(Serve, vm, init);
      ApplyWrites(vm := here, write := log[|log| - 1]);
      UntouchedBySame(log[|log| - 1], here.content, names);
    }
  }

  /** What a write that touches `id` makes of it: whether the volume and the disk are there. */
  function Verdict(write: Write, id: string): (bool, bool) {
    match write
    case ByWriter(op) => (op.Add?, op.Add?)
    case ByOther(content) => (Has(Volumes(content), id), Has(Disks(content), id))
  }

  /** No lost update: the last committed write that touches a name decides whether it is there. */
  lemma LastWriteDecides(s: Cluster, es: seq<Happening>, k: nat, id: string)
    requires Coherent(s)
    requires k < |Writes(s, es)|
    requires Touches(Writes(s, es)[k], Before(s.current, Writes(s, es), k), {id})
    requires forall j :: k < j < |Writes(s, es)| ==>
      !Touches(Writes(s, es)[j], Before(s.current, Writes(s, es), j), {id})
    ensures (Has(Volumes(Final(s, es)), id), Has(Disks(Final(s, es)), id)) == Verdict(Writes(s, es)[k], id)
  {
    var log := Writes(s, es);
    var before, after := Before(s.current, log, k), Before(s.current, log, k + 1);
    ServeIsGuarded();
    Serializable(Serve, s, es);
    assert log[..k + 1][..k] == log[..k];
    ApplyWrites(Replay(Serve, s.current, log[..k]), log[k]);
    if log[k].ByWriter? {
      EveryPatchHasItsEffect(s, es, k);
    }
    VerdictHolds(log[k], before, after, id);
    UntouchedKept(s.current, log, k + 1, {id});
    SameForSame(after, Final(s, es), id);
  }

  lemma VerdictHolds(write: Write, before: Spec, after: Spec, id: string)
    requires Touches(write, before, {id})
    requires after == match write case ByWriter(op) => Effect(op, before) case ByOther(content) => content
    ensures (Has(Volumes(after), id), Has(Disks(after), id)) == Verdict(write, id)
  {
    if write.ByWriter? {
      match write.op
      case Add(_) => AddIsThere(id, before);
      case Remove(_) => RemovalClears(before, {id}, id);
      case RemoveAll => RemovalClears(before, HotplugNames(Volumes(before)), id);
    }
  }

  lemma SameForSame(a: Spec, b: Spec, id: string)
    requires SameFor(a, b, {id})
    ensures Has(Volumes(a), id) == Has(Volumes(b), id)
    ensures Has(Disks(a), id) == Has(Disks(b), id)
  {
    HasOnly(Volumes(a), id);
    HasOnly(Disks(a), id);
    HasOnly(Volumes(b), id);
    HasOnly(Disks(b), id);
  }

  /** Volumes and disks nobody targets and that are not hot-pluggable keep their value and order forever. */
  lemma BystandersKept(s: Cluster, es: seq<Happening>, names: set<string>)
    requires Coherent(s)
    requires HotplugNames(Volumes(s.current.content)) !! names
    requires forall k :: 0 <= k < |Writes(s, es)| ==>
      match Writes(s, es)[k]
      case ByWriter(op) => op.RemoveAll? || op.id !in names
      case ByOther(content) => SameFor(content, s.current.content, names)
    ensures SameFor(Final(s, es), s.current.content, names)
  {
    ServeIsGuarded();
    Serializable(Serve, s, es);
    BystandersReplay(s.current, Writes(s, es), names);
  }

  lemma {:induction false} BystandersReplay(vm: VM, log: seq<Write>, names: set<string>)
    requires HotplugNames(Volumes(vm.content)) !! names
    requires forall k :: 0 <= k < |log| ==>
      match log[k]
      case ByWriter(op) => op.RemoveAll? || op.id !in names
      case ByOther(content) => SameFor(content, vm.content, names)
    ensures SameFor(Replay(Serve, vm, log).content, vm.content, names)
  {
    if log != [] {
      var init, last := log[..|log| - 1], log[|log| - 1];
      BystandersReplay(vm, init, names);
      var here := Replay(Serve, vm, init);
      HotplugNamesOnly(Volumes(vm.content), names);
      HotplugNamesOnly(Volumes(here.content), names);
      ApplyWrites(here, last);
      UntouchedBySame(last, here.content, names);
    }
  }

  /** Names are unique and every hot-plugged volume has its disk. */
  ghost predicate WellFormed(spec: Spec) {
    && Unique(Volumes(spec))
    && Unique(Disks(spec))
    && forall n :: n in HotplugNames(Volumes(spec)) ==> Has(Disks(spec), n)
  }

  lemma EffectKeepsWellFormed(op: Op, spec: Spec)
    requires WellFormed(spec)
    ensures WellFormed(Effect(op, spec))
  {
    match op
    case Add(id) =>
      var vs, v, d := Volumes(spec), HotplugVolume(id), HotplugDisk(id);
      Snoc(Disks(spec), d, {});
      assert (vs + [v])[..|vs|] == vs;
    case Remove(id) => RemovalKeepsWellFormed(spec, {id});
    case RemoveAll => RemovalKeepsWellFormed(spec, HotplugNames(Volumes(spec)));
  }

  lemma RemovalKeepsWellFormed(spec: Spec, names: set<string>)
    requires WellFormed(spec)
    ensures WellFormed(WithoutNames(spec, names))
  {
    UniqueWithout(Volumes(spec), names);
    UniqueWithout(Disks(spec), names);
    HotplugNamesWithout(Volumes(spec), names);
    forall n | n in HotplugNames(Without(Volumes(spec), names))
      ensures Has(Without(Disks(spec), names), n)
    {
      HasWithout(Disks(spec), names, n);
    }
  }

  lemma {:induction false} HotplugNamesWithout(vs: seq<Volume>, names: set<string>)
    ensures HotplugNames(Without(vs, names)) == HotplugNames(vs) - names
  {
    if vs != [] {
      var init := Without(vs[..|vs| - 1], names);
      HotplugNamesWithout(vs[..|vs| - 1], names);
      assert (init + [vs[|vs| - 1]])[..|init|] == init;
    }
  }

  /** Every reachable spec is well formed, as long as the other writers write well-formed specs. */
  lemma {:induction false} AlwaysWellFormed(s: Cluster, es: seq<Happening>)
    requires Coherent(s)
    requires WellFormed(s.current.content)
    requires forall k :: 0 <= k < |es| && es[k].Other? ==> WellFormed(es[k].content)
    ensures WellFormed(Final(s, es))
    ensures Coherent(Run(Serve, s, es))
  {
    if es != [] {
      var init, e := es[..|es| - 1], es[|es| - 1];
      AlwaysWellFormed(s, init);
      var before := Run(Serve, s, init);
      StepCoherent(Serve, before, e);
      if e.Send? && e.id in before.writers {
        SendOutcome(before, e.id);
        EffectKeepsWellFormed(before.writers[e.id].op, before.current.content);
      }
    }
  }
}
