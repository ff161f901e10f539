/**
 * The part of a KubeVirt VirtualMachine that hot-plugging edits, the JSON patches the driver sends
 * for it, and what each hot-plug operation is meant to do.
 */
module VirtualMachine {
  import opened Options
  import opened OptimisticStore
  import opened NamedItems

  datatype VolumeSource = Claim(claimName: string, hotpluggable: bool) | OtherSource(kind: string)

  datatype Device = DiskTarget(bus: string) | OtherDevice(kind: string)

  type Volume = Item<VolumeSource>

  type Disk = Item<Device>

  /** An absent array differs from an empty one: a patch can only change an array that exists. */
  datatype Spec = Spec(volumes: Option<seq<Volume>>, disks: Option<seq<Disk>>)

  type VM = Object<Spec>

  function Items<B>(list: Option<seq<Item<B>>>): seq<Item<B>> {
    match list
    case None => []
    case Some(s) => s
  }

  function Volumes(spec: Spec): seq<Volume> { Items(spec.volumes) }

  function Disks(spec: Spec): seq<Disk> { Items(spec.disks) }

  function HotplugVolume(id: string): Volume { Item(id, Claim(id, true)) }

  function HotplugDisk(id: string): Disk { Item(id, DiskTarget("scsi")) }

  predicate Hotpluggable(v: Volume) { v.body.Claim? && v.body.hotpluggable }

  function HotplugNames(vs: seq<Volume>): (r: set<string>)
    ensures forall n :: n in r <==>
      exists i :: 0 <= i < |vs| && vs[i].name == n && vs[i].body.Claim? && vs[i].body.hotpluggable
  {
    if vs == [] then {}
    else if Hotpluggable(vs[|vs| - 1]) then HotplugNames(vs[..|vs| - 1]) + {vs[|vs| - 1].name}
    else HotplugNames(vs[..|vs| - 1])
  }

  // ---- JSON patches (RFC 6902) on the fields above ----

  datatype PatchOp =
    | TestVersion(version: nat)               // test    /metadata/resourceVersion
    | AppendVolume(volume: Volume)            // add     /spec/template/spec/volumes/-
    | AppendDisk(disk: Disk)                  // add     /spec/template/spec/domain/devices/disks/-
    | ReplaceVolumes(volumes: seq<Volume>)    // replace /spec/template/spec/volumes
    | ReplaceDisks(disks: seq<Disk>)          // replace /spec/template/spec/domain/devices/disks

  /** One operation; None when its target does not exist or its test fails. */
  function PatchStep(op: PatchOp, version: nat, spec: Spec): Option<Spec> {
    match op
    case TestVersion(v) => if v == version then Some(spec) else None
    case AppendVolume(v) => if spec.volumes.None? then None else Some(spec.(volumes := Some(spec.volumes.value + [v])))
    case AppendDisk(d) => if spec.disks.None? then None else Some(spec.(disks := Some(spec.disks.value + [d])))
    case ReplaceVolumes(vs) => if spec.volumes.None? then None else Some(spec.(volumes := Some(vs)))
    case ReplaceDisks(ds) => if spec.disks.None? then None else Some(spec.(disks := Some(ds)))
  }

  /** A whole patch, all or nothing. */
  function ApplyPatch(ops: seq<PatchOp>, vm: VM): Option<Spec> {
    PatchFrom(ops, vm.version, vm.content)
  }

  function PatchFrom(ops: seq<PatchOp>, version: nat, spec: Spec): Option<Spec> {
    if ops == [] then Some(spec)
    else
      match PatchStep(ops[0], version, spec)
      case None => None
      case Some(next) => PatchFrom(ops[1..], version, next)
  }

  lemma PatchFromStep(ops: seq<PatchOp>, version: nat, spec: Spec)
    requires ops != []
    ensures PatchFrom(ops, version, spec) ==
      match PatchStep(ops[0], version, spec)
      case None => None
      case Some(next) => PatchFrom(ops[1..], version, next)
  {
  }

  // ---- The three writers of a VM spec ----

  datatype Op = Add(id: string) | Remove(id: string) | RemoveAll

  /** The patch a writer computes from the machine it saw; None when it sends nothing. */
  function Request(op: Op, seen: VM): Option<seq<PatchOp>> {
    var vs, ds := Volumes(seen.content), Disks(seen.content);
    match op
    case Add(id) =>
      if Has(vs, id) && Has(ds, id) then None
      else Some([TestVersion(seen.version)]
                + (if Has(vs, id) then [] else [AppendVolume(HotplugVolume(id))])
                + (if Has(ds, id) then [] else [AppendDisk(HotplugDisk(id))]))
    case Remove(id) => Some(Replacement(seen, {id}))
    case RemoveAll =>
      var names := HotplugNames(vs);
      if names == {} then None else Some(Replacement(seen, names))
  }

  function Replacement(seen: VM, names: set<string>): seq<PatchOp> {
    [TestVersion(seen.version),
     ReplaceVolumes(Without(Volumes(seen.content), names)),
     ReplaceDisks(Without(Disks(seen.content), names))]
  }

  function Serve(op: Op, seen: VM, current: VM): Option<Spec> {
    match Request(op, seen)
    case None => None
    case Some(patch) => ApplyPatch(patch, current)
  }

  // ---- What the operations are for, said without patches ----

  function WithoutNames(spec: Spec, names: set<string>): Spec {
    Spec(if spec.volumes.None? then None else Some(Without(spec.volumes.value, names)),
         if spec.disks.None? then None else Some(Without(spec.disks.value, names)))
  }

  function Including<B>(list: Option<seq<Item<B>>>, item: Item<B>): Option<seq<Item<B>>> {
    if Has(Items(list), item.name) then list else Some(Items(list) + [item])
  }

  function Effect(op: Op, spec: Spec): Spec {
    match op
    case Add(id) => Spec(Including(spec.volumes, HotplugVolume(id)), Including(spec.disks, HotplugDisk(id)))
    case Remove(id) => WithoutNames(spec, {id})
    case RemoveAll => WithoutNames(spec, HotplugNames(Volumes(spec)))
  }

  /** When a writer that reads `spec` has something to send. */
  predicate Sends(op: Op, spec: Spec) {
    match op
    case Add(id) => !(Has(Volumes(spec), id) && Has(Disks(spec), id))
    case Remove(_) => true
    case RemoveAll => HotplugNames(Volumes(spec)) != {}
  }

  /** When the arrays its patch edits exist. */
  predicate Patchable(op: Op, spec: Spec) {
    match op
    case Add(id) =>
      && (Has(Volumes(spec), id) || spec.volumes.Some?)
      && (Has(Disks(spec), id) || spec.disks.Some?)
    case Remove(_) => spec.volumes.Some? && spec.disks.Some?
    case RemoveAll => spec.volumes.Some? && spec.disks.Some?
  }

  lemma ServeIsGuarded()
    ensures Guarded(Serve)
  {
    forall op: Op, seen: VM, current: VM | Serve(op, seen, current).Some?
      ensures seen.version == current.version
    {
      var patch := Request(op, seen).value;
      assert patch[0] == TestVersion(seen.version);
    }
  }

  /**
   * Run atomically, the patch is accepted exactly when there is something to send and the arrays it
   * edits exist; its result is then the intended effect.
   */
  lemma ServeIsEffect(op: Op, vm: VM)
    ensures Serve(op, vm, vm).Some? <==> Sends(op, vm.content) && Patchable(op, vm.content)
    ensures Serve(op, vm, vm).Some? ==> Serve(op, vm, vm).value == Effect(op, vm.content)
  {
    var spec, v := vm.content, vm.version;
    if Sends(op, spec) {
      var patch := Request(op, vm).value;
      PatchFromStep(patch, v, spec);
      var rest := patch[1..];
      match op
      case Add(id) =>
        if !Has(Volumes(spec), id) {
          assert rest[0] == AppendVolume(HotplugVolume(id));
          PatchFromStep(rest, v, spec);
          assert rest[1..] == if Has(Disks(spec), id) then [] else [AppendDisk(HotplugDisk(id))];
        } else {
          assert rest == [AppendDisk(HotplugDisk(id))];
        }
      case Remove(id) => ReplacementPatches(vm, {id});
      case RemoveAll => ReplacementPatches(vm, HotplugNames(Volumes(spec)));
    }
  }

  lemma ReplacementPatches(vm: VM, names: set<string>)
    ensures ApplyPatch(Replacement(vm, names), vm) ==
      if vm.content.volumes.Some? && vm.content.disks.Some? then Some(WithoutNames(vm.content, names)) else None
  {
    var patch := Replacement(vm, names);
    PatchFromStep(patch, vm.version, vm.content);
    assert patch[1..] == [patch[1], patch[2]];
    if vm.content.volumes.Some? {
      PatchFromStep(patch[1..], vm.version, vm.content);
      assert patch[1..][1..] == [patch[2]];
    }
  }

  /** An operation with nothing to send is one whose effect is already there. */
  lemma SilentMeansDone(op: Op, spec: Spec)
    requires !Sends(op, spec)
    ensures Effect(op, spec) == spec
  {
    if op.RemoveAll? {
      WithoutNothing(Volumes(spec), {});
      WithoutNothing(Disks(spec), {});
    }
  }

  /** Hot-plug names seen through a set of names depend on the entries with those names alone. */
  lemma {:induction false} HotplugNamesOnly(vs: seq<Volume>, names: set<string>)
    ensures HotplugNames(vs) * names == HotplugNames(Only(vs, names))
  {
    if vs != [] {
      var kept := Only(vs[..|vs| - 1], names);
      HotplugNamesOnly(vs[..|vs| - 1], names);
      assert (kept + [vs[|vs| - 1]])[..|kept|] == kept;
    }
  }
}
