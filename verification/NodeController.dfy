/**
 * The node controller: the out-of-service taint and the removal of hot-plugged volumes from a machine
 * whose node is down, under stale node events and concurrent writers of the node.
 */
module NodeTaints {
  import opened Options
  import opened OptimisticStore

  datatype TaintEffect = NoSchedule | PreferNoSchedule | NoExecute

  datatype Taint = Taint(key: string, value: string, effect: TaintEffect)

  const OUT_OF_SERVICE := "node.kubernetes.io/out-of-service"

  const SHUTDOWN := Taint(OUT_OF_SERVICE, "", NoExecute)

  type Taints = seq<Taint>

  predicate Match(t: Taint, u: Taint) { t.key == u.key && t.effect == u.effect }

  /** What the API server demands of a node: taints are unique by key and effect. */
  predicate Valid(ts: Taints) {
    forall i, j :: 0 <= i < j < |ts| ==> !Match(ts[i], ts[j])
  }

  datatype Health = Health(node: bool, vm: bool)

  const DOWN := Health(false, false)

  const UP := Health(true, true)

  datatype Action = Nothing | AddTaint | RemoveTaint | RemoveVolumes

  /** The first taint with the key; later ones are not looked at. */
  function FirstOutOfService(ts: Taints): Option<Taint> {
    if ts == [] then None
    else if ts[0].key == OUT_OF_SERVICE then Some(ts[0])
    else FirstOutOfService(ts[1..])
  }

  predicate Marked(ts: Taints) { FirstOutOfService(ts).Some? && FirstOutOfService(ts).value.effect == NoExecute }

  function Decide(h: Health, ts: Taints): Action {
    if !h.node && h.vm then Nothing
    else if h.node && h.vm && Marked(ts) then RemoveTaint
    else if !h.node && !h.vm && !Marked(ts) then AddTaint
    else if !h.node && !h.vm then RemoveVolumes
    else Nothing
  }

  /** All taints with another key, in order. */
  function OtherTaints(ts: Taints): Taints {
    if ts == [] then []
    else if ts[|ts| - 1].key == OUT_OF_SERVICE then OtherTaints(ts[..|ts| - 1])
    else OtherTaints(ts[..|ts| - 1]) + [ts[|ts| - 1]]
  }

  function Occurrences(ts: Taints): nat {
    if ts == [] then 0
    else Occurrences(ts[..|ts| - 1]) + if Match(ts[|ts| - 1], SHUTDOWN) then 1 else 0
  }

  function Admitted(ts: Taints): Option<Taints> { if Valid(ts) then Some(ts) else None }

  /** An event handled from a possibly stale node; the update is refused unless the version is current and the
      taints are valid. */
  function ServeTaints(h: Health, seen: Object<Taints>, current: Object<Taints>): Option<Taints> {
    if seen.version != current.version then None
    else
      match Decide(h, seen.content)
      case AddTaint => Admitted(seen.content + [SHUTDOWN])
      case RemoveTaint => Admitted(OtherTaints(seen.content))
      case Nothing => None
      case RemoveVolumes => None
  }

  type Cluster = System<Health, Taints>

  type Happening = Event<Health, Taints>

  function Final(s: Cluster, es: seq<Happening>): Taints { Run(ServeTaints, s, es).current.content }

  // ---- Lists of taints ----

  lemma {:induction false} FirstOfAppended(ts: Taints, t: Taint)
    ensures FirstOutOfService(ts + [t]) ==
      if FirstOutOfService(ts).Some? then FirstOutOfService(ts) else if t.key == OUT_OF_SERVICE then Some(t) else None
  {
    if ts != [] {
      assert (ts + [t])[1..] == ts[1..] + [t];
      FirstOfAppended(ts[1..], t);
    }
  }

  /** Marked means that the first taint of the key is a NoExecute one, whatever comes later. */
  lemma {:induction false} MarkedIff(ts: Taints)
    ensures Marked(ts) <==>
      exists i :: 0 <= i < |ts| && ts[i].key == "node.kubernetes.io/out-of-service" && ts[i].effect == NoExecute
                  && forall j :: 0 <= j < i ==> ts[j].key != "node.kubernetes.io/out-of-service"
  {
    if ts != [] && ts[0].key != OUT_OF_SERVICE {
      var rest := ts[1..];
      MarkedIff(rest);
      if Marked(rest) {
        var i :| 0 <= i < |rest| && rest[i].key == OUT_OF_SERVICE && rest[i].effect == NoExecute
                 && forall j :: 0 <= j < i ==> rest[j].key != OUT_OF_SERVICE;
        assert ts[i + 1] == rest[i];
        assert forall j :: 0 < j < i + 1 ==> ts[j] == rest[j - 1];
      } else {
        assert forall i :: 0 < i < |ts| ==> ts[i] == rest[i - 1];
      }
    }
  }

  lemma Appended(ts: Taints, t: Taint)
    ensures OtherTaints(ts + [t]) == if t.key == OUT_OF_SERVICE then OtherTaints(ts) else OtherTaints(ts) + [t]
    ensures Occurrences(ts + [t]) == Occurrences(ts) + if Match(t, SHUTDOWN) then 1 else 0
  {
    assert (ts + [t])[..|ts|] == ts;
  }

  lemma {:induction false} OthersHaveNone(ts: Taints)
    ensures FirstOutOfService(OtherTaints(ts)) == None
    ensures Occurrences(OtherTaints(ts)) == 0
    ensures OtherTaints(OtherTaints(ts)) == OtherTaints(ts)
  {
    if ts != [] {
      OthersHaveNone(ts[..|ts| - 1]);
      FirstOfAppended(OtherTaints(ts[..|ts| - 1]), ts[|ts| - 1]);
      Appended(OtherTaints(ts[..|ts| - 1]), ts[|ts| - 1]);
    }
  }

  /** The taints with another key, and no others. */
  lemma {:induction false} InOthers(ts: Taints, t: Taint)
    ensures t in OtherTaints(ts) <==> t in ts && t.key != OUT_OF_SERVICE
  {
    if ts != [] {
      assert ts == ts[..|ts| - 1] + [ts[|ts| - 1]];
      InOthers(ts[..|ts| - 1], t);
    }
  }

  lemma {:induction false} NoneFoundNoneThere(ts: Taints)
    requires FirstOutOfService(ts) == None
    ensures Occurrences(ts) == 0
  {
    if ts != [] {
      var init, last := ts[..|ts| - 1], ts[|ts| - 1];
      assert ts == init + [last];
      FirstOfAppended(init, last);
      NoneFoundNoneThere(init);
    }
  }

  lemma {:induction false} NoOccurrence(ts: Taints)
    ensures Occurrences(ts) == 0 <==> forall t :: t in ts ==> !Match(t, SHUTDOWN)
  {
    if ts != [] {
      var init, last := ts[..|ts| - 1], ts[|ts| - 1];
      assert ts == init + [last];
      NoOccurrence(init);
    }
  }

  /** On a valid node the taint occurs at most once, and can be added exactly when it does not occur. */
  lemma {:induction false} ValidTaints(ts: Taints)
    requires Valid(ts)
    ensures Occurrences(ts) <= 1
    ensures Valid(ts + [SHUTDOWN]) <==> Occurrences(ts) == 0
  {
    NoOccurrence(ts);
    assert (ts + [SHUTDOWN])[|ts|] == SHUTDOWN;
    assert forall i :: 0 <= i < |ts| ==> (ts + [SHUTDOWN])[i] == ts[i];
    if ts != [] {
      var init, last := ts[..|ts| - 1], ts[|ts| - 1];
      ValidTaints(init);
      NoOccurrence(init);
    }
  }

  lemma {:induction false} OthersValid(ts: Taints)
    requires Valid(ts)
    ensures Valid(OtherTaints(ts)) && forall t :: t in OtherTaints(ts) ==> t in ts
  {
    if ts != [] {
      var init, last := ts[..|ts| - 1], ts[|ts| - 1];
      assert ts == init + [last];
      OthersValid(init);
      forall t | t in OtherTaints(init)
        ensures !Match(t, last)
      {
        var i :| 0 <= i < |init| && init[i] == t;
        assert ts[i] == t && ts[|ts| - 1] == last;
      }
    }
  }

  // ---- Whole runs ----

  lemma UpdatesGuarded()
    ensures Guarded(ServeTaints)
  {
  }

  /** Every accepted update added the taint to an unmarked node seen down together with its VM, or removed
      it from a marked node seen up together with its VM; other taints kept their order. */
  lemma EveryUpdate(s: Cluster, es: seq<Happening>, k: nat)
    requires Coherent(s)
    requires k < |Log(ServeTaints, s, es)| && Log(ServeTaints, s, es)[k].ByWriter?
    ensures var log := Log(ServeTaints, s, es);
      var before := Replay(ServeTaints, s.current, log[..k]).content;
      var after := Replay(ServeTaints, s.current, log[..k + 1]).content;
      && OtherTaints(after) == OtherTaints(before)
      && ((log[k].op == DOWN && !Marked(before) && after == before + [SHUTDOWN])
          || (log[k].op == Health(true, true) && Marked(before) && after == OtherTaints(before)))
    ensures Run(ServeTaints, s, es).current == Replay(ServeTaints, s.current, Log(ServeTaints, s, es))
  {
    var log := Log(ServeTaints, s, es);
    UpdatesGuarded();
    WriteInPlace(ServeTaints, s, es, k);
    assert log[..|log|] == log;
    UpdateEffect(Replay(ServeTaints, s.current, log[..k]), log[k].op);
  }

  lemma UpdateEffect(o: Object<Taints>, h: Health)
    requires ServeTaints(h, o, o).Some?
    ensures var before, after := o.content, Deliver(ServeTaints, h, o, o).content;
      && OtherTaints(after) == OtherTaints(before)
      && ((h == DOWN && !Marked(before) && after == before + [SHUTDOWN])
          || (h == Health(true, true) && Marked(before) && after == OtherTaints(before)))
  {
    if Decide(h, o.content) == AddTaint {
      Appended(o.content, SHUTDOWN);
    } else {
      OthersHaveNone(o.content);
    }
  }

  /** Taints with another key keep their value and order through every run of node events. */
  lemma {:induction false} OtherTaintsKept(s: Cluster, es: seq<Happening>)
    requires Coherent(s)
    requires forall k :: 0 <= k < |es| && es[k].Other? ==> OtherTaints(es[k].content) == OtherTaints(s.current.content)
    ensures OtherTaints(Final(s, es)) == OtherTaints(s.current.content)
    ensures Coherent(Run(ServeTaints, s, es))
  {
    if es != [] {
      OtherTaintsKept(s, es[..|es| - 1]);
      var before := Run(ServeTaints, s, es[..|es| - 1]);
      StepCoherent(ServeTaints, before, es[|es| - 1]);
      OthersHaveNone(before.current.content);
      Appended(before.current.content, SHUTDOWN);
    }
  }

  /** At most one out-of-service NoExecute taint, and none hidden behind an earlier taint of that key. */
  predicate Sound(ts: Taints) {
    Occurrences(ts) <= 1 && (FirstOutOfService(ts).Some? ==> Marked(ts))
  }

  lemma {:induction false} SoundForever(s: Cluster, es: seq<Happening>)
    requires Coherent(s) && Sound(s.current.content)
    requires forall k :: 0 <= k < |es| && es[k].Other? ==> Sound(es[k].content)
    ensures Coherent(Run(ServeTaints, s, es)) && Sound(Final(s, es))
  {
    if es != [] {
      SoundForever(s, es[..|es| - 1]);
      var before := Run(ServeTaints, s, es[..|es| - 1]);
      StepCoherent(ServeTaints, before, es[|es| - 1]);
      SoundUpdate(before.current.content);
    }
  }

  lemma SoundUpdate(ts: Taints)
    requires Sound(ts)
    ensures Sound(OtherTaints(ts))
    ensures !Marked(ts) ==> Sound(ts + [SHUTDOWN])
  {
    OthersHaveNone(ts);
    Appended(ts, SHUTDOWN);
    FirstOfAppended(ts, SHUTDOWN);
    if FirstOutOfService(ts) == None {
      NoneFoundNoneThere(ts);
    }
  }

  /** A remark about the server, which commits only what it admits: on no reachable node the taint occurs twice. */
  lemma {:induction false} ValidForever(s: Cluster, es: seq<Happening>)
    requires Valid(s.current.content)
    requires forall k :: 0 <= k < |es| && es[k].Other? ==> Valid(es[k].content)
    ensures Valid(Final(s, es)) && Occurrences(Final(s, es)) <= 1
  {
    if es != [] {
      ValidForever(s, es[..|es| - 1]);
    }
    ValidTaints(Final(s, es));
  }

  /** Nobody but the controller writes the node. */
  predicate Alone(es: seq<Happening>) { forall k :: 0 <= k < |es| ==> !es[k].Other? }

  /** The controller sends an up-to-date node with the taint on it twice, which the server refuses. */
  predicate Duplicates(s: Cluster, e: Happening) {
    && e.Send? && e.id in s.writers && s.writers[e.id].seen.version == s.current.version
    && Decide(s.writers[e.id].op, s.writers[e.id].seen.content) == AddTaint
    && Occurrences(s.writers[e.id].seen.content) > 0
  }

  /** Whatever events the controller gets, it never does so. */
  ghost predicate NeverDuplicates(o: Object<Taints>) {
    forall es: seq<Happening>, k :: Alone(es) && 0 <= k < |es| ==>
      !Duplicates(Run(ServeTaints, System(o, map[]), es[..k]), es[k])
  }

  /** The controller tries to add a taint that is there exactly when the node starts unsound. */
  lemma NeverDuplicatesIffSound(o: Object<Taints>)
    requires Valid(o.content)
    ensures NeverDuplicates(o) <==> Sound(o.content)
  {
    var s: Cluster := System(o, map[]);
    ValidTaints(o.content);
    if Sound(o.content) {
      forall es: seq<Happening>, k | Alone(es) && 0 <= k < |es|
        ensures !Duplicates(Run(ServeTaints, s, es[..k]), es[k])
      {
        SoundForever(s, es[..k]);
        var ts := Run(ServeTaints, s, es[..k]).current.content;
        if FirstOutOfService(ts) == None {
          NoneFoundNoneThere(ts);
        }
      }
    } else if NeverDuplicates(o) {
      HiddenTaintRepeats(o);
    }
  }

  const TWICE_DOWN: seq<Happening> := [Read(0, DOWN), Send(0), Read(0, DOWN), Send(0)]

  /** Behind a weaker taint of the same key the controller does not see its own and sends it again. */
  lemma HiddenTaintRepeats(o: Object<Taints>)
    requires Valid(o.content) && FirstOutOfService(o.content).Some? && !Marked(o.content)
    ensures Alone(TWICE_DOWN) && Duplicates(Run(ServeTaints, System(o, map[]), TWICE_DOWN[..3]), TWICE_DOWN[3])
    ensures Occurrences(Final(System(o, map[]), TWICE_DOWN)) == 1
  {
    var s: Cluster := System(o, map[]);
    HiddenAfterOne(o);
    DownAgain(s);
    ValidTaints(Run(ServeTaints, s, TWICE_DOWN[..2]).current.content);
  }

  /** After the first event the taint is there and hidden. */
  lemma HiddenAfterOne(o: Object<Taints>)
    requires Valid(o.content) && FirstOutOfService(o.content).Some? && !Marked(o.content)
    ensures var next := Run(ServeTaints, System(o, map[]), TWICE_DOWN[..2]);
      next.writers == map[] && Valid(next.current.content) && !Marked(next.current.content) && Occurrences(next.current.content) == 1
  {
    DownOnce(System(o, map[]));
    ValidTaints(o.content);
    Appended(o.content, SHUTDOWN);
    FirstOfAppended(o.content, SHUTDOWN);
  }

  /** One event of an unmarked node that is down: the taint is added if it does not occur. */
  lemma DownOnce(s: Cluster)
    requires s.writers == map[] && !Marked(s.current.content) && Valid(s.current.content)
    ensures var next := Run(ServeTaints, s, TWICE_DOWN[..2]);
      && next.writers == map[]
      && next.current == if Occurrences(s.current.content) > 0 then s.current
                         else Object(s.current.version + 1, s.current.content + [SHUTDOWN])
  {
    ValidTaints(s.current.content);
    var es := TWICE_DOWN;
    assert es[..2][..1] == es[..1] && es[..1][..0] == es[..0];
    assert Run(ServeTaints, s, es[..1]) == Step(ServeTaints, s, es[0]);
  }

  lemma DownAgain(s: Cluster)
    ensures Run(ServeTaints, s, TWICE_DOWN[..3]) == Step(ServeTaints, Run(ServeTaints, s, TWICE_DOWN[..2]), Read(0, DOWN))
    ensures Run(ServeTaints, s, TWICE_DOWN) == Step(ServeTaints, Run(ServeTaints, s, TWICE_DOWN[..3]), Send(0))
  {
    assert TWICE_DOWN[..3][..2] == TWICE_DOWN[..2] && TWICE_DOWN[..|TWICE_DOWN| - 1] == TWICE_DOWN[..3];
  }

  /** And once a marked node and its VM are up, one fresh event leaves the other taints and none of the key. */
  lemma UpClears(s: Cluster, id: nat)
    requires Valid(s.current.content) && Marked(s.current.content)
    ensures var after := Final(s, [Read(id, UP), Send(id)]);
      && after == OtherTaints(s.current.content) && FirstOutOfService(after) == None && Occurrences(after) == 0
      && forall t :: t in after <==> t in s.current.content && t.key != "node.kubernetes.io/out-of-service"
  {
    var es: seq<Happening> := [Read(id, UP), Send(id)];
    assert es[..1][..0] == [] && es[..|es| - 1] == es[..1];
    assert Run(ServeTaints, s, es[..1]) == Step(ServeTaints, s, es[0]);
    OthersValid(s.current.content);
    OthersHaveNone(s.current.content);
    forall t
      ensures t in OtherTaints(s.current.content) <==> t in s.current.content && t.key != OUT_OF_SERVICE
    {
      InOthers(s.current.content, t);
    }
  }

  // ---- The taint comes before the removal of volumes ----

  /** The event is handled by removing volumes. */
  predicate Removes(s: Cluster, e: Happening) {
    e.Send? && e.id in s.writers && Decide(s.writers[e.id].op, s.writers[e.id].seen.content) == RemoveVolumes
  }

  /** From an unmarked node nobody else marks, volumes are removed only after the controller's taint was accepted. */
  lemma TaintBeforeRemoval(s: Cluster, es: seq<Happening>, k: nat)
    requires s.writers == map[] && !Marked(s.current.content)
    requires forall j :: 0 <= j < |es| && es[j].Other? ==> !Marked(es[j].content)
    requires k < |es| && Removes(Run(ServeTaints, s, es[..k]), es[k])
    ensures ByWriter(DOWN) in Log(ServeTaints, s, es[..k])
  {
    if ByWriter(DOWN) !in Log(ServeTaints, s, es[..k]) {
      UnmarkedWithoutAdd(s, es[..k]);
    }
  }

  /** Some events make the controller remove the volumes. */
  ghost predicate CanRemove(o: Object<Taints>) {
    exists es: seq<Happening>, k :: Alone(es) && 0 <= k < |es| && Removes(Run(ServeTaints, System(o, map[]), es[..k]), es[k])
  }

  /** Two events of a node that is down are enough if it carries no taint of the key. */
  lemma SecondEventRemoves(o: Object<Taints>)
    requires Valid(o.content) && FirstOutOfService(o.content) == None
    ensures Removes(Run(ServeTaints, System(o, map[]), TWICE_DOWN[..3]), TWICE_DOWN[3])
  {
    var s: Cluster := System(o, map[]);
    NoneFoundNoneThere(o.content);
    DownOnce(s);
    DownAgain(s);
    FirstOfAppended(o.content, SHUTDOWN);
  }

  lemma FirstEventRemoves(o: Object<Taints>)
    requires Marked(o.content)
    ensures Removes(Run(ServeTaints, System(o, map[]), TWICE_DOWN[..1]), TWICE_DOWN[1])
  {
    var es := TWICE_DOWN;
    assert es[..1][..0] == es[..0];
    assert Run(ServeTaints, System(o, map[]), es[..1]) == Step(ServeTaints, System(o, map[]), es[0]);
  }

  /** With a weaker taint of the key in front, and only then, the controller never removes a volume. */
  lemma RemovalReachableIffSound(o: Object<Taints>)
    requires Valid(o.content)
    ensures CanRemove(o) <==> Sound(o.content)
  {
    ValidTaints(o.content);
    assert Alone(TWICE_DOWN);
    if !Sound(o.content) {
      forall es: seq<Happening>, k | Alone(es) && 0 <= k < |es|
        ensures !Removes(Run(ServeTaints, System(o, map[]), es[..k]), es[k])
      {
        HiddenForever(System(o, map[]), es[..k]);
      }
    } else if Marked(o.content) {
      FirstEventRemoves(o);
    } else {
      SecondEventRemoves(o);
    }
  }

  lemma {:induction false} HiddenForever(s: Cluster, es: seq<Happening>)
    requires s.writers == map[] && FirstOutOfService(s.current.content).Some? && !Marked(s.current.content)
    requires Alone(es)
    ensures var t := Run(ServeTaints, s, es);
      && FirstOutOfService(t.current.content) == FirstOutOfService(s.current.content)
      && forall id :: id in t.writers ==>
           FirstOutOfService(t.writers[id].seen.content) == FirstOutOfService(s.current.content)
  {
    if es != [] {
      HiddenForever(s, es[..|es| - 1]);
      var before, e := Run(ServeTaints, s, es[..|es| - 1]), es[|es| - 1];
      if e.Send? && e.id in before.writers {
        FirstOfAppended(before.writers[e.id].seen.content, SHUTDOWN);
      }
    }
  }

  lemma {:induction false} UnmarkedWithoutAdd(s: Cluster, es: seq<Happening>)
    requires s.writers == map[] && !Marked(s.current.content)
    requires forall j :: 0 <= j < |es| && es[j].Other? ==> !Marked(es[j].content)
    requires ByWriter(DOWN) !in Log(ServeTaints, s, es)
    ensures var t := Run(ServeTaints, s, es);
      !Marked(t.current.content) && forall id :: id in t.writers ==> !Marked(t.writers[id].seen.content)
  {
    if es != [] {
      var init := es[..|es| - 1];
      var log := Log(ServeTaints, s, init);
      assert forall x :: x in log ==> x in Log(ServeTaints, s, es);
      UnmarkedWithoutAdd(s, init);
      var emitted := Emitted(ServeTaints, Run(ServeTaints, s, init), es[|es| - 1]);
      assert forall x :: x in emitted ==> x in Log(ServeTaints, s, es);
      if emitted != [] {
        assert emitted[0] in emitted;
      }
    }
  }
}

/** The controller's code over the node object and the virtual machine behind it. */
module NodeController {
  import opened Options
  import opened OptimisticStore
  import opened NamedItems
  import opened VirtualMachine
  import opened HotplugProtocol
  import opened HostMachine
  import opened HotplugWriters
  import opened NodeTaints
  import opened Attach
  import opened Replies

  class NodeApi {
    const faulty: bool
    var node: Object<Taints>

    constructor (faulty: bool, node: Object<Taints>)
      ensures this.faulty == faulty && this.node == node
    {
      this.faulty, this.node := faulty, node;
    }

    /** Compare-and-swap on the node's version, for valid taints; others may have written it before. */
    method Update(version: nat, taints: Taints) returns (ok: bool, ghost current: Object<Taints>)
      modifies this
      ensures Later(old(node), current)
      ensures node == current || (version == current.version && Valid(taints) && node == Commit(current, taints))
      ensures ok ==> version == current.version && Valid(taints) && node == Commit(current, taints)
      ensures !faulty ==> ok == (version == current.version && Valid(taints))
      ensures Valid(old(node).content) ==> Valid(node.content)
    {
      var next: Object<Taints> := *;
      if Later(node, next) && Valid(next.content) {
        node := next;
      }
      current := node;
      var unserved: bool, lost: bool := *, *;
      if version != node.version || !Valid(taints) || (faulty && unserved) {
        return false, node;
      }
      node := Commit(node, taints);
      ok := !(faulty && lost);
    }
  }

  method GetNodeTaint(ts: Taints) returns (r: Option<Taint>)
    ensures r == FirstOutOfService(ts)
    ensures r.None? <==> forall i :: 0 <= i < |ts| ==> ts[i].key != "node.kubernetes.io/out-of-service"
    ensures r.Some? ==> exists i :: 0 <= i < |ts| && ts[i] == r.value && r.value.key == "node.kubernetes.io/out-of-service"
                                    && forall j :: 0 <= j < i ==> ts[j].key != "node.kubernetes.io/out-of-service"
  {
    for i := 0 to |ts|
      invariant FirstOutOfService(ts) == FirstOutOfService(ts[i..])
      invariant forall j :: 0 <= j < i ==> ts[j].key != OUT_OF_SERVICE
    {
      if ts[i].key == OUT_OF_SERVICE {
        return Some(ts[i]);
      }
      assert ts[i..][1..] == ts[i + 1..];
    }
    return None;
  }

  method RemoveTaint(api: NodeApi, seen: Object<Taints>) returns (ok: bool, ghost current: Object<Taints>)
    modifies api
    ensures Later(old(api.node), current)
    ensures api.node == current ||
      (seen.version == current.version && Valid(OtherTaints(seen.content)) && api.node == Commit(current, OtherTaints(seen.content)))
    ensures ok ==>
      seen.version == current.version && Valid(OtherTaints(seen.content)) && api.node == Commit(current, OtherTaints(seen.content))
    ensures !api.faulty && Valid(seen.content) ==> ok == (seen.version == current.version)
    ensures old(Valid(api.node.content)) ==> Valid(api.node.content)
  {
    var kept: Taints := [];
    for i := 0 to |seen.content|
      invariant kept == OtherTaints(seen.content[..i])
    {
      assert seen.content[..i + 1][..i] == seen.content[..i];
      if seen.content[i].key != OUT_OF_SERVICE {
        kept := kept + [seen.content[i]];
      }
    }
    assert seen.content[..|seen.content|] == seen.content;
    ok, current := api.Update(seen.version, kept);
    if Valid(seen.content) {
      OthersValid(seen.content);
    }
  }

  lemma NothingRemoved(spec: Spec)
    ensures WithoutNames(spec, {}) == spec
  {
    WithoutNothing(Volumes(spec), {});
    WithoutNothing(Disks(spec), {});
  }

  method CollectHotplugNames(volumes: seq<Volume>) returns (names: set<string>)
    ensures forall n :: n in names <==>
      exists i :: 0 <= i < |volumes| && volumes[i].name == n && volumes[i].body.Claim? && volumes[i].body.hotpluggable
    ensures names == HotplugNames(volumes)
  {
    names := {};
    for i := 0 to |volumes|
      invariant names == HotplugNames(volumes[..i])
    {
      assert volumes[..i + 1][..i] == volumes[..i];
      if volumes[i].body.Claim? && volumes[i].body.hotpluggable {
        names := names + {volumes[i].name};
      }
    }
    assert volumes[..|volumes|] == volumes;
  }

  // ---- What a removal means for one volume nobody else touches, whoever else writes the machine ----

  predicate Plugged(vm: VM, id: string) { id in HotplugNames(Volumes(vm.content)) }

  /** The volume is as it was, or it was hot-plugged and is gone. */
  predicate KeptOrDropped(was: VM, vm: VM, id: string) {
    SameFor(vm.content, was.content, {id}) || (Plugged(was, id) && !InSpec(vm, id))
  }

  /** The volume is gone if it was hot-plugged, and as it was if not. */
  predicate Cleared(was: VM, vm: VM, id: string) {
    if Plugged(was, id) then !InSpec(vm, id) else SameFor(vm.content, was.content, {id})
  }

  lemma PluggedSame(a: VM, b: VM, id: string)
    requires SameFor(a.content, b.content, {id})
    ensures Plugged(a, id) == Plugged(b, id) && InSpec(a, id) == InSpec(b, id)
  {
    HotplugNamesOnly(Volumes(a.content), {id});
    HotplugNamesOnly(Volumes(b.content), {id});
    assert Plugged(a, id) == (id in HotplugNames(Volumes(a.content)) * {id});
    assert Plugged(b, id) == (id in HotplugNames(Volumes(b.content)) * {id});
    SameForSame(a.content, b.content, id);
  }

  lemma RemovalSeen(was: VM, current: VM, names: set<string>, id: string)
    requires SameFor(current.content, was.content, {id}) || !InSpec(current, id)
    ensures var after := WithoutNames(current.content, names);
      && (id !in names && SameFor(current.content, was.content, {id}) ==> SameFor(after, was.content, {id}))
      && (id in names || !InSpec(current, id) ==> !Has(Volumes(after), id))
  {
    RemovalClears(current.content, names, id);
    if id !in names {
      OnlyWithout(Volumes(current.content), names, {id});
      OnlyWithout(Disks(current.content), names, {id});
    }
  }

  /** The patch form, from what one write amounts to. */
  lemma PatchedVolume(id: string, was: VM, seen: VM, current: VM, vm: VM)
    requires OneWrite(RemoveAll, id, was, seen, current, vm)
    ensures KeptOrDropped(was, vm, id)
    ensures Performed(RemoveAll, seen, current, vm) ==> Cleared(was, vm, id)
  {
    PluggedSame(seen, was, id);
    PluggedSame(current, seen, id);
    RemovalSeen(was, current, HotplugNames(Volumes(current.content)), id);
    ServeIsGuarded();
    ServeIsEffect(RemoveAll, current);
  }

  /**
   * Removes every hot-plugged volume, by one patch or by one call for each name in any order.
   * `gone` are the names removed; a call cut short leaves the spec without some of the names.
   */
  method RemoveAllHotplugVolumes(host: HostVM, declarative: bool)
    returns (ok: bool, ghost gone: set<string>, ghost seen: VM, ghost current: VM)
    modifies host
    ensures declarative ==>
      && OneWrite(RemoveAll, host.watched, old(host.vm), seen, current, host.vm)
      && (ok ==> Performed(RemoveAll, seen, current, host.vm))
    // In both forms, whoever else writes the machine: success means a hot-plugged volume is gone.
    ensures KeptOrDropped(old(host.vm), host.vm, host.watched)
    ensures ok ==> Cleared(old(host.vm), host.vm, host.watched)
    ensures host.quiet ==>
      && gone <= HotplugNames(Volumes(old(host.vm).content))
      && host.vm.content == WithoutNames(old(host.vm).content, gone)
      && (ok ==> host.vm.content == Effect(RemoveAll, old(host.vm).content))
    // With every call answered: both forms end in the same spec, except that the patch is refused,
    // and changes nothing, when one of the two arrays is absent.
    ensures host.quiet && !host.faulty ==>
      && (ok <==> host.present && (!declarative || !Sends(RemoveAll, old(host.vm).content) || Patchable(RemoveAll, old(host.vm).content)))
      && (!ok ==> host.vm == old(host.vm))
  {
    gone := {};
    NothingRemoved(host.vm.content);
    var reply := host.Get();
    seen, current := host.vm, host.vm;
    if reply.Err? {
      return false, {}, seen, current;
    }
    var vm := reply.value;
    PluggedSame(vm, old(host.vm), host.watched);
    var names := CollectHotplugNames(Volumes(vm.content));
    if names == {} {
      return true, {}, seen, current;
    }
    if declarative {
      ok, current := RemoveAllByPatch(host, vm, names);
      gone := if host.vm.content == WithoutNames(vm.content, names) then names else {};
      PatchedVolume(host.watched, old(host.vm), seen, current, host.vm);
    } else {
      ok, gone := RemoveAllBySubresource(host, names);
    }
  }

  /** The third writer of the protocol: its request is the one a remove-all that saw `vm` sends. */
  method RemoveAllByPatch(host: HostVM, vm: VM, names: set<string>) returns (ok: bool, ghost current: VM)
    requires names == HotplugNames(Volumes(vm.content)) && names != {}
    modifies host
    ensures Later(old(host.vm), current) && SameFor(current.content, old(host.vm).content, {host.watched})
    ensures host.vm == current || host.vm == Deliver(Serve, RemoveAll, vm, current)
    ensures ok ==> Serve(RemoveAll, vm, current).Some? && host.vm == Deliver(Serve, RemoveAll, vm, current)
    ensures ok && Later(vm, current) ==> Performed(RemoveAll, vm, current, host.vm)
    ensures host.quiet && vm == old(host.vm) ==>
      && (host.vm == old(host.vm) || host.vm.content == WithoutNames(vm.content, names))
      && (ok ==> Patchable(RemoveAll, vm.content) && host.vm.content == WithoutNames(vm.content, names))
      && (!host.faulty ==> (ok <==> host.present && Patchable(RemoveAll, vm.content)))
      && (!host.faulty && !ok ==> host.vm == old(host.vm))
  {
    var volumes := DropNames(Volumes(vm.content), names);
    var disks := DropNames(Disks(vm.content), names);
    ok, current := host.Patch([TestVersion(vm.version), ReplaceVolumes(volumes), ReplaceDisks(disks)]);
    ReplacementPatches(vm, names);
    if ok && Later(vm, current) {
      DeliveredIsPerformed(RemoveAll, vm, current);
    }
  }

  /** One call for each name, in whatever order; stops at the first failure. */
  method RemoveAllBySubresource(host: HostVM, names: set<string>) returns (ok: bool, ghost gone: set<string>)
    modifies host
    ensures gone <= names && (ok ==> gone == names)
    ensures if host.watched in gone then !InSpec(host.vm, host.watched)
            else SameFor(host.vm.content, old(host.vm).content, {host.watched})
    ensures host.quiet ==> host.vm.content == WithoutNames(old(host.vm).content, gone)
    ensures !host.faulty ==> (ok <==> host.present || names == {})
    ensures host.quiet && !host.faulty && !ok ==> host.vm == old(host.vm)
  {
    NothingRemoved(host.vm.content);
    var left := names;
    gone := {};
    while left != {}
      invariant gone + left == names && gone !! left
      invariant if host.watched in gone then !InSpec(host.vm, host.watched)
                else SameFor(host.vm.content, old(host.vm).content, {host.watched})
      invariant host.quiet ==> host.vm.content == WithoutNames(old(host.vm).content, gone)
      invariant gone != {} ==> host.present
      invariant host.quiet && gone == {} ==> host.vm == old(host.vm)
      decreases left
    {
      var name :| name in left;
      WithoutTwice(Volumes(old(host.vm).content), gone, {name});
      WithoutTwice(Disks(old(host.vm).content), gone, {name});
      ghost var before, current := host.vm, host.vm;
      ok, current := host.RemoveVolume(name);
      PluggedSame(current, before, host.watched);
      RemovalSeen(old(host.vm), current, {name}, host.watched);
      if !ok {
        if host.vm != current {
          gone := gone + {name};
        }
        return false, gone;
      }
      gone, left := gone + {name}, left - {name};
    }
    ok := true;
  }

  /** A removal that stopped after some names and is done again from a fresh read ends where one that did
      not stop ends. */
  lemma StoppedRemovalResumes(spec: Spec, gone: set<string>)
    requires gone <= HotplugNames(Volumes(spec))
    ensures Effect(RemoveAll, WithoutNames(spec, gone)) == Effect(RemoveAll, spec)
    ensures HotplugNames(Volumes(WithoutNames(spec, gone))) == HotplugNames(Volumes(spec)) - gone
  {
    var names := HotplugNames(Volumes(spec));
    HotplugNamesWithout(Volumes(spec), gone);
    WithoutTwice(Volumes(spec), gone, names - gone);
    WithoutTwice(Disks(spec), gone, names - gone);
    assert gone + (names - gone) == names;
  }

  /** The same of the code: the removal is repeated, in either form, until it succeeds. */
  method RemoveUntilOK(host: HostVM, declarative: bool, rounds: nat) returns (ok: bool)
    modifies host
    ensures KeptOrDropped(old(host.vm), host.vm, host.watched)
    ensures ok ==> Cleared(old(host.vm), host.vm, host.watched)
    ensures (&& rounds > 0 && !host.faulty && host.quiet && host.present
             && (!declarative || !Sends(RemoveAll, old(host.vm).content) || Patchable(RemoveAll, old(host.vm).content))) ==> ok
    ensures ok && host.quiet ==> host.vm.content == Effect(RemoveAll, old(host.vm).content)
  {
    ok := false;
    NothingRemoved(host.vm.content);
    ghost var gone: set<string> := {};
    for i := 0 to rounds
      invariant !ok
      invariant (&& !host.faulty && host.quiet && host.present
                 && (!declarative || !Sends(RemoveAll, old(host.vm).content) || Patchable(RemoveAll, old(host.vm).content))) ==>
        i == 0 && host.vm == old(host.vm)
      invariant KeptOrDropped(old(host.vm), host.vm, host.watched)
      invariant gone <= HotplugNames(Volumes(old(host.vm).content))
      invariant host.quiet ==> host.vm.content == WithoutNames(old(host.vm).content, gone)
    {
      ghost var before, more, seen, current := host.vm, {}, host.vm, host.vm;
      ok, more, seen, current := RemoveAllHotplugVolumes(host, declarative);
      ClearedLater(old(host.vm), before, host.vm, host.watched);
      StoppedRemovalResumes(old(host.vm).content, gone);
      if ok {
        return;
      }
      if host.quiet {
        WithoutTwice(Volumes(old(host.vm).content), gone, more);
        WithoutTwice(Disks(old(host.vm).content), gone, more);
        gone := gone + more;
      }
    }
  }

  /** A volume the driver attached is one the removal finds: after an OK attach and a removal that succeeds it is gone. */
  method AttachThenRemoveAll(host: HostVM, declarative: bool, id: string, polls: nat) returns (attached: Reply, removed: bool)
    requires id == host.watched && !InSpec(host.vm, id)
    modifies host
    ensures attached == OK && removed ==> !InSpec(host.vm, id)
  {
    attached := AttachVolume(host, declarative, id, polls);
    ghost var before := host.vm;
    ghost var gone, seen, current;
    removed, gone, seen, current := RemoveAllHotplugVolumes(host, declarative);
    if attached == OK {
      ghost var i :| 0 <= i < |Volumes(before.content)| && Volumes(before.content)[i] == Item(id, Claim(id, true));
      assert Plugged(before, id);
    }
  }

  lemma ClearedLater(was: VM, before: VM, vm: VM, id: string)
    requires KeptOrDropped(was, before, id) && KeptOrDropped(before, vm, id)
    ensures KeptOrDropped(was, vm, id)
    ensures Cleared(before, vm, id) ==> Cleared(was, vm, id)
  {
    if SameFor(before.content, was.content, {id}) {
      PluggedSame(before, was, id);
    }
    if SameFor(vm.content, before.content, {id}) {
      PluggedSame(vm, before, id);
    }
  }

  /** One node event, handled from the node as the event shows it. */
  method HandleNodeAndVMHealth(api: NodeApi, host: HostVM, declarative: bool, seen: Object<Taints>, h: Health)
    returns (ok: bool, ghost current: Object<Taints>)
    modifies api, host
    ensures Later(old(api.node), current)
    ensures api.node == current || api.node == Deliver(ServeTaints, h, seen, current)
    ensures ok && Decide(h, seen.content) in {Action.AddTaint, Action.RemoveTaint} ==>
      ServeTaints(h, seen, current).Some? && api.node == Deliver(ServeTaints, h, seen, current)
    // Volumes are left alone unless the node in the event carries the taint and everything is down.
    ensures !(h == DOWN && Marked(seen.content)) ==>
      host.vm == old(host.vm) && host.vmi == old(host.vmi) && host.requests == old(host.requests)
    ensures KeptOrDropped(old(host.vm), host.vm, host.watched)
    ensures ok && h == DOWN && Marked(seen.content) ==>
      && Cleared(old(host.vm), host.vm, host.watched)
      && (host.quiet ==> host.vm.content == Effect(RemoveAll, old(host.vm).content))
    ensures old(Valid(api.node.content)) ==> Valid(api.node.content)
    // What an event handled leaves of the node, by what it shows.
    ensures ok && h == UP && Marked(seen.content) ==>
      && seen.version == current.version && api.node.content == OtherTaints(seen.content)
      && Occurrences(api.node.content) == 0
    ensures ok && h == DOWN && !Marked(seen.content) ==>
      && seen.version == current.version
      && api.node.content == seen.content + [Taint("node.kubernetes.io/out-of-service", "", NoExecute)]
    ensures !(h == UP && Marked(seen.content)) && !(h == DOWN && !Marked(seen.content)) ==> api.node == old(api.node)
    // With every call answered, only a stale event, a taint that is there already or a refused patch fails.
    ensures !api.faulty && !host.faulty && host.quiet && Valid(seen.content) ==>
      if h == UP && Marked(seen.content) then ok == (seen.version == current.version)
      else if h == DOWN && !Marked(seen.content) then ok == (seen.version == current.version && Occurrences(seen.content) == 0)
      else if h == DOWN then
        ok == (host.present && (!declarative || !Sends(RemoveAll, old(host.vm).content)
                                || Patchable(RemoveAll, old(host.vm).content)))
      else ok
  {
    var taint := GetNodeTaint(seen.content);
    var hasNoExecute := taint.Some? && taint.value.effect == NoExecute;
    current := api.node;
    ok := true;
    if !h.node && h.vm {
    } else if h.node && h.vm && hasNoExecute {
      ok, current := RemoveTaint(api, seen);
      OthersHaveNone(seen.content);
    } else if !h.node && !h.vm && !hasNoExecute {
      ok, current := api.Update(seen.version, seen.content + [SHUTDOWN]);
      if Valid(seen.content) {
        ValidTaints(seen.content);
      }
    } else if !h.node && !h.vm {
      ghost var gone, saw, met;
      ok, gone, saw, met := RemoveAllHotplugVolumes(host, declarative);
    }
  }
}
