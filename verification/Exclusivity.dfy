/**
 * A block volume is published to one guest node at a time: the VolumeAttachment check that precedes a
 * publish, and what it guarantees over whole runs of calls.
 */
module Exclusivity {
  import opened Options
  import opened VirtualMachine
  import opened HotplugProtocol
  import opened HostMachine
  import opened Attach
  import opened Replies

  datatype Mode = Block | Filesystem

  datatype HostClaim = HostClaim(name: string, pvName: string, mode: Option<Mode>)

  datatype Attachment = Attachment(volume: string, node: string, attached: bool)

  type Holding = (string, string)   // volume and guest node

  function Attached(guest: seq<Attachment>): set<Holding> {
    set a | a in guest && a.attached :: (a.volume, a.node)
  }

  predicate NoOther(held: set<Holding>, volume: string, node: string) {
    forall h :: h in held && h.0 == volume ==> h.1 == node
  }

  /** The VolumeAttachments of the host and of the guest cluster. */
  class AttachmentLists {
    const listable: bool         // the driver may list attachments on the host
    const faulty: bool
    const still: bool            // for a while, the host side does not change
    var hostSide: seq<Attachment>
    var guestSide: seq<Attachment>

    constructor (listable: bool, faulty: bool, still: bool, hostSide: seq<Attachment>, guestSide: seq<Attachment>)
      ensures this.listable == listable && this.faulty == faulty && this.still == still
      ensures this.hostSide == hostSide && this.guestSide == guestSide
    {
      this.listable, this.faulty, this.still := listable, faulty, still;
      this.hostSide, this.guestSide := hostSide, guestSide;
    }

    /** The host side may change between calls. */
    method ListHost() returns (r: Option<seq<Attachment>>)
      modifies this`hostSide
      ensures r.Some? ==> listable && r.value == hostSide
      ensures !faulty ==> r.Some? == listable
      ensures still ==> hostSide == old(hostSide)
    {
      var next: seq<Attachment> := *;
      hostSide := if still then hostSide else next;
      var fails: bool := *;
      r := if listable && !(faulty && fails) then Some(hostSide) else None;
    }

    method ListGuest() returns (r: Option<seq<Attachment>>)
      ensures r.Some? ==> r.value == guestSide
      ensures !faulty ==> r.Some?
    {
      var fails: bool := *;
      r := if faulty && fails then None else Some(guestSide);
    }
  }

  /** No host attachment of the volume names another host node. */
  predicate OnlyOn(host: seq<Attachment>, pvName: string, hostNode: string) {
    forall a :: a in host && a.volume == pvName ==> a.node == hostNode
  }

  method CheckHostVA(host: seq<Attachment>, pvName: string, hostNode: string) returns (settled: bool)
    ensures settled <==> OnlyOn(host, pvName, hostNode)
    ensures settled <==> forall i :: 0 <= i < |host| && host[i].volume == pvName ==> host[i].node == hostNode
  {
    for i := 0 to |host|
      invariant forall j :: 0 <= j < i && host[j].volume == pvName ==> host[j].node == hostNode
    {
      if host[i].volume == pvName && host[i].node != hostNode {
        assert host[i] in host;
        return false;
      }
    }
    return true;
  }

  method CheckGuestVA(guest: seq<Attachment>, volume: string, node: string) returns (settled: bool)
    ensures settled <==> NoOther(Attached(guest), volume, node)
    ensures settled <==>
      forall i :: 0 <= i < |guest| && guest[i].attached && guest[i].volume == volume ==> guest[i].node == node
  {
    for i := 0 to |guest|
      invariant forall j :: 0 <= j < i && guest[j].attached && guest[j].volume == volume ==> guest[j].node == node
    {
      if guest[i].attached && guest[i].volume == volume && guest[i].node != node {
        assert (guest[i].volume, guest[i].node) in Attached(guest);
        return false;
      }
    }
    return true;
  }

  /** Nothing stands against the volume on either side; only a block volume is looked at. */
  predicate Free(claim: HostClaim, node: string, hostNode: string, host: seq<Attachment>, guest: seq<Attachment>) {
    claim.mode == Some(Block) ==> NoOther(Attached(guest), claim.name, node) && OnlyOn(host, claim.pvName, hostNode)
  }

  /** One poll; `listed` says whether the host listing worked. */
  method VASettled(host: HostVM, lists: AttachmentLists, claim: HostClaim, node: string)
    returns (r: Result<bool>, listed: bool)
    modifies host`vm, host`vmi, lists`hostSide
    ensures (host.vm == old(host.vm) && host.vmi == old(host.vmi))
            || Drift(host.present, host.watched, old(host.vm), old(host.vmi), host.vm, host.vmi)
    ensures host.quiet ==> host.vm == old(host.vm)
    ensures host.prompt && old(host.vmi).Some? ==> host.vmi.Some?
    ensures lists.still ==> lists.hostSide == old(lists.hostSide)
    ensures !listed || claim.mode != Some(Block) ==> r == Ok(true)
    ensures r.Ok? && listed ==> (r.value <==> Free(claim, node, host.hostNode, lists.hostSide, lists.guestSide))
    ensures r.Err? && !host.faulty && !lists.faulty ==> host.vmi.None?
    ensures !lists.faulty ==> listed == lists.listable
  {
    var hostVAs := lists.ListHost();
    listed := hostVAs.Some?;
    if !listed || claim.mode == None || claim.mode == Some(Filesystem) {
      return Ok(true), listed;
    }
    assert claim.mode.value == Block;
    var vmi := host.GetInstance();
    if vmi.Err? {
      return Err(vmi.failure), listed;
    }
    var settled := CheckHostVA(hostVAs.value, claim.pvName, host.hostNode);
    if !settled {
      return Ok(false), listed;
    }
    var guestVAs := lists.ListGuest();
    if guestVAs.None? {
      return Err(Unavailable), listed;
    }
    settled := CheckGuestVA(guestVAs.value, claim.name, node);
    r := Ok(settled);
  }

  /** The volume is on the machine and its instance, or KubeVirt and the API server let it get there at once. */
  predicate Attachable(host: HostVM, declarative: bool, id: string, polls: nat)
    reads host
  {
    && !host.faulty && id == host.watched
    && ((OnMachine(host.present, host.vm, id) && InInstance(host.vmi, id))
        || (&& host.present && host.prompt && host.vmi.Some? && polls > 0
            && (declarative ==> host.quiet && Patchable(Add(id), host.vm.content))))
  }

  /** The host's answer about attachments can be told. */
  predicate Clear(faulty: bool, listable: bool, still: bool) { !faulty && (listable ==> still) }

  /** Publishing a bound RWO claim to a guest node. */
  method PublishRWO(host: HostVM, lists: AttachmentLists, declarative: bool, claim: HostClaim, node: string,
                    settlePolls: nat, attachPolls: nat)
    returns (r: Reply, listed: bool)
    modifies host, lists`hostSide
    ensures r in {OK, Internal, Aborted, DeadlineExceeded}
    ensures r == OK && listed ==> Free(claim, node, host.hostNode, lists.hostSide, lists.guestSide)
    ensures r == OK && claim.name == host.watched ==>
      OnMachine(host.present, host.vm, claim.name) && InInstance(host.vmi, claim.name)
    ensures r != DeadlineExceeded && !lists.faulty ==> listed == lists.listable
    ensures settlePolls > 0 && claim.mode != Some(Block) ==> r != DeadlineExceeded
    ensures lists.still ==> lists.hostSide == old(lists.hostSide)
    ensures r == OK && claim.name == host.watched && !InSpec(old(host.vm), claim.name) ==> HotplugEntry(host.vm, claim.name)
    // With calls answered, a volume that nothing stands against is published, and any other waited for in vain.
    ensures (&& settlePolls > 0
             && old(Attachable(host, declarative, claim.name, attachPolls))
             && (claim.mode == Some(Block) ==> Clear(lists.faulty, lists.listable, lists.still))
             && (lists.listable ==> Free(claim, node, host.hostNode, old(lists.hostSide), lists.guestSide))) ==> r == OK
    ensures !lists.faulty && lists.listable && lists.still && !Free(claim, node, host.hostNode, old(lists.hostSide), lists.guestSide) ==>
      r == DeadlineExceeded
  {
    ghost var attachable := Attachable(host, declarative, claim.name, attachPolls)
      && (claim.mode == Some(Block) ==> Clear(lists.faulty, lists.listable, lists.still))
      && (lists.listable ==> Free(claim, node, host.hostNode, lists.hostSide, lists.guestSide));
    ghost var vm, vmi := host.vm, host.vmi;
    var settled := false;
    listed := false;
    for i := 0 to settlePolls
      invariant !settled
      invariant claim.mode != Some(Block) ==> i == 0
      invariant attachable ==> i == 0 && Attachable(host, declarative, claim.name, attachPolls)
      invariant SameFor(host.vm.content, old(host.vm).content, {host.watched})
      invariant lists.still ==> lists.hostSide == old(lists.hostSide)
    {
      var poll: Result<bool>;
      vm, vmi := host.vm, host.vmi;
      poll, listed := VASettled(host, lists, claim, node);
      if attachable && (host.vm, host.vmi) != (vm, vmi) {
        DriftIsSame(host.present, host.watched, vm, vmi, host.vm, host.vmi);
      }
      if poll.Err? {
        return DeadlineExceeded, listed;
      }
      if poll.value {
        settled := true;
        break;
      }
    }
    if !settled {
      return DeadlineExceeded, listed;
    }
    SameForSame(host.vm.content, old(host.vm).content, host.watched);
    r := AttachVolume(host, declarative, claim.name, attachPolls);
  }

  // ---- Whole runs ----

  /** Attachments marked in the guest, and OK answers whose attachment is not marked yet. */
  datatype Ledger = Ledger(attached: set<Holding>, answered: set<Holding>)

  datatype Call =
    | Published(volume: string, node: string, listed: bool, hostSide: set<string>)   // a block publish answered OK
    | Marked(volume: string, node: string)     // the guest records an answered publish
    | Cleared(volume: string, node: string)    // the guest drops both after an OK unpublish

  function After(l: Ledger, c: Call): Ledger {
    match c
    case Published(v, n, _, _) => l.(answered := l.answered + {(v, n)})
    case Marked(v, n) => Ledger(l.attached + {(v, n)}, l.answered - {(v, n)})
    case Cleared(v, n) => Ledger(l.attached - {(v, n)}, l.answered - {(v, n)})
  }

  function AfterAll(l: Ledger, cs: seq<Call>): Ledger {
    if cs == [] then l else After(AfterAll(l, cs[..|cs| - 1]), cs[|cs| - 1])
  }

  /** What the driver and the guest let happen, `at` giving the host node of each guest node's machine; the
      first case is what `PublishRWO` promises of an OK answer. */
  predicate Possible(at: string -> string, l: Ledger, c: Call) {
    match c
    case Published(v, n, listed, hostSide) => listed ==> NoOther(l.attached, v, n) && hostSide <= {at(n)}
    case Marked(v, n) => (v, n) in l.answered
    case Cleared(v, n) => true
  }

  ghost predicate PossibleRun(at: string -> string, l: Ledger, cs: seq<Call>) {
    forall k :: 0 <= k < |cs| ==> Possible(at, AfterAll(l, cs[..k]), cs[k])
  }

  /** No volume is with two guest nodes. */
  ghost predicate OneNodeEach(held: set<Holding>) {
    forall g, h :: g in held && h in held && g.0 == h.0 ==> g == h
  }

  /** Only recordings of answers that were given. */
  ghost predicate Recordings(l: Ledger, ms: seq<Call>) {
    forall k :: 0 <= k < |ms| ==> ms[k].Marked? && (ms[k].volume, ms[k].node) in AfterAll(l, ms[..k]).answered
  }

  /** However the guest goes on recording, no volume is ever marked attached to two nodes. */
  ghost predicate Safe(l: Ledger) {
    forall ms :: Recordings(l, ms) ==> OneNodeEach(AfterAll(l, ms).attached)
  }

  lemma {:induction false} RecordingsOnlyMove(l: Ledger, ms: seq<Call>)
    requires Recordings(l, ms)
    ensures AfterAll(l, ms).attached + AfterAll(l, ms).answered == l.attached + l.answered
  {
    if ms != [] {
      var init := ms[..|ms| - 1];
      assert forall k :: 0 <= k < |init| ==> init[..k] == ms[..k];
      RecordingsOnlyMove(l, init);
    }
  }

  /** Whatever was attached or answered can be recorded together. */
  lemma RecordTwo(l: Ledger, g: Holding, h: Holding) returns (ms: seq<Call>)
    requires g in l.attached + l.answered && h in l.attached + l.answered && g != h
    ensures Recordings(l, ms) && g in AfterAll(l, ms).attached && h in AfterAll(l, ms).attached
  {
    ms := if g in l.attached then [] else [Marked(g.0, g.1)];
    assert ms != [] ==> ms[..0] == [];
    assert g in AfterAll(l, ms).attached && Recordings(l, ms);
    if h !in AfterAll(l, ms).attached {
      var more := ms + [Marked(h.0, h.1)];
      assert more[..|ms|] == ms;
      assert forall k :: 0 <= k < |ms| ==> more[..k] == ms[..k];
      ms := more;
    }
  }

  /** A ledger is safe exactly when no volume has two nodes among attachments and unrecorded answers. */
  lemma SafeIff(l: Ledger)
    ensures Safe(l) <==> OneNodeEach(l.attached + l.answered)
  {
    if OneNodeEach(l.attached + l.answered) {
      forall ms | Recordings(l, ms)
        ensures OneNodeEach(AfterAll(l, ms).attached)
      {
        RecordingsOnlyMove(l, ms);
        var after := AfterAll(l, ms);
        assert forall g :: g in after.attached ==> g in after.attached + after.answered;
      }
    } else {
      var g, h :| g in l.attached + l.answered && h in l.attached + l.answered && g.0 == h.0 && g != h;
      var ms := RecordTwo(l, g, h);
    }
  }

  /** What a caller can see to before a publish: the previous answer for another node has been recorded, and
      if the host does not let attachments be listed, nobody else has the volume. */
  predicate Careful(l: Ledger, c: Call) {
    c.Published? ==>
      && NoOther(l.answered, c.volume, c.node)
      && (c.listed || NoOther(l.attached, c.volume, c.node))
  }

  lemma CarefulStep(at: string -> string, l: Ledger, c: Call)
    requires OneNodeEach(l.attached + l.answered) && Possible(at, l, c)
    ensures OneNodeEach(After(l, c).attached + After(l, c).answered) <==> Careful(l, c)
  {
    var next := After(l, c);
    if c.Published? && OneNodeEach(next.attached + next.answered) {
      assert (c.volume, c.node) in next.attached + next.answered;
      forall h | h in l.answered + l.attached && h.0 == c.volume
        ensures h.1 == c.node
      {
        assert h in next.attached + next.answered;
      }
    }
  }

  /** A run of calls stays safe, so that no recording ever puts a block volume on two guest nodes, if and only
      if its publishes are careful. */
  lemma {:induction false} ExclusiveRun(at: string -> string, l: Ledger, cs: seq<Call>)
    requires Safe(l) && PossibleRun(at, l, cs)
    ensures (forall k :: 0 <= k <= |cs| ==> Safe(AfterAll(l, cs[..k]))) <==>
            (forall k :: 0 <= k < |cs| ==> Careful(AfterAll(l, cs[..k]), cs[k]))
  {
    if forall k :: 0 <= k <= |cs| ==> Safe(AfterAll(l, cs[..k])) {
      forall k | 0 <= k < |cs|
        ensures Careful(AfterAll(l, cs[..k]), cs[k])
      {
        assert Safe(AfterAll(l, cs[..k])) && Safe(AfterAll(l, cs[..k + 1]));
        assert cs[..k + 1][..k] == cs[..k];
        SafeIff(AfterAll(l, cs[..k]));
        SafeIff(AfterAll(l, cs[..k + 1]));
        CarefulStep(at, AfterAll(l, cs[..k]), cs[k]);
      }
    }
    if forall k :: 0 <= k < |cs| ==> Careful(AfterAll(l, cs[..k]), cs[k]) {
      forall k | 0 <= k <= |cs|
        ensures Safe(AfterAll(l, cs[..k]))
      {
        CarefulPrefix(at, l, cs, k);
      }
    }
  }

  lemma {:induction false} CarefulPrefix(at: string -> string, l: Ledger, cs: seq<Call>, k: nat)
    requires Safe(l) && PossibleRun(at, l, cs)
    requires forall j :: 0 <= j < |cs| ==> Careful(AfterAll(l, cs[..j]), cs[j])
    requires k <= |cs|
    ensures Safe(AfterAll(l, cs[..k]))
  {
    if k > 0 {
      CarefulPrefix(at, l, cs, k - 1);
      assert cs[..k][..k - 1] == cs[..k - 1];
      SafeIff(AfterAll(l, cs[..k - 1]));
      CarefulStep(at, AfterAll(l, cs[..k - 1]), cs[k - 1]);
      SafeIff(AfterAll(l, cs[..k]));
    }
  }

  /** The host lists the host node of every machine that has the volume. */
  predicate UpToDate(at: string -> string, l: Ledger, c: Call) {
    c.Published? ==> forall h :: h in l.attached + l.answered && h.0 == c.volume ==> at(h.1) in c.hostSide
  }

  /** With such a list only an answer for another machine on the same host node is in the way. */
  predicate CarefulOnHost(at: string -> string, l: Ledger, c: Call) {
    c.Published? ==> forall h :: h in l.answered && h.0 == c.volume && at(h.1) == at(c.node) ==> h.1 == c.node
  }

  lemma HostListNarrows(at: string -> string, l: Ledger, c: Call)
    requires Possible(at, l, c) && UpToDate(at, l, c) && (c.Published? ==> c.listed)
    ensures Careful(l, c) <==> CarefulOnHost(at, l, c)
  {
    if c.Published? {
      forall h | h in l.answered && h.0 == c.volume
        ensures at(h.1) == at(c.node)
      {
        assert h in l.attached + l.answered;
        assert at(h.1) in c.hostSide;
      }
    }
  }

  /** With listings that work and are up to date, a run keeps every block volume on one guest node if and only
      if it never publishes one while an answer for another machine on the same host node is unrecorded. */
  lemma ExclusiveRunWithHostList(at: string -> string, l: Ledger, cs: seq<Call>)
    requires Safe(l) && PossibleRun(at, l, cs)
    requires forall k :: 0 <= k < |cs| ==> cs[k].Published? ==> cs[k].listed
    requires forall k :: 0 <= k < |cs| ==> UpToDate(at, AfterAll(l, cs[..k]), cs[k])
    ensures (forall k :: 0 <= k <= |cs| ==> Safe(AfterAll(l, cs[..k]))) <==>
            (forall k :: 0 <= k < |cs| ==> CarefulOnHost(at, AfterAll(l, cs[..k]), cs[k]))
  {
    forall k | 0 <= k < |cs|
      ensures Careful(AfterAll(l, cs[..k]), cs[k]) <==> CarefulOnHost(at, AfterAll(l, cs[..k]), cs[k])
    {
      HostListNarrows(at, AfterAll(l, cs[..k]), cs[k]);
    }
    ExclusiveRun(at, l, cs);
  }

  // ---- The driver's own calls ----

  datatype Step = Publish(node: string) | Record(node: string) | Withdraw(node: string)

  function Holdings(volume: string, nodes: set<string>): set<Holding> { set n | n in nodes :: (volume, n) }

  /**
   * The same for the driver's own calls on one block volume, with listings that work: any sequence of
   * publishes, recordings of their answers and unpublishes over any machines keeps the volume on one node,
   * if the caller does not publish to a node while an answer for another is not recorded.
   */
  method CarefulCalls(hosts: map<string, HostVM>, lists: AttachmentLists, declarative: bool, claim: HostClaim,
                      steps: seq<Step>, polls: nat)
    returns (answered: set<string>)
    requires claim.mode == Some(Block) && lists.listable && !lists.faulty
    requires OneNodeEach(Attached(lists.guestSide))
    modifies hosts.Values, lists
    ensures OneNodeEach(Attached(lists.guestSide) + Holdings(claim.name, answered))
  {
    answered := {};
    assert Attached(lists.guestSide) + Holdings(claim.name, answered) == Attached(lists.guestSide);
    for i := 0 to |steps|
      invariant OneNodeEach(Attached(lists.guestSide) + Holdings(claim.name, answered))
    {
      answered := CarefulCall(hosts, lists, declarative, claim, steps[i], polls, answered);
    }
  }

  method CarefulCall(hosts: map<string, HostVM>, lists: AttachmentLists, declarative: bool, claim: HostClaim,
                     step: Step, polls: nat, before: set<string>)
    returns (answered: set<string>)
    requires claim.mode == Some(Block) && lists.listable && !lists.faulty
    requires OneNodeEach(Attached(lists.guestSide) + Holdings(claim.name, before))
    modifies hosts.Values, lists
    ensures step.Publish? ==> before <= answered <= before + {step.node} && lists.guestSide == old(lists.guestSide)
    ensures step.Record? && step.node in before ==>
      answered == before - {step.node} && Attached(lists.guestSide) == Attached(old(lists.guestSide)) + {(claim.name, step.node)}
    ensures step.Withdraw? ==> answered == before || answered == before - {step.node}
    // With calls answered a careful publish that nothing stands against is answered OK.
    ensures (&& step.Publish? && step.node in hosts && before <= {step.node} && polls > 0 && lists.still
             && old(Attachable(hosts[step.node], declarative, claim.name, polls))
             && Free(claim, step.node, hosts[step.node].hostNode, old(lists.hostSide), lists.guestSide)) ==>
      step.node in answered
    ensures OneNodeEach(Attached(lists.guestSide) + Holdings(claim.name, answered))
  {
    ghost var ledger := Ledger(Attached(lists.guestSide), Holdings(claim.name, before));
    ghost var at := (n: string) => n;
    var node := step.node;
    answered := before;
    match step {
      case Publish(_) =>
        if node in hosts && before <= {node} {
          assert hosts[node] in hosts.Values;
          var r, listed := PublishRWO(hosts[node], lists, declarative, claim, node, polls, polls);
          if r == OK {
            answered := before + {node};
            CarefulStep(at, ledger, Published(claim.name, node, listed, {}));
            assert Holdings(claim.name, answered) == ledger.answered + {(claim.name, node)};
          }
        }
      case Record(_) =>
        if node in before {
          RecordedIsAttached(lists.guestSide, claim.name, node);
          lists.guestSide := lists.guestSide + [Attachment(claim.name, node, true)];
          answered := before - {node};
          CarefulStep(at, ledger, Marked(claim.name, node));
          assert Holdings(claim.name, answered) == ledger.answered - {(claim.name, node)};
        }
      case Withdraw(_) =>
        if node in hosts {
          assert hosts[node] in hosts.Values;
          var r := UnpublishVolume(hosts[node], declarative, claim.name);
          if r == OK {
            lists.guestSide := Dropped(lists.guestSide, claim.name, node);
            answered := before - {node};
            assert Attached(lists.guestSide) == ledger.attached - {(claim.name, node)};
            CarefulStep(at, ledger, Cleared(claim.name, node));
            assert Holdings(claim.name, answered) == ledger.answered - {(claim.name, node)};
          }
        }
    }
  }

  lemma RecordedIsAttached(guest: seq<Attachment>, volume: string, node: string)
    ensures Attached(guest + [Attachment(volume, node, true)]) == Attached(guest) + {(volume, node)}
  {
    var more := guest + [Attachment(volume, node, true)];
    assert forall a :: a in more <==> a in guest || a == Attachment(volume, node, true);
    assert Attachment(volume, node, true) in more;
  }

  /** The attachments without those of a volume on a node. */
  function Dropped(guest: seq<Attachment>, volume: string, node: string): (r: seq<Attachment>)
    ensures forall a :: a in r <==> a in guest && (a.volume, a.node) != (volume, node)
  {
    if guest == [] then []
    else
      var init, last := guest[..|guest| - 1], guest[|guest| - 1];
      assert guest == init + [last];
      Dropped(init, volume, node) + if (last.volume, last.node) == (volume, node) then [] else [last]
  }

  /**
   * And without that care: a block volume nobody has, two machines on one host node, every call answered and
   * every listing working.  Both publishes answer OK, both machines get the volume, and recording the two
   * answers marks it attached to two guest nodes.
   */
  method LateRecordSharesVolume(first: HostVM, second: HostVM, lists: AttachmentLists, claim: HostClaim,
                                a: string, b: string, polls: nat)
    returns (r: Reply, s: Reply)
    requires first != second && a != b && polls > 0 && claim.mode == Some(Block)
    requires Attachable(first, true, claim.name, polls) && Attachable(second, true, claim.name, polls)
    requires lists.listable && !lists.faulty && lists.still
    requires first.hostNode == second.hostNode && OnlyOn(lists.hostSide, claim.pvName, first.hostNode)
    requires forall h :: h in Attached(lists.guestSide) ==> h.0 != claim.name
    requires !OnMachine(first.present, first.vm, claim.name) && !OnMachine(second.present, second.vm, claim.name)
    modifies first, second, lists
    ensures r == s == OK
    ensures OnMachine(first.present, first.vm, claim.name) && OnMachine(second.present, second.vm, claim.name)
    ensures Attached(lists.guestSide) == Attached(old(lists.guestSide)) + {(claim.name, a), (claim.name, b)}
    ensures !OneNodeEach(Attached(lists.guestSide))
  {
    var listed;
    r, listed := PublishRWO(first, lists, true, claim, a, polls, polls);
    s, listed := PublishRWO(second, lists, true, claim, b, polls, polls);
    RecordedIsAttached(lists.guestSide, claim.name, a);
    lists.guestSide := lists.guestSide + [Attachment(claim.name, a, true)];
    RecordedIsAttached(lists.guestSide, claim.name, b);
    lists.guestSide := lists.guestSide + [Attachment(claim.name, b, true)];
    assert (claim.name, a) in Attached(lists.guestSide) && (claim.name, b) in Attached(lists.guestSide);
  }
}
