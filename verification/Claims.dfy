/** The size of a claim: where it starts and how it grows. */
module ClaimSizes {
  import opened Options

  const TWO_63 := 0x8000_0000_0000_0000

  type Int64 = x: int | -TWO_63 <= x < TWO_63

  const ALIGNMENT: Int64 := 2 * 1024 * 1024

  const MINIMAL: Int64 := 10 * 1024 * 1024

  function Wrap(x: int): Int64 { (x + TWO_63) % (2 * TWO_63) - TWO_63 }

  function RoundUpSize(size: Int64): Int64 {
    if size <= 0 then ALIGNMENT
    else if size % ALIGNMENT == 0 then size
    else Wrap(Wrap(size - size % ALIGNMENT) + ALIGNMENT)
  }

  /** The size asked for, or the minimum when less or nothing is asked for. */
  function RequestedSize(required: Option<Int64>): Int64 {
    if required.None? || required.value < MINIMAL then MINIMAL else required.value
  }

  ghost predicate LeastMultiple(r: int, size: int) {
    && r % ALIGNMENT == 0 && r >= size && r > 0
    && forall m :: m % ALIGNMENT == 0 && m >= size && m > 0 ==> r <= m
  }

  lemma NextMultiple(low: int, m: int)
    requires low % ALIGNMENT == 0 && m % ALIGNMENT == 0 && m > low
    ensures m >= low + ALIGNMENT
  {
  }

  lemma RoundUpValue(size: Int64)
    requires size > 0 && size % ALIGNMENT != 0
    ensures size <= TWO_63 - ALIGNMENT ==> RoundUpSize(size) == size - size % ALIGNMENT + ALIGNMENT
    ensures size > TWO_63 - ALIGNMENT ==> RoundUpSize(size) == -TWO_63
  {
    var low := size - size % ALIGNMENT;
    assert low % ALIGNMENT == 0 && 0 <= low < TWO_63;
    if size <= TWO_63 - ALIGNMENT {
      assert low < TWO_63 - ALIGNMENT by {
        assert (TWO_63 - ALIGNMENT) % ALIGNMENT == 0;
      }
    } else {
      assert (TWO_63 - ALIGNMENT) % ALIGNMENT == 0;
      NextMultiple(low, TWO_63);
      assert low == TWO_63 - ALIGNMENT;
    }
  }

  lemma LeastAbove(low: int, size: int)
    requires low % ALIGNMENT == 0 && low >= 0 && size <= low + ALIGNMENT && (size > low || low == 0)
    ensures LeastMultiple(low + ALIGNMENT, size)
  {
    forall m | m % ALIGNMENT == 0 && m >= size && m > 0
      ensures low + ALIGNMENT <= m
    {
      NextMultiple(low, m);
    }
  }

  /** Rounding gives the least positive multiple that covers the size, exactly as long as that fits. */
  lemma RoundUpIsLeast(size: Int64)
    ensures size <= TWO_63 - ALIGNMENT <==> LeastMultiple(RoundUpSize(size), size)
    ensures size > TWO_63 - ALIGNMENT ==> RoundUpSize(size) == -TWO_63
  {
    if size <= 0 {
      LeastAbove(0, size);
    } else if size % ALIGNMENT == 0 {
      FitsBelow(size);
    } else {
      RoundUpValue(size);
      if size <= TWO_63 - ALIGNMENT {
        LeastAbove(size - size % ALIGNMENT, size);
      }
    }
  }

  lemma FitsBelow(size: Int64)
    requires size % ALIGNMENT == 0
    ensures size <= TWO_63 - ALIGNMENT
  {
    if size > TWO_63 - ALIGNMENT {
      assert (TWO_63 - ALIGNMENT) % ALIGNMENT == 0;
      NextMultiple(TWO_63 - ALIGNMENT, size);
    }
  }

  /** A claim made from scratch starts at the least multiple of 2 MiB that covers what is asked for and 10 MiB. */
  lemma ScratchClaimSize(required: Option<Int64>)
    requires required.Some? ==> required.value <= TWO_63 - 2097152
    ensures var size := RoundUpSize(RequestedSize(required));
      var least := if required.Some? && required.value > 10485760 then required.value else 10485760;
      && size % 2097152 == 0 && size >= least
      && forall m :: m % 2097152 == 0 && m >= least ==> size <= m
  {
    RoundUpIsLeast(RequestedSize(required));
  }
}

/** Growing a claim while others, and other expansions, write it. */
module ClaimExpansion {
  import opened Options
  import opened OptimisticStore
  import opened Replies

  datatype Claim = Claim(requested: int, capacity: int)

  /** An update of the request computed from the claim that was read; a shrink is not sent. */
  function ServeExpand(size: int, seen: Object<Claim>, current: Object<Claim>): Option<Claim> {
    if seen.version != current.version || seen.content.requested > size then None
    else Some(seen.content.(requested := size))
  }

  type Cluster = System<int, Claim>

  type Happening = Event<int, Claim>

  function RequestAfter(s: Cluster, es: seq<Happening>): int { Run(ServeExpand, s, es).current.content.requested }

  /** The requested size never decreases, under any interleaving of expansions with writers that do not lower it. */
  lemma {:induction false} RequestNeverShrinks(s: Cluster, es: seq<Happening>, k: nat)
    requires Coherent(s)
    requires k <= |es|
    requires forall j :: 0 <= j < |es| && es[j].Other? ==> es[j].content.requested >= RequestAfter(s, es[..j])
    ensures RequestAfter(s, es[..k]) <= RequestAfter(s, es)
  {
    if k == |es| {
      assert es[..k] == es;
    } else {
      var init := es[..|es| - 1];
      forall j | 0 <= j < |init| && init[j].Other?
        ensures init[j].content.requested >= RequestAfter(s, init[..j])
      {
        assert init[..j] == es[..j];
      }
      RequestNeverShrinks(s, init, k);
      assert init[..k] == es[..k];
      assert Guarded(ServeExpand);
      Serializable(ServeExpand, s, init);
    }
  }

  class ClaimApi {
    const faulty: bool
    const volumeName: string       // empty when the claim is not bound, or missing
    const users: seq<set<string>>  // the claims each pod of the namespace mounts
    const onlineAllowed: bool      // the host has the online-expansion setting
    var claim: Object<Claim>

    constructor (faulty: bool, volumeName: string, users: seq<set<string>>, onlineAllowed: bool, claim: Object<Claim>)
      ensures this.claim == claim && this.faulty == faulty && this.volumeName == volumeName
      ensures this.users == users && this.onlineAllowed == onlineAllowed
    {
      this.faulty, this.volumeName, this.users, this.onlineAllowed := faulty, volumeName, users, onlineAllowed;
      this.claim := claim;
    }

    /** Some pod mounts the claim. */
    ghost predicate Used(id: string) { exists i :: 0 <= i < |users| && id in users[i] }

    /** Others write the claim without lowering the request; the host only adds capacity. */
    method Interfere()
      modifies this
      ensures Grown(old(claim), claim)
    {
      var next: Object<Claim> := *;
      if Grown(claim, next) {
        claim := next;
      }
    }

    method Get() returns (r: Option<Object<Claim>>)
      modifies this
      ensures Grown(old(claim), claim)
      ensures r.Some? ==> r.value == claim
      ensures !faulty ==> r.Some?
    {
      Interfere();
      var fails: bool := *;
      r := if faulty && fails then None else Some(claim);
    }

    method Update(seen: Object<Claim>, size: int) returns (ok: bool, ghost current: Object<Claim>)
      modifies this
      ensures Grown(old(claim), current)
      ensures claim == current || (seen.version == current.version && claim == Commit(current, current.content.(requested := size)))
      ensures ok ==> seen.version == current.version && claim == Commit(current, current.content.(requested := size))
      ensures !faulty ==> ok == (seen.version == current.version)
    {
      Interfere();
      current := claim;
      var fails: bool, lost: bool := *, *;
      if claim.version != seen.version || (faulty && fails) {
        return false, claim;
      }
      claim := Commit(claim, claim.content.(requested := size));
      ok := !(faulty && lost);
    }
  }

  predicate Grown(a: Object<Claim>, b: Object<Claim>) {
    Later(a, b) && a.content.requested <= b.content.requested && a.content.capacity <= b.content.capacity
  }

  method IsVolumeInUse(api: ClaimApi, id: string) returns (r: Option<bool>)
    ensures r.Some? ==> (r.value <==> api.Used(id))
    ensures !api.faulty ==> r.Some?
  {
    var fails: bool := *;
    if api.faulty && fails {
      return None;
    }
    for i := 0 to |api.users|
      invariant forall j :: 0 <= j < i ==> id !in api.users[j]
    {
      if id in api.users[i] {
        return Some(true);
      }
    }
    return Some(false);
  }

  /** `seen` is the claim that is read, `current` the one the update meets, `written` what it leaves. */
  method ExpandVolume(api: ClaimApi, id: string, shared: bool, required: Option<int>, polls: nat)
    returns (r: Reply, size: int, nodeExpansion: bool,
             ghost seen: Object<Claim>, ghost current: Object<Claim>, ghost written: Object<Claim>)
    modifies api
    // One step of the protocol: it read a claim, its update met a later one, the host grew the result.
    ensures Grown(old(api.claim), seen) && Grown(seen, current) && Grown(written, api.claim)
    ensures written == current || (required.Some? && written == Deliver(ServeExpand, required.value, seen, current))
    ensures r in {OK, DeadlineExceeded} ==>
      required.Some? && ServeExpand(required.value, seen, current).Some? && written == Deliver(ServeExpand, required.value, seen, current)
    // Whatever happens, the request never goes down.
    ensures old(api.claim).content.requested <= api.claim.content.requested
    // OK means the capacity covers the size that is reported, and that was asked for.
    ensures r == OK ==> required == Some(size) && size <= api.claim.content.capacity && size <= api.claim.content.requested
    ensures r == OK ==> (nodeExpansion <==> api.Used(id))
    // What is refused, and why nothing else is when every call is answered.
    ensures shared ==> r == Internal && api.claim == old(api.claim)
    ensures r == OK && nodeExpansion ==> api.onlineAllowed
    ensures required.Some? && required.value < old(api.claim).content.requested ==> r != OK
    ensures !api.faulty && !shared ==> (r == NotFoundReply <==> api.volumeName == "")
    ensures !api.faulty && !shared && api.volumeName != "" && api.Used(id) && !api.onlineAllowed ==>
      r == Internal && written == current
    ensures !api.faulty && !shared && api.volumeName != "" && (api.Used(id) ==> api.onlineAllowed) ==>
      && (r == InvalidArgument <==> required.None?)
      && (r == FailedPrecondition <==> required.Some? && required.value < seen.content.requested)
      && (r == Internal <==> required.Some? && seen.content.requested <= required.value && seen.version != current.version)
      && (r in {OK, DeadlineExceeded} <==>
            required.Some? && seen.content.requested <= required.value && seen.version == current.version)
    // Otherwise the request is written, and the answer is whether the capacity came.
    ensures r in {OK, DeadlineExceeded} ==>
      required == Some(written.content.requested) && written.content.capacity == current.content.capacity
    ensures !api.faulty && r in {OK, DeadlineExceeded} && polls > 0 ==>
      && (current.content.capacity >= size ==> r == OK)
      && (r == OK <==> api.claim.content.capacity >= size)
    ensures r in {OK, DeadlineExceeded} ==> required == Some(size)
  {
    size, nodeExpansion := 0, false;
    seen, current, written := api.claim, api.claim, api.claim;
    if shared {
      return Internal, 0, false, seen, current, written;
    }
    var pvc := api.Get();
    seen, current, written := api.claim, api.claim, api.claim;
    if pvc.None? || api.volumeName == "" {
      return NotFoundReply, 0, false, seen, current, written;
    }
    var inUse := IsVolumeInUse(api, id);
    if inUse.None? || (inUse.value && !api.onlineAllowed) {
      return Internal, 0, false, seen, current, written;
    }
    if required.None? {
      return InvalidArgument, 0, false, seen, current, written;
    }
    size := required.value;
    if pvc.value.content.requested > size {
      return FailedPrecondition, size, false, seen, current, written;
    }
    var ok;
    ok, current := api.Update(pvc.value, size);
    written := api.claim;
    if !ok {
      return Internal, size, false, seen, current, written;
    }
    var expanded := WaitForCapacity(api, size, polls);
    if !expanded {
      return DeadlineExceeded, size, false, seen, current, written;
    }
    inUse := IsVolumeInUse(api, id);
    if inUse.None? {
      return Internal, size, false, seen, current, written;
    }
    r, nodeExpansion := OK, inUse.value;
  }

  method WaitForCapacity(api: ClaimApi, size: int, polls: nat) returns (reached: bool)
    modifies api
    ensures Grown(old(api.claim), api.claim)
    ensures reached ==> api.claim.content.capacity >= size
    ensures !api.faulty && polls > 0 ==> (reached <==> api.claim.content.capacity >= size)
    ensures !api.faulty && polls > 0 && old(api.claim).content.capacity >= size ==> reached
  {
    for i := 0 to polls
      invariant Grown(old(api.claim), api.claim)
      invariant !api.faulty && old(api.claim).content.capacity >= size ==> i == 0
      invariant !api.faulty && i > 0 ==> api.claim.content.capacity < size
    {
      var polled := api.Get();
      if polled.Some? && polled.value.content.capacity >= size {
        return true;
      }
    }
    return false;
  }
}
