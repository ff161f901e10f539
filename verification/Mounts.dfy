/** Mount layers on one target path of a guest node, with a mount check that tells the truth. */
module Mounts {
  import opened Replies

  datatype Unmounted = Done | NotMounted | Failed

  class Target {
    const faulty: bool
    var layers: nat
    var made: bool       // the target path exists
    var unmounts: nat    // layers taken off so far

    constructor (faulty: bool)
      ensures this.faulty == faulty && layers == 0 && unmounts == 0
    {
      this.faulty, layers, made, unmounts := faulty, 0, false, 0;
    }

    method Mount() returns (ok: bool)
      modifies this`layers
      ensures layers == old(layers) + if ok then 1 else 0
      ensures !faulty ==> ok
    {
      var fails: bool := *;
      ok := !(faulty && fails);
      if ok {
        layers := layers + 1;
      }
    }

    method Unmount() returns (r: Unmounted)
      modifies this`layers, this`unmounts
      ensures r == Done ==> old(layers) > 0 && layers == old(layers) - 1 && unmounts == old(unmounts) + 1
      ensures r != Done ==> layers == old(layers) && unmounts == old(unmounts)
      ensures r == NotMounted ==> layers == 0
      ensures !faulty ==> r != Failed
    {
      var fails: bool := *;
      if faulty && fails {
        return Failed;
      }
      if layers == 0 {
        return NotMounted;
      }
      layers, unmounts := layers - 1, unmounts + 1;
      return Done;
    }
  }

  /** A raw block volume is bind-mounted on a file, on every call. */
  method PublishBlock(t: Target) returns (r: Reply)
    modifies t
    ensures t.layers == old(t.layers) + if r == OK then 1 else 0
    ensures t.unmounts == old(t.unmounts)
    ensures r == OK ==> t.made
    ensures !t.faulty ==> r == OK
  {
    var fails: bool := *;
    if t.faulty && fails {
      return Internal;
    }
    t.made := true;
    var mounted := t.Mount();
    if !mounted {
      t.made := t.layers > 0;
      return Internal;
    }
    return OK;
  }

  /** A filesystem is mounted once; a failure to grow it comes after the mount. */
  method PublishMount(t: Target) returns (r: Reply)
    modifies t
    ensures old(t.layers) > 0 ==> t.layers == old(t.layers)
    ensures old(t.layers) == 0 ==> t.layers <= 1
    ensures r == OK ==> t.layers > 0
    ensures t.unmounts == old(t.unmounts)
    ensures r == OK ==> t.made
    ensures !t.faulty ==> r == OK
  {
    var unchecked: bool, unresized: bool := *, *;
    if t.faulty && unchecked {
      return Internal;
    }
    t.made := true;
    if t.layers > 0 {
      return OK;
    }
    var mounted := t.Mount();
    if !mounted || (t.faulty && unresized) {
      return Internal;
    }
    return OK;
  }

  /** Takes layers off until none is left, then removes the path. */
  method Unpublish(t: Target) returns (r: Reply)
    modifies t
    ensures r == OK ==> t.layers == 0 && !t.made
    ensures t.layers + t.unmounts == old(t.layers) + old(t.unmounts)
    ensures !t.faulty ==> r == OK
  {
    while true
      invariant t.layers + t.unmounts == old(t.layers) + old(t.unmounts)
      decreases t.layers
    {
      var u := t.Unmount();
      if u == NotMounted {
        break;
      }
      if u == Failed {
        return Internal;
      }
      var unchecked: bool := *;
      if t.faulty && unchecked {
        return Internal;
      }
      if t.layers == 0 {
        break;
      }
    }
    var unremoved: bool := *;
    if t.made && t.faulty && unremoved {
      return Internal;
    }
    t.made := false;
    return OK;
  }

  /** After any publishes, block or filesystem, failed or not, one unpublish answered OK leaves no layer. */
  method PublishAllThenUnpublish(t: Target, blocks: seq<bool>) returns (r: Reply)
    modifies t
    ensures r == OK ==> t.layers == 0
    ensures !t.faulty ==> r == OK
    ensures !t.faulty ==> t.unmounts - old(t.unmounts) == LayersAfter(old(t.layers), blocks)
  {
    for i := 0 to |blocks|
      invariant !t.faulty ==> t.layers == LayersAfter(old(t.layers), blocks[..i])
      invariant t.unmounts == old(t.unmounts)
    {
      assert blocks[..i + 1][..i] == blocks[..i];
      if blocks[i] {
        r := PublishBlock(t);
      } else {
        r := PublishMount(t);
      }
    }
    assert blocks[..|blocks|] == blocks;
    r := Unpublish(t);
  }

  function LayersAfter(layers: nat, blocks: seq<bool>): nat {
    if blocks == [] then layers
    else
      var before := LayersAfter(layers, blocks[..|blocks| - 1]);
      if blocks[|blocks| - 1] then before + 1 else if before == 0 then 1 else before
  }
}
