/** Lists of named entries, as the volumes and the disks of a virtual machine are. */
module NamedItems {

  datatype Item<B> = Item(name: string, body: B)

  predicate Has<B>(s: seq<Item<B>>, name: string)
    ensures Has(s, name) <==> exists i :: 0 <= i < |s| && s[i].name == name
  {
    s != [] && (s[|s| - 1].name == name || Has(s[..|s| - 1], name))
  }

  /** The entries whose name is not in `names`, in order. */
  function Without<B>(s: seq<Item<B>>, names: set<string>): seq<Item<B>> {
    if s == [] then []
    else if s[|s| - 1].name in names then Without(s[..|s| - 1], names)
    else Without(s[..|s| - 1], names) + [s[|s| - 1]]
  }

  /** The entries whose name is in `names`, in order. */
  function Only<B>(s: seq<Item<B>>, names: set<string>): seq<Item<B>> {
    if s == [] then []
    else if s[|s| - 1].name in names then Only(s[..|s| - 1], names) + [s[|s| - 1]]
    else Only(s[..|s| - 1], names)
  }

  /** No two entries share a name. */
  ghost predicate Unique<B>(s: seq<Item<B>>) {
    forall i, j :: 0 <= i < j < |s| ==> s[i].name != s[j].name
  }

  lemma Snoc<B>(s: seq<Item<B>>, x: Item<B>, names: set<string>)
    ensures Without(s + [x], names) == if x.name in names then Without(s, names) else Without(s, names) + [x]
    ensures Only(s + [x], names) == if x.name in names then Only(s, names) + [x] else Only(s, names)
    ensures forall n :: Has(s + [x], n) <==> Has(s, n) || n == x.name
  {
    assert (s + [x])[..|s| + 1 - 1] == s;
  }

  lemma {:induction false} HasWithout<B>(s: seq<Item<B>>, names: set<string>, name: string)
    ensures Has(Without(s, names), name) <==> Has(s, name) && name !in names
  {
    if s != [] {
      HasWithout(s[..|s| - 1], names, name);
      Snoc(Without(s[..|s| - 1], names), s[|s| - 1], names);
    }
  }

  lemma {:induction false} HasOnly<B>(s: seq<Item<B>>, name: string)
    ensures Has(s, name) <==> Only(s, {name}) != []
  {
    if s != [] {
      HasOnly(s[..|s| - 1], name);
    }
  }

  lemma {:induction false} InOnly<B>(s: seq<Item<B>>, x: Item<B>, names: set<string>)
    ensures x in Only(s, names) <==> x in s && x.name in names
  {
    if s != [] {
      assert s == s[..|s| - 1] + [s[|s| - 1]];
      InOnly(s[..|s| - 1], x, names);
    }
  }

  lemma {:induction false} UniqueOnly<B>(s: seq<Item<B>>, name: string)
    requires Unique(s)
    ensures |Only(s, {name})| == if Has(s, name) then 1 else 0
  {
    if s != [] {
      UniqueOnly(s[..|s| - 1], name);
    }
  }

  lemma {:induction false} UniqueWithout<B>(s: seq<Item<B>>, names: set<string>)
    requires Unique(s)
    ensures Unique(Without(s, names))
  {
    if s != [] {
      var init, last := s[..|s| - 1], s[|s| - 1];
      UniqueWithout(init, names);
      HasWithout(init, names, last.name);
    }
  }

  /** Removing names in two steps is removing them at once, so the order of removals is irrelevant. */
  lemma {:induction false} WithoutTwice<B>(s: seq<Item<B>>, a: set<string>, b: set<string>)
    ensures Without(Without(s, a), b) == Without(s, a + b)
  {
    if s != [] {
      WithoutTwice(s[..|s| - 1], a, b);
      Snoc(Without(s[..|s| - 1], a), s[|s| - 1], b);
    }
  }

  lemma {:induction false} WithoutNothing<B>(s: seq<Item<B>>, names: set<string>)
    requires forall i :: 0 <= i < |s| ==> s[i].name !in names
    ensures Without(s, names) == s
  {
    if s != [] {
      WithoutNothing(s[..|s| - 1], names);
    }
  }

  /** What is kept keeps its order when something else is removed. */
  lemma {:induction false} OnlyWithout<B>(s: seq<Item<B>>, names: set<string>, kept: set<string>)
    requires names !! kept
    ensures Only(Without(s, names), kept) == Only(s, kept)
  {
    if s != [] {
      OnlyWithout(s[..|s| - 1], names, kept);
      Snoc(Without(s[..|s| - 1], names), s[|s| - 1], kept);
    }
  }
}
