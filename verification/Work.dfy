/** Weight is work: what verifyAnchor asks of one link (src/consensus/anchor.ts) makes the weight of an anchor the
    difficulty of the whole path that leads to it, so the heavier of two branches is the one with more work in it. */
module Work {
  import opened Primitives
  import opened Anchors
  import opened Store
  import opened ForkChoice

  /** Each anchor weighs its own difficulty more than its parent. */
  ghost predicate Weighted(s: Store) {
    forall id {:trigger HasParent(s, s[id])} :: id in s && HasParent(s, s[id]) ==>
      s[id].weight == s[s[id].prev.value].weight + s[id].difficulty
  }

  function Difficulties(path: seq<Anchor>): nat
    decreases |path|
  {
    if |path| == 0 then 0 else Difficulties(path[..|path| - 1]) + path[|path| - 1].difficulty
  }

  /** The path from just above an ancestor. */
  ghost function Above(s: Store, x: Id, y: Id): (p: seq<Anchor>)
    requires WellFormed(s) && y in s
    decreases s[y].height
  {
    if x == y then [] else (if HasParent(s, s[y]) then Above(s, x, s[y].prev.value) else []) + [s[y]]
  }

  lemma {:induction false} WeightIsWork(s: Store, x: Id, y: Id)
    requires WellFormed(s) && Weighted(s) && y in s && IsAncestor(s, x, y)
    ensures x in s && s[y].weight == s[x].weight + Difficulties(Above(s, x, y))
    decreases s[y].height
  {
    AncestorHeight(s, x, y);
    if x != y {
      WeightIsWork(s, x, s[y].prev.value);
      var p := Above(s, x, s[y].prev.value);
      assert (p + [s[y]])[..|p|] == p;
    }
  }

  /** The whole of a path from its root, whose own weight is taken on trust. */
  lemma {:induction false} WeightOfPath(s: Store, y: Id)
    requires WellFormed(s) && Weighted(s) && y in s
    ensures s[y].weight + PathTo(s, y)[0].difficulty == PathTo(s, y)[0].weight + Difficulties(PathTo(s, y))
    decreases s[y].height
  {
    var path := PathTo(s, y);
    if HasParent(s, s[y]) {
      WeightOfPath(s, s[y].prev.value);
      var p := PathTo(s, s[y].prev.value);
      assert path == p + [s[y]] && path[..|p|] == p;
    } else {
      assert path == [s[y]] && path[..0] == [];
    }
  }

  /** Of two branches off a common ancestor the heavier is the one with more work above it, or of as much the one
      with the lower id. */
  lemma MoreWorkIsHeavier(s: Store, f: Id, x: Id, y: Id)
    requires WellFormed(s) && Weighted(s) && x in s && y in s && IsAncestor(s, f, x) && IsAncestor(s, f, y)
    ensures Heavier(s[x], s[y]) <==>
              || Difficulties(Above(s, f, x)) > Difficulties(Above(s, f, y))
              || (Difficulties(Above(s, f, x)) == Difficulties(Above(s, f, y)) && StrLess(x, y))
  {
    WeightIsWork(s, f, x);
    WeightIsWork(s, f, y);
  }

  /** Building on an anchor outweighs it. */
  lemma ExtensionIsHeavier(s: Store, x: Id, y: Id)
    requires WellFormed(s) && Weighted(s) && x in s && y in s && IsAncestor(s, x, y) && x != y && s[y].difficulty > 0
    ensures Heavier(s[y], s[x])
  {
    WeightIsWork(s, x, y);
    var p := Above(s, x, y);
    assert p[|p| - 1] == s[y];
  }

  lemma WorkGrows(h: History, h': History, a: Anchor)
    requires Extends(h, h') && h' == Grown(h, a) && Weighted(h.all)
    requires a.prev.Some? ==> a.prev.value in h.all && a.weight == h.all[a.prev.value].weight + a.difficulty
    ensures Weighted(h'.all)
  {
    forall id | id in h'.all && HasParent(h'.all, h'.all[id])
      ensures h'.all[id].weight == h'.all[h'.all[id].prev.value].weight + h'.all[id].difficulty
    {
      if id != a.id && id in h.all { assert Joined(h.all, id) || h.baseId == Some(id); }
    }
  }
}
