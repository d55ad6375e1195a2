/** Ancestry in a set of anchors: paths, ancestors, k-deep ancestors and reconstructed heads. */
module Store {
  import opened Primitives
  import opened Anchors

  type Store = map<Id, Anchor>

  predicate HasParent(s: Store, a: Anchor) {
    a.prev.Some? && a.prev.value in s
  }

  ghost predicate WellFormed(s: Store) {
    && (forall id {:trigger s[id]} :: id in s ==> s[id].id == id && (s[id].prev.None? ==> s[id].height == 0))
    && (forall id {:trigger HasParent(s, s[id])} :: id in s && HasParent(s, s[id]) ==>
          s[s[id].prev.value].height + 1 == s[id].height)
  }

  /** The parent link of `id` is held, or it has none. */
  predicate Joined(s: Store, id: Id)
    requires id in s
  {
    s[id].prev.None? || HasParent(s, s[id])
  }

  /** chainTo: from the deepest anchor held up to `id`. */
  ghost function PathTo(s: Store, id: Id): (p: seq<Anchor>)
    requires WellFormed(s) && id in s
    ensures |p| > 0 && p[|p| - 1] == s[id]
    decreases s[id].height
  {
    if HasParent(s, s[id]) then PathTo(s, s[id].prev.value) + [s[id]] else [s[id]]
  }

  ghost predicate IsAncestor(s: Store, x: Id, y: Id)
    requires WellFormed(s) && y in s
    decreases s[y].height
  {
    x == y || (HasParent(s, s[y]) && IsAncestor(s, x, s[y].prev.value))
  }

  lemma {:induction false} AncestorHeight(s: Store, x: Id, y: Id)
    requires WellFormed(s) && y in s && IsAncestor(s, x, y)
    ensures x in s && s[x].height <= s[y].height
    ensures s[x].height == s[y].height ==> x == y
    decreases s[y].height
  {
    if x != y { AncestorHeight(s, x, s[y].prev.value); }
  }

  lemma {:induction false} AncestorTransitive(s: Store, x: Id, y: Id, z: Id)
    requires WellFormed(s) && y in s && z in s && IsAncestor(s, x, y) && IsAncestor(s, y, z)
    ensures IsAncestor(s, x, z)
    decreases s[z].height
  {
    if y != z { AncestorTransitive(s, x, y, s[z].prev.value); }
  }

  /** Two ancestors of one anchor lie on one line, in order of height. */
  lemma {:induction false} AncestorsLine(s: Store, x: Id, y: Id, z: Id)
    requires WellFormed(s) && z in s && IsAncestor(s, x, z) && IsAncestor(s, y, z)
    requires x in s && y in s && s[x].height <= s[y].height
    ensures IsAncestor(s, x, y)
    decreases s[z].height
  {
    if y == z {
    } else if x == z {
      AncestorHeight(s, y, z);
    } else {
      AncestorsLine(s, x, y, s[z].prev.value);
    }
  }

  /** The ancestor `k` links up, or the deepest one held. */
  ghost function Up(s: Store, id: Id, k: nat): (a: Anchor)
    requires WellFormed(s) && id in s
    ensures a.id in s && s[a.id] == a
    decreases k
  {
    if k > 0 && HasParent(s, s[id]) then Up(s, s[id].prev.value, k - 1) else s[id]
  }

  lemma {:induction false} UpIsAncestor(s: Store, id: Id, k: nat)
    requires WellFormed(s) && id in s
    ensures IsAncestor(s, Up(s, id, k).id, id)
    decreases k
  {
    if k > 0 && HasParent(s, s[id]) { UpIsAncestor(s, s[id].prev.value, k - 1); }
  }

  /** It is exactly `k` lower, or nothing deeper is held; never lower than that. */
  lemma {:induction false} UpReach(s: Store, id: Id, k: nat)
    requires WellFormed(s) && id in s
    ensures s[id].height <= Up(s, id, k).height + k
    ensures s[id].height == Up(s, id, k).height + k || !HasParent(s, Up(s, id, k))
    decreases k
  {
    if k > 0 && HasParent(s, s[id]) { UpReach(s, s[id].prev.value, k - 1); }
  }

  lemma {:induction false} UpDeeper(s: Store, id: Id, j: nat, k: nat)
    requires WellFormed(s) && id in s && j <= k
    ensures Up(s, id, k).height <= Up(s, id, j).height
    decreases j
  {
    if j > 0 && HasParent(s, s[id]) {
      UpDeeper(s, s[id].prev.value, j - 1, k - 1);
    } else {
      UpIsAncestor(s, id, k);
      AncestorHeight(s, Up(s, id, k).id, id);
    }
  }

  // ---------- what a chain that forgets still knows ----------

  /** Everything ever stored. `baseId` is an adopted checkpoint, whose full heads are taken on trust. */
  datatype History = History(all: Store, baseId: Option<Id>, baseHeads: Heads)

  ghost predicate Grounded(h: History) {
    && WellFormed(h.all)
    && (forall id {:trigger HasParent(h.all, h.all[id])} {:trigger Joined(h.all, id)} :: id in h.all ==>
          Joined(h.all, id) || h.baseId == Some(id))
    && (h.baseId.Some? ==>
          && h.baseId.value in h.all && !HasParent(h.all, h.all[h.baseId.value])
          && forall id :: id in h.all && h.all[id].prev.None? ==> id == h.baseId.value)
  }

  /** Full heads an anchor certified: every delta since the root, overlaid. */
  ghost function HeadsOf(h: History, id: Id): Heads
    requires WellFormed(h.all) && id in h.all
    decreases h.all[id].height
  {
    if h.baseId == Some(id) then h.baseHeads
    else if HasParent(h.all, h.all[id]) then ApplyHeadsDelta(HeadsOf(h, h.all[id].prev.value), h.all[id].headsDelta)
    else ApplyHeadsDelta(map[], h.all[id].headsDelta)
  }

  ghost predicate Below(s: Store, h: History) {
    WellFormed(s) && WellFormed(h.all) && forall id :: id in s ==> id in h.all && h.all[id] == s[id]
  }

  /** `s` holds every anchor of the history at `floor` and above. */
  ghost predicate KeepsFrom(s: Store, h: History, floor: nat) {
    Below(s, h) && forall id :: id in h.all && floor <= h.all[id].height ==> id in s
  }

  lemma {:induction false} AncestorLifts(s: Store, h: History, x: Id, y: Id)
    requires Below(s, h) && y in s && IsAncestor(s, x, y)
    ensures IsAncestor(h.all, x, y)
    decreases s[y].height
  {
    if x != y { AncestorLifts(s, h, x, s[y].prev.value); }
  }

  /** Ancestry among the anchors above the floor is decided by what is held. */
  lemma {:induction false} AncestorHeld(s: Store, h: History, floor: nat, x: Id, y: Id)
    requires KeepsFrom(s, h, floor) && y in s && x in h.all && floor <= h.all[x].height
    ensures IsAncestor(s, x, y) <==> IsAncestor(h.all, x, y)
    decreases s[y].height
  {
    if IsAncestor(s, x, y) {
      AncestorLifts(s, h, x, y);
    } else if IsAncestor(h.all, x, y) {
      var p := h.all[y].prev.value;
      AncestorHeight(h.all, x, p);
      AncestorHeld(s, h, floor, x, p);
    }
  }

  /** Adding an anchor that nobody's parent link waits for changes no ancestry and no heads. */
  ghost predicate Extends(h: History, h': History) {
    && Grounded(h) && Grounded(h') && h'.baseId == h.baseId && h'.baseHeads == h.baseHeads
    && forall id :: id in h.all ==> id in h'.all && h'.all[id] == h.all[id]
  }

  lemma {:induction false} ExtendKeeps(h: History, h': History, x: Id, y: Id)
    requires Extends(h, h') && y in h.all
    ensures IsAncestor(h.all, x, y) <==> IsAncestor(h'.all, x, y)
    ensures HeadsOf(h, y) == HeadsOf(h', y)
    decreases h.all[y].height
  {
    if HasParent(h.all, h.all[y]) { ExtendKeeps(h, h', x, h.all[y].prev.value); }
  }

  lemma ExtendKeepsAll(h: History, h': History)
    requires Extends(h, h')
    ensures forall x, y :: y in h.all ==> (IsAncestor(h.all, x, y) <==> IsAncestor(h'.all, x, y))
    ensures forall y :: y in h.all ==> HeadsOf(h, y) == HeadsOf(h', y)
  {
    forall x, y | y in h.all
      ensures IsAncestor(h.all, x, y) <==> IsAncestor(h'.all, x, y)
    {
      ExtendKeeps(h, h', x, y);
    }
    forall y | y in h.all ensures HeadsOf(h, y) == HeadsOf(h', y) { ExtendKeeps(h, h', y, y); }
  }

  // ---------- heads from the anchors held ----------

  ghost function Overlay(start: Heads, path: seq<Anchor>): Heads
    decreases |path|
  {
    if |path| == 0 then start
    else ApplyHeadsDelta(Overlay(start, path[..|path| - 1]), path[|path| - 1].headsDelta)
  }

  /** Where the held ancestry below `floor` is complete, or absent. */
  ghost predicate Stub(s: Store, floor: nat) {
    forall id {:trigger Joined(s, id)} {:trigger HasParent(s, s[id])} :: id in s && s[id].height < floor ==>
        Joined(s, id)
  }

  /** Unpruned: the walk from any anchor reaches a root. */
  ghost predicate RootKnown(s: Store, h: History) {
    h.baseId.None? && forall id {:trigger Joined(s, id)} {:trigger HasParent(s, s[id])} :: id in s ==> Joined(s, id)
  }

  /** Pruned or adopted at `f`: everything from its height up is held, and nothing below the base. */
  ghost predicate FloorHeld(s: Store, h: History, f: Id)
    requires WellFormed(h.all) && (h.baseId.Some? ==> h.baseId.value in h.all)
  {
    && f in s && KeepsFrom(s, h, s[f].height) && (s[f].prev.None? ==> h.baseId == Some(f))
    && (h.baseId.Some? ==>
          && h.all[h.baseId.value].height <= s[f].height
          && forall id :: id in s ==> h.all[h.baseId.value].height <= s[id].height)
  }

  /** The store reaches down to its floor, or to the root. */
  ghost predicate Rests(s: Store, h: History, floorId: Option<Id>) {
    && Grounded(h) && Below(s, h)
    && (if floorId.None? then RootKnown(s, h) else FloorHeld(s, h, floorId.value))
  }

  /** What is held below the floor, if anything, reaches a root: no run of ancestry ends in mid-air. */
  ghost predicate Clear(s: Store, h: History, floorId: Option<Id>) {
    floorId.Some? && floorId.value in s ==>
      && Stub(s, s[floorId.value].height)
      && (h.baseId.Some? ==> forall id :: id in s ==> s[floorId.value].height <= s[id].height)
  }

  ghost predicate HeadsKnown(s: Store, h: History, floorId: Option<Id>) {
    Rests(s, h, floorId) && Clear(s, h, floorId)
  }

  ghost predicate Seeded(s: Store, id: Id, floorId: Option<Id>)
    requires WellFormed(s) && id in s
  {
    floorId == Some(PathTo(s, id)[0].id)
  }

  ghost predicate ClosedUpTo(s: Store, k: nat) {
    forall id {:trigger Joined(s, id)} {:trigger HasParent(s, s[id])} :: id in s && s[id].height <= k ==> Joined(s, id)
  }

  /** One link up adds one delta, both to the reconstruction and to the history's heads. */
  lemma HeadsStep(s: Store, h: History, start: Heads, id: Id)
    requires Grounded(h) && Below(s, h) && id in s && HasParent(s, s[id]) && h.baseId != Some(id)
    ensures HeadsOf(h, id) == ApplyHeadsDelta(HeadsOf(h, s[id].prev.value), s[id].headsDelta)
    ensures PathTo(s, id) == PathTo(s, s[id].prev.value) + [s[id]]
    ensures Overlay(start, PathTo(s, id)) ==
              ApplyHeadsDelta(Overlay(start, PathTo(s, s[id].prev.value)), s[id].headsDelta)
    ensures Overlay(start, PathTo(s, id)[1..]) ==
              ApplyHeadsDelta(Overlay(start, PathTo(s, s[id].prev.value)[1..]), s[id].headsDelta)
  {
    var p, q := PathTo(s, id), PathTo(s, s[id].prev.value);
    assert p[..|p| - 1] == q;
    assert p[1..][..|p| - 2] == q[1..];
  }

  lemma {:induction false} HeadsBelowFloor(s: Store, h: History, id: Id)
    requires Grounded(h) && Below(s, h) && h.baseId.None? && id in s && ClosedUpTo(s, s[id].height)
    ensures Overlay(map[], PathTo(s, id)) == HeadsOf(h, id)
    ensures PathTo(s, id)[0].prev.None?
    decreases s[id].height
  {
    if HasParent(s, s[id]) {
      HeadsBelowFloor(s, h, s[id].prev.value);
      HeadsStep(s, h, map[], id);
    } else {
      assert PathTo(s, id)[..0] == [];
    }
  }

  /** The floor's own ancestry, when it was stored again after pruning, reaches a root. */
  lemma FloorRejoined(s: Store, h: History, f: Id)
    requires HeadsKnown(s, h, Some(f)) && HasParent(s, s[f])
    ensures Overlay(map[], PathTo(s, f)) == HeadsOf(h, f) && !Seeded(s, f, Some(f))
  {
    var q := s[f].prev.value;
    assert h.baseId.None?;
    assert ClosedUpTo(s, s[q].height);
    HeadsBelowFloor(s, h, q);
    HeadsStep(s, h, map[], f);
    assert PathTo(s, f)[0] == PathTo(s, q)[0];
    PathRises(s, q, 0);
  }

  lemma FloorHeads(s: Store, h: History, f: Id, floorHeads: Heads)
    requires HeadsKnown(s, h, Some(f)) && floorHeads == HeadsOf(h, f)
    ensures var p := PathTo(s, f);
            HeadsOf(h, f) == if Seeded(s, f, Some(f)) then Overlay(floorHeads, p[1..]) else Overlay(map[], p)
  {
    if HasParent(s, s[f]) {
      FloorRejoined(s, h, f);
    } else {
      assert PathTo(s, f) == [s[f]];
      assert PathTo(s, f)[1..] == [];
    }
  }

  /** headsAt is right for every anchor that descends from the floor: seeded with the floor's heads
      when the walk stops there, from nothing when the walk reaches a root. */
  lemma {:induction false} HeadsFromPath(s: Store, h: History, floorId: Option<Id>, floorHeads: Heads, id: Id)
    requires HeadsKnown(s, h, floorId) && id in s
    requires floorId.Some? ==> IsAncestor(h.all, floorId.value, id) && floorHeads == HeadsOf(h, floorId.value)
    ensures var p := PathTo(s, id);
            HeadsOf(h, id) == if Seeded(s, id, floorId) then Overlay(floorHeads, p[1..]) else Overlay(map[], p)
    decreases s[id].height
  {
    if floorId.None? {
      HeadsBelowFloor(s, h, id);
    } else if id == floorId.value {
      FloorHeads(s, h, id, floorHeads);
    } else {
      var q := s[id].prev.value;
      AncestorHeight(h.all, floorId.value, q);
      HeadsFromPath(s, h, floorId, floorHeads, q);
      HeadsStep(s, h, map[], id);
      HeadsStep(s, h, floorHeads, id);
    }
  }

  lemma HeadsUnderFloor(s: Store, h: History, f: Id, id: Id)
    requires HeadsKnown(s, h, Some(f)) && id in s && s[id].height < s[f].height
    ensures Overlay(map[], PathTo(s, id)) == HeadsOf(h, id) && !Seeded(s, id, Some(f))
  {
    assert ClosedUpTo(s, s[id].height);
    HeadsBelowFloor(s, h, id);
    PathRises(s, id, 0);
  }

  lemma {:induction false} PathRises(s: Store, id: Id, i: nat)
    requires WellFormed(s) && id in s && i < |PathTo(s, id)|
    ensures PathTo(s, id)[i].id in s && s[PathTo(s, id)[i].id] == PathTo(s, id)[i]
    ensures PathTo(s, id)[i].height + (|PathTo(s, id)| - 1 - i) == s[id].height
    decreases s[id].height
  {
    if HasParent(s, s[id]) && i < |PathTo(s, id)| - 1 { PathRises(s, s[id].prev.value, i); }
  }

  // ---------- heads above a floor adopted with ancestry ----------

  lemma {:induction false} OverlayAdds(start: Heads, path: seq<Anchor>)
    ensures Overlay(start, path) == start + Overlay(map[], path)
    decreases |path|
  {
    if |path| > 0 { OverlayAdds(start, path[..|path| - 1]); }
  }

  lemma {:induction false} SamePathBottom(s: Store, f: Id, id: Id)
    requires WellFormed(s) && id in s && IsAncestor(s, f, id)
    ensures f in s && PathTo(s, id)[0] == PathTo(s, f)[0]
    decreases s[id].height
  {
    if id != f { SamePathBottom(s, f, s[id].prev.value); }
  }

  lemma {:induction false} SeededRight(s: Store, f: Id, floorHeads: Heads, below: Heads, id: Id)
    requires WellFormed(s) && id in s && IsAncestor(s, f, id) && f in s && !HasParent(s, s[f])
    requires floorHeads == Overlay(below, PathTo(s, f))
    ensures Overlay(floorHeads, PathTo(s, id)[1..]) == Overlay(below, PathTo(s, id))
    decreases s[id].height
  {
    if id == f {
      assert PathTo(s, f)[1..] == [];
    } else {
      var q := s[id].prev.value;
      SeededRight(s, f, floorHeads, below, q);
      var p := PathTo(s, id);
      assert p[..|p| - 1] == PathTo(s, q) && p[1..][..|p| - 2] == PathTo(s, q)[1..];
    }
  }

  lemma LostOnly(below: Heads, late: Heads)
    ensures below + late == late <==> below.Keys <= late.Keys
  {
    if !(below.Keys <= late.Keys) {
      var w :| w in below && w !in late;
      assert w in below + late;
    }
  }

  /** Above a floor adopted together with ancestry, headsAt walks past the floor and starts from nothing:
      what it answers is right if and only if every writer certified below that ancestry (`below`) has
      had its head moved by an anchor held since. With no ancestry it is always right. */
  lemma AdoptedHeads(s: Store, f: Id, floorHeads: Heads, below: Heads, id: Id)
    requires WellFormed(s) && id in s && IsAncestor(s, f, id) && f in s && floorHeads == Overlay(below, PathTo(s, f))
    ensures var p := PathTo(s, id);
            var answer := if Seeded(s, id, Some(f)) then Overlay(floorHeads, p[1..]) else Overlay(map[], p);
            answer == Overlay(below, p) <==> !HasParent(s, s[f]) || below.Keys <= Overlay(map[], p).Keys
  {
    SamePathBottom(s, f, id);
    PathRises(s, f, 0);
    if HasParent(s, s[f]) {
      OverlayAdds(below, PathTo(s, id));
      LostOnly(below, Overlay(map[], PathTo(s, id)));
    } else {
      SeededRight(s, f, floorHeads, below, id);
    }
  }

  // ---------- growing and pruning a store ----------

  function FloorOf(s: Store, floorId: Option<Id>): nat {
    if floorId.Some? && floorId.value in s then s[floorId.value].height else 0
  }

  ghost function Grown(h: History, a: Anchor): History {
    h.(all := h.all[a.id := a])
  }

  /** What the hash chain guarantees about an incoming anchor: its id fixes its content, and the id an
      adopted floor names as its parent belongs to an anchor one below it. */
  ghost predicate HashLaws(h: History, a: Anchor) {
    && (a.id in h.all ==> h.all[a.id] == a)
    && (h.baseId.Some? && h.baseId.value in h.all && h.all[h.baseId.value].prev == Some(a.id) ==>
          a.height + 1 == h.all[h.baseId.value].height)
  }

  lemma GrowGrounded(s: Store, h: History, floorId: Option<Id>, a: Anchor)
    requires Rests(s, h, floorId) && a.id !in s && HashLaws(h, a)
    requires a.prev.Some? ==> a.prev.value in s && s[a.prev.value].height + 1 == a.height
    requires a.prev.None? ==> a.height == 0 && h.baseId.None?
    ensures Grounded(Grown(h, a)) && Extends(h, Grown(h, a))
  {
    if a.id in h.all {
      assert Grown(h, a).all == h.all;
    } else {
      NobodyWaits(s, h, floorId, a);
      GrowWellFormed(h.all, a);
      var all := Grown(h, a).all;
      forall id | id in all ensures Joined(all, id) || h.baseId == Some(id) {
        if id != a.id { assert Joined(h.all, id) || h.baseId == Some(id); }
      }
    }
  }

  lemma GrowWellFormed(s: Store, a: Anchor)
    requires WellFormed(s) && a.id !in s && (forall id :: id in s ==> s[id].prev != Some(a.id))
    requires a.prev.Some? ==> a.prev.value in s && s[a.prev.value].height + 1 == a.height
    requires a.prev.None? ==> a.height == 0
    ensures WellFormed(s[a.id := a])
  {
    var s' := s[a.id := a];
    forall id | id in s && s'[id].prev.Some? && s'[id].prev.value in s'
      ensures s'[s'[id].prev.value].height + 1 == s'[id].height
    {
      assert s[id].prev != Some(a.id);
      assert HasParent(s, s[id]);
    }
  }

  /** No stored anchor names an unseen anchor as its parent. */
  lemma NobodyWaits(s: Store, h: History, floorId: Option<Id>, a: Anchor)
    requires Rests(s, h, floorId) && HashLaws(h, a) && a.id !in h.all
    requires a.prev.Some? ==> a.prev.value in s && s[a.prev.value].height + 1 == a.height
    requires a.prev.None? ==> h.baseId.None?
    ensures forall id :: id in h.all ==> h.all[id].prev != Some(a.id)
  {
    forall id | id in h.all ensures h.all[id].prev != Some(a.id) {
      assert Joined(h.all, id) || h.baseId == Some(id);
    }
  }

  lemma GrowKeeps(s: Store, h: History, floorId: Option<Id>, a: Anchor)
    requires Rests(s, h, floorId) && KeepsFrom(s, h, FloorOf(s, floorId)) && a.id !in s && HashLaws(h, a)
    requires a.prev.Some? ==> a.prev.value in s && s[a.prev.value].height + 1 == a.height
    requires a.prev.None? ==> a.height == 0 && h.baseId.None?
    ensures Grounded(Grown(h, a)) && Extends(h, Grown(h, a))
    ensures Rests(s[a.id := a], Grown(h, a), floorId)
    ensures Clear(s, h, floorId) ==> Clear(s[a.id := a], Grown(h, a), floorId)
    ensures KeepsFrom(s[a.id := a], Grown(h, a), FloorOf(s[a.id := a], floorId))
    ensures FloorOf(s[a.id := a], floorId) == FloorOf(s, floorId)
  {
    GrowGrounded(s, h, floorId, a);
    GrowBelow(s, h, a);
    GrowKnows(s, h, floorId, a);
  }

  lemma GrowBelow(s: Store, h: History, a: Anchor)
    requires Below(s, h) && a.id !in s && WellFormed(Grown(h, a).all) && HashLaws(h, a)
    ensures Below(s[a.id := a], Grown(h, a))
  {
    var s', h' := s[a.id := a], Grown(h, a);
    forall id | id in s'
      ensures id in h'.all && h'.all[id] == s'[id] && s'[id].id == id
    {
      assert id != a.id ==> id in s && h.all[id] == s[id];
    }
    SubWellFormed(s', h'.all);
  }

  lemma SubWellFormed(s: Store, all: Store)
    requires WellFormed(all) && forall id :: id in s ==> id in all && all[id] == s[id]
    ensures WellFormed(s)
  {
    forall id | id in s && HasParent(s, s[id])
      ensures s[s[id].prev.value].height + 1 == s[id].height
    {
      assert HasParent(all, all[id]);
    }
  }

  lemma GrowKnows(s: Store, h: History, floorId: Option<Id>, a: Anchor)
    requires Rests(s, h, floorId) && a.id !in s && Extends(h, Grown(h, a)) && Below(s[a.id := a], Grown(h, a))
    requires KeepsFrom(s, h, FloorOf(s, floorId))
    requires a.prev.Some? ==> a.prev.value in s && s[a.prev.value].height + 1 == a.height
    requires a.prev.None? ==> h.baseId.None?
    ensures Rests(s[a.id := a], Grown(h, a), floorId)
    ensures Clear(s, h, floorId) ==> Clear(s[a.id := a], Grown(h, a), floorId)
  {
    if floorId.Some? {
      GrowFloor(s, h, floorId.value, a);
      if Clear(s, h, floorId) { GrowClear(s, h, floorId.value, a); }
    } else {
      var s' := s[a.id := a];
      forall id | id in s' ensures Joined(s', id) {
        if id != a.id { assert Joined(s, id); }
      }
    }
  }

  lemma GrowFloor(s: Store, h: History, f: Id, a: Anchor)
    requires Rests(s, h, Some(f)) && a.id !in s && Extends(h, Grown(h, a)) && Below(s[a.id := a], Grown(h, a))
    requires a.prev.Some? ==> a.prev.value in s && s[a.prev.value].height + 1 == a.height
    requires a.prev.None? ==> h.baseId.None?
    ensures FloorHeld(s[a.id := a], Grown(h, a), f)
  {
    var s', h' := s[a.id := a], Grown(h, a);
    var low := s[f].height;
    assert s'[f] == s[f];
    forall id | id in h'.all && low <= h'.all[id].height ensures id in s' {
      if id != a.id { assert id in h.all; }
    }
    if h.baseId.Some? { assert h'.all[h.baseId.value] == h.all[h.baseId.value]; }
  }

  lemma GrowClear(s: Store, h: History, f: Id, a: Anchor)
    requires Rests(s, h, Some(f)) && Clear(s, h, Some(f)) && a.id !in s && Extends(h, Grown(h, a))
    requires a.prev.Some? ==> a.prev.value in s && s[a.prev.value].height + 1 == a.height
    requires a.prev.None? ==> h.baseId.None?
    ensures Clear(s[a.id := a], Grown(h, a), Some(f))
  {
    var s', low := s[a.id := a], s[f].height;
    assert s'[f] == s[f];
    forall id | id in s' && s'[id].height < low ensures Joined(s', id) {
      if id != a.id { assert Joined(s, id); }
    }
  }

  ghost function Pruned(s: Store, floor: nat): Store {
    map id | id in s && floor <= s[id].height :: s[id]
  }

  lemma PruneKeeps(s: Store, h: History, floorId: Option<Id>, f: Id)
    requires Rests(s, h, floorId) && KeepsFrom(s, h, FloorOf(s, floorId)) && f in s
    requires FloorOf(s, floorId) <= s[f].height && 0 < s[f].height
    ensures HeadsKnown(Pruned(s, s[f].height), h, Some(f))
    ensures KeepsFrom(Pruned(s, s[f].height), h, s[f].height)
  {
    SubWellFormed(Pruned(s, s[f].height), h.all);
  }

  /** From any anchor above the floor, the walk down meets an anchor at every height. */
  lemma StepDown(s: Store, h: History, floorId: Option<Id>, id: Id)
    requires Rests(s, h, floorId) && KeepsFrom(s, h, FloorOf(s, floorId)) && id in s
    requires FloorOf(s, floorId) < s[id].height
    ensures HasParent(s, s[id]) && s[s[id].prev.value].height + 1 == s[id].height
  {
    assert Joined(h.all, id) || h.baseId == Some(id);
    assert HasParent(h.all, h.all[id]);
    assert h.all[id].prev.value in s;
  }
}
