/** The anchor store: heaviest-chain tip, sticky lock, settlement, pruning and adoption
    (AnchorChain in src/consensus/chain.ts). */
module AnchorChains {
  import opened Primitives
  import opened Anchors
  import opened Store
  import opened ForkChoice
  import opened Difficulty
  import opened Work

  datatype AddResult =
    | Added | WrongGenesis | UnknownPrev | BadAnchor | BadAppRoot | ConflictsSettled | ConflictsFinal

  /** What storing an anchor does to the tip. */
  datatype Decision = NewTip | Switch(lock: Id) | RefuseSettled | RefuseFinal | Shelve

  ghost function DecideConflict(s: Store, x: Id, tip: Id, settled: Option<Id>, wins: bool): Decision
    requires WellFormed(s) && x in s && tip in s
  {
    var v := VerdictOf(s, x, tip);
    if v.SwitchFinal? || (v.SwitchIfHeavier? && wins)
    then if settled.None? || IsAncestor(s, settled.value, x) then Switch(v.lock) else RefuseSettled
    else if wins then RefuseFinal else Shelve
  }

  ghost function Decide(s: Store, x: Id, tip: Option<Id>, lock: Option<Id>, settled: Option<Id>): Decision
    requires WellFormed(s) && x in s
    requires tip.Some? ==> tip.value in s
    requires tip.None? ==> lock.None?
  {
    var wins := tip.None? || Heavier(s[x], s[tip.value]);
    if lock.None? || IsAncestor(s, lock.value, x) then (if wins then NewTip else Shelve)
    else DecideConflict(s, x, tip.value, settled, wins)
  }

  /** Nothing heavier than the tip is passed over in silence, and nothing lighter takes its place but a branch that is
      final. */
  lemma HeavierIsAnswered(s: Store, x: Id, tip: Id, lock: Option<Id>, settled: Option<Id>)
    requires WellFormed(s) && x in s && tip in s
    ensures var d := Decide(s, x, Some(tip), lock, settled);
            && (Answer(d) == ConflictsFinal ==> Heavier(s[x], s[tip]))
            && (Answer(d) == ConflictsSettled ==> settled.Some? && !IsAncestor(s, settled.value, x))
            && (Answer(d) == Added && !d.NewTip? && !d.Switch? ==> !Heavier(s[x], s[tip]))
            && (d.NewTip? || (d.Switch? && !VerdictOf(s, x, tip).SwitchFinal?) ==> Heavier(s[x], s[tip]))
  {
  }

  /** The tip after a conflicting branch's end `x` is stored. */
  ghost function TipAfter(s: Store, x: Id, tip: Id, lock: Id, settled: Id): Id
    requires WellFormed(s) && x in s && tip in s
  {
    var d := Decide(s, x, Some(tip), Some(lock), Some(settled));
    if d.NewTip? || d.Switch? then x else tip
  }

  /** A split heals: two nodes, each locked on its own branch and settled on what both share, end on
      the same tip once each has the other's branch. */
  lemma SplitHeals(sa: Store, sb: Store, h: History, fa: nat, fb: nat, a: Id, b: Id,
                   lockA: Id, lockB: Id, settledA: Id, settledB: Id)
    requires KeepsFrom(sa, h, fa) && KeepsFrom(sb, h, fb) && a in sa && b in sa && a in sb && b in sb
    requires !IsAncestor(h.all, a, b) && !IsAncestor(h.all, b, a) && ForkPoint(h.all, a, b).Some?
    requires HasWindow(fa, h.all[ForkPoint(h.all, a, b).value].height)
    requires HasWindow(fb, h.all[ForkPoint(h.all, a, b).value].height)
    requires !IsAncestor(sa, lockA, b) && IsAncestor(sa, settledA, b)
    requires !IsAncestor(sb, lockB, a) && IsAncestor(sb, settledB, a)
    ensures TipAfter(sa, b, a, lockA, settledA) == TipAfter(sb, a, b, lockB, settledB)
  {
    ForkAgreement(sa, sb, h, fa, fb, a, b);
    FollowsWinner(sa, b, a, lockA, settledA);
    FollowsWinner(sb, a, b, lockB, settledB);
  }

  lemma FollowsWinner(s: Store, x: Id, t: Id, lock: Id, settled: Id)
    requires WellFormed(s) && x in s && t in s && x != t
    requires !IsAncestor(s, lock, x) && IsAncestor(s, settled, x)
    ensures TipAfter(s, x, t, lock, settled) == Winner(s, t, x)
  {
  }

  function Answer(d: Decision): AddResult {
    match d
    case RefuseSettled => ConflictsSettled
    case RefuseFinal => ConflictsFinal
    case _ => Added
  }

  /** A lock or settlement mark moves to the tip's `depth`-deep ancestor only when that is higher. */
  ghost function Raise(s: Store, cur: Option<Id>, tip: Id, depth: nat): Option<Id>
    requires WellFormed(s) && tip in s
  {
    var newly := Up(s, tip, depth);
    if cur.None? || cur.value !in s || newly.height > s[cur.value].height then Some(newly.id) else cur
  }

  /** The mark is no deeper under the tip than its depth. */
  predicate Keeps(s: Store, mark: Option<Id>, tip: Option<Id>, depth: nat) {
    mark.Some? && tip.Some? && mark.value in s && tip.value in s && s[tip.value].height <= s[mark.value].height + depth
  }

  /** What a new tip does to a mark: it stays where it was, or it is now higher and exactly its depth under the
      tip; and it is no deeper than that. A first mark is the tip itself. */
  predicate Follows(s: Store, was: Option<Id>, now: Option<Id>, tip: Id, depth: nat) {
    && Keeps(s, now, Some(tip), depth)
    && (was.None? ==> now == Some(tip))
    && (was.Some? && now != was ==>
          && was.value in s && s[was.value].height < s[now.value].height
          && s[now.value].height + depth == s[tip].height)
  }

  /** A mark at or above the floor, on the tip's line, follows the tip. */
  lemma RaiseFollows(s: Store, h: History, floor: nat, cur: Id, tip: Id, depth: nat)
    requires KeepsFrom(s, h, floor) && tip in s && cur in s && IsAncestor(h.all, cur, tip) && floor <= s[cur].height
    ensures Follows(s, Some(cur), Raise(s, Some(cur), tip, depth), tip, depth)
  {
    UpReach(s, tip, depth);
    var up := Up(s, tip, depth);
    if s[cur].height < up.height {
      UpIsAncestor(s, tip, depth);
      AncestorHeld(s, h, floor, cur, tip);
      AncestorsLine(s, cur, up.id, tip);
    }
  }

  lemma FirstFollows(s: Store, a: Anchor, depth: nat)
    requires WellFormed(s) && s == map[a.id := a] && a.prev.None?
    ensures Follows(s, None, Raise(s, None, a.id, depth), a.id, depth)
  {
  }

  /** What a decision does to the marks: a refusal nothing; a new tip takes both along; a switch first puts the
      lock where fork choice says. */
  ghost predicate MarksFollow(s: Store, d: Decision, was: Standing, now: Standing, lockDepth: nat, settleDepth: nat) {
    if d.NewTip? || d.Switch? then
      && now.tip.Some?
      && Follows(s, if d.Switch? then Some(d.lock) else was.lock, now.lock, now.tip.value, lockDepth)
      && Follows(s, was.settled, now.settled, now.tip.value, settleDepth)
    else now.tip == was.tip && now.lock == was.lock && now.settled == was.settled
  }

  /** Settled is an ancestor of locked, locked of the tip. */
  ghost predicate Nested(h: History, settled: Id, locked: Id, tip: Id) {
    && WellFormed(h.all) && settled in h.all && locked in h.all && tip in h.all
    && IsAncestor(h.all, settled, locked) && IsAncestor(h.all, locked, tip)
  }

  lemma RaiseNests(s: Store, h: History, settled: Id, locked: Id, tip: Id, lockDepth: nat, settleDepth: nat)
    requires Below(s, h) && tip in s && locked in s && settled in s && Nested(h, settled, locked, tip)
    requires lockDepth <= settleDepth
    ensures var l, f := Raise(s, Some(locked), tip, lockDepth), Raise(s, Some(settled), tip, settleDepth);
            && l.Some? && f.Some? && l.value in s && f.value in s
            && Nested(h, f.value, l.value, tip) && IsAncestor(h.all, settled, f.value)
            && s[locked].height <= s[l.value].height
  {
    var nl, nf := Up(s, tip, lockDepth), Up(s, tip, settleDepth);
    UpIsAncestor(s, tip, lockDepth);
    UpIsAncestor(s, tip, settleDepth);
    UpDeeper(s, tip, lockDepth, settleDepth);
    AncestorLifts(s, h, nl.id, tip);
    AncestorLifts(s, h, nf.id, tip);
    AncestorTransitive(h.all, settled, locked, tip);
    AncestorHeight(h.all, settled, locked);
    var l, f := Raise(s, Some(locked), tip, lockDepth).value, Raise(s, Some(settled), tip, settleDepth).value;
    AncestorsLine(h.all, settled, f, tip);
    AncestorsLine(h.all, f, l, tip);
  }

  /** The marks of a rooted chain: nested, above the floor, and the floor below them all. */
  ghost predicate MarksOk(s: Store, h: History, floorId: Option<Id>, settled: Id, locked: Id, tip: Id) {
    && tip in s && locked in s && settled in s && Nested(h, settled, locked, tip)
    && FloorOf(s, floorId) <= s[settled].height
    && (floorId.Some? ==> floorId.value in h.all && IsAncestor(h.all, floorId.value, settled))
  }

  lemma MarksAfter(s: Store, h: History, floorId: Option<Id>, settled: Id, locked: Id, tip: Id, lockDepth: nat,
                   settleDepth: nat)
    requires Below(s, h) && MarksOk(s, h, floorId, settled, locked, tip) && lockDepth <= settleDepth
    ensures var l, f := Raise(s, Some(locked), tip, lockDepth), Raise(s, Some(settled), tip, settleDepth);
            l.Some? && f.Some? && MarksOk(s, h, floorId, f.value, l.value, tip) && IsAncestor(h.all, settled, f.value)
  {
    RaiseNests(s, h, settled, locked, tip, lockDepth, settleDepth);
    var f := Raise(s, Some(settled), tip, settleDepth).value;
    AncestorHeight(h.all, settled, f);
    if floorId.Some? { AncestorTransitive(h.all, floorId.value, settled, f); }
  }

  lemma {:induction false} FirstMarks(s: Store, h: History, a: Anchor, depth: nat)
    requires Below(s, h) && s == map[a.id := a] && a.prev.None?
    ensures Raise(s, None, a.id, depth) == Some(a.id) && MarksOk(s, h, None, a.id, a.id, a.id)
  {
  }

  /** Each settled anchor descends from every earlier one. */
  ghost predicate Descending(h: History, trail: seq<Id>) {
    && WellFormed(h.all)
    && forall i, j :: 0 <= i <= j < |trail| ==> trail[j] in h.all && IsAncestor(h.all, trail[i], trail[j])
  }

  lemma TrailGrows(h: History, trail: seq<Id>, next: Id)
    requires Descending(h, trail) && next in h.all
    requires |trail| > 0 ==> IsAncestor(h.all, trail[|trail| - 1], next)
    ensures Descending(h, trail + [next])
  {
    forall i | 0 <= i < |trail|
      ensures IsAncestor(h.all, trail[i], next)
    {
      AncestorTransitive(h.all, trail[i], trail[|trail| - 1], next);
    }
  }

  /** Settlement is irreversible: each settled anchor descends from every earlier one. */
  ghost predicate TrailDescends(h: History, trail: seq<Id>, settledId: Option<Id>) {
    && Descending(h, trail)
    && (settledId.Some? ==> |trail| > 0 && trail[|trail| - 1] == settledId.value)
  }

  /** `exact`: no ancestry was linked below an adopted floor, so that every walk for heads ends where they
      are known. */
  ghost predicate StoreSound(s: Store, h: History, floorId: Option<Id>, exact: bool) {
    Rests(s, h, floorId) && Weighted(h.all) && KeepsFrom(s, h, FloorOf(s, floorId)) && (exact ==> Clear(s, h, floorId))
  }

  ghost predicate HeadsTrue(h: History, tipId: Option<Id>, tipHeads: Heads, exact: bool) {
    && WellFormed(h.all)
    && (tipId.Some? ==>
          && tipId.value in h.all && tipHeads == h.all[tipId.value].stateRoot
          && (exact ==> tipHeads == HeadsOf(h, tipId.value)))
  }

  ghost predicate FloorTrue(h: History, floorId: Option<Id>, floorHeads: Heads, exact: bool) {
    && WellFormed(h.all)
    && (floorId.Some? ==> floorId.value in h.all && (exact ==> floorHeads == HeadsOf(h, floorId.value)))
  }

  /** The finalized-heads cache holds its anchor's heads, or is left over from before an adoption. */
  ghost predicate CacheFits(h: History, cache: Option<(Id, Heads)>, exact: bool) {
    && WellFormed(h.all)
    && (cache.Some? ==>
          if cache.value.0 in h.all then exact ==> cache.value.1 == HeadsOf(h, cache.value.0) else h.baseId.Some?)
  }

  /** Where a chain stands: its tip, its lock, its settled anchor and the last conflict it refused. */
  datatype Standing = Standing(
    tip: Option<Id>, tipHeads: Heads, lock: Option<Id>, settled: Option<Id>, conflict: Option<(Id, Id)>)

  /** What a decision on `a` does to the tip, the lock, the settled anchor and the conflict reported. */
  ghost function StandsAfter(s: Store, a: Anchor, d: Decision, was: Standing, lockDepth: nat,
                             settleDepth: nat): Standing
    requires WellFormed(s) && a.id in s
  {
    match d
    case NewTip => NextTip(s, a, was.lock, was, lockDepth, settleDepth)
    case Switch(lock) => NextTip(s, a, Some(lock), was, lockDepth, settleDepth)
    case RefuseSettled => was.(conflict := if was.settled.Some? then Some((was.settled.value, a.id)) else None)
    case _ => was
  }

  ghost function NextTip(s: Store, a: Anchor, lock: Option<Id>, was: Standing, lockDepth: nat,
                         settleDepth: nat): Standing
    requires WellFormed(s) && a.id in s
  {
    Standing(Some(a.id), a.stateRoot, Raise(s, lock, a.id, lockDepth), Raise(s, was.settled, a.id, settleDepth),
             was.conflict)
  }

  class AnchorChain {
    const baseDifficulty: nat
    const schedule: Option<Schedule>
    const lockDepth: nat
    const settleDepth: nat

    var anchors: map<Id, Anchor>
    var tipId: Option<Id>
    var tipHeads: Heads
    var finalCache: Option<(Id, Heads)>
    var lockedId: Option<Id>
    var settledId: Option<Id>
    var floorId: Option<Id>
    var floorHeads: Heads
    var genesisId: Option<Id>
    var settledConflict: Option<(Id, Id)>

    /** Every anchor ever stored; pruning forgets, this does not. */
    ghost var hist: History

    /** Every anchor that was ever settled, in order. */
    ghost var trail: seq<Id>

    /** No ancestry was linked below an adopted floor. */
    ghost var exact: bool

    ghost function FloorHeight(): nat
      reads this`anchors, this`floorId
    {
      FloorOf(anchors, floorId)
    }

    ghost predicate Rooted()
      reads this`anchors, this`hist, this`tipId, this`lockedId, this`settledId, this`floorId
    {
      && tipId.Some? && lockedId.Some? && settledId.Some?
      && MarksOk(anchors, hist, floorId, settledId.value, lockedId.value, tipId.value)
      && Keeps(anchors, lockedId, tipId, lockDepth) && Keeps(anchors, settledId, tipId, settleDepth)
    }

    ghost predicate Unrooted()
      reads this`anchors, this`hist, this`trail, this`exact, this`tipId, this`lockedId, this`settledId, this`floorId
    {
      && exact && anchors == map[] && hist.all == map[] && hist.baseId.None? && trail == []
      && tipId.None? && lockedId.None? && settledId.None? && floorId.None?
    }

    ghost predicate CacheTrue()
      reads this`hist, this`finalCache, this`exact
    {
      CacheFits(hist, finalCache, exact)
    }

    ghost predicate Sound()
      reads this`anchors, this`hist, this`tipId, this`tipHeads, this`settledId, this`floorId, this`floorHeads,
          this`trail, this`exact
    {
      && lockDepth <= settleDepth && StoreSound(anchors, hist, floorId, exact)
          && HeadsTrue(hist, tipId, tipHeads, exact)
      && FloorTrue(hist, floorId, floorHeads, exact) && TrailDescends(hist, trail, settledId)
    }

    ghost predicate Valid()
      reads this
    {
      Sound() && CacheTrue() && (Rooted() || Unrooted())
    }

    constructor (baseDifficulty: nat, schedule: Option<Schedule>, finalityDepth: nat, settlementDepth: nat)
      requires finalityDepth <= settlementDepth
      ensures Valid() && Unrooted() && genesisId.None?
    {
      this.baseDifficulty, this.schedule := baseDifficulty, schedule;
      lockDepth, settleDepth := finalityDepth, settlementDepth;
      anchors := map[];
      tipId, lockedId, settledId, floorId, genesisId := None, None, None, None, None;
      finalCache, settledConflict := None, None;
      tipHeads, floorHeads := map[], map[];
      hist := History(map[], None, map[]);
      trail, exact := [], true;
    }

    // ---------- reads ----------

    method DescendsFrom(anchor: Anchor, id: Option<Id>) returns (b: bool)
      requires WellFormed(anchors) && anchor.id in anchors && anchors[anchor.id] == anchor
      ensures b <==> id.None? || IsAncestor(anchors, id.value, anchor.id)
    {
      if id.None? { return true; }
      var cur := Some(anchor);
      while cur.Some?
        invariant cur.Some? ==> cur.value.id in anchors && anchors[cur.value.id] == cur.value
        invariant IsAncestor(anchors, id.value, anchor.id) <==> cur.Some? && IsAncestor(anchors, id.value, cur.value.id)
        decreases if cur.Some? then cur.value.height + 1 else 0
      {
        if cur.value.id == id.value { return true; }
        cur := if HasParent(anchors, cur.value) then Some(anchors[cur.value.prev.value]) else None;
      }
      b := false;
    }

    method Finalized(k: nat) returns (r: Option<Anchor>)
      requires WellFormed(anchors) && (tipId.Some? ==> tipId.value in anchors)
      ensures r == if tipId.Some? then Some(Up(anchors, tipId.value, k)) else None
    {
      if tipId.None? { return None; }
      var cur := anchors[tipId.value];
      var i := 0;
      while i < k && HasParent(anchors, cur)
        invariant i <= k && cur.id in anchors && anchors[cur.id] == cur
        invariant Up(anchors, tipId.value, k) == Up(anchors, cur.id, k - i)
        decreases k - i
      {
        cur := anchors[cur.prev.value];
        i := i + 1;
      }
      r := Some(cur);
    }

    method ChainTo(anchor: Anchor) returns (path: seq<Anchor>)
      requires WellFormed(anchors) && anchor.id in anchors && anchors[anchor.id] == anchor
      ensures path == PathTo(anchors, anchor.id)
    {
      path := [anchor];
      var cur := anchor;
      ghost var above: seq<Anchor> := [];
      while HasParent(anchors, cur)
        invariant path == [cur] + above && cur.id in anchors && anchors[cur.id] == cur
        invariant PathTo(anchors, anchor.id) == PathTo(anchors, cur.id) + above
        decreases cur.height
      {
        above := [cur] + above;
        cur := anchors[cur.prev.value];
        path := [cur] + path;
      }
    }

    /** What headsAt answers for an anchor, from the anchors held and the two caches. */
    ghost function Reconstructed(id: Id): Heads
      requires WellFormed(anchors)
      reads this`anchors, this`tipId, this`tipHeads, this`floorId, this`floorHeads
    {
      if tipId == Some(id) then tipHeads
      else if floorId == Some(id) then floorHeads
      else if id !in anchors then map[]
      else if Seeded(anchors, id, floorId) then Overlay(floorHeads, PathTo(anchors, id)[1..])
      else Overlay(map[], PathTo(anchors, id))
    }

    method HeadsAt(id: Id) returns (heads: Heads)
      requires WellFormed(anchors)
      ensures heads == Reconstructed(id)
    {
      if tipId == Some(id) { return tipHeads; }
      if floorId == Some(id) { return floorHeads; }
      if id !in anchors { return map[]; }
      var path := ChainTo(anchors[id]);
      var atFloor := floorId == Some(path[0].id);
      if atFloor {
        heads := OverlayOf(floorHeads, path[1..]);
      } else {
        heads := OverlayOf(map[], path);
      }
    }

    static method OverlayOf(start: Heads, path: seq<Anchor>) returns (heads: Heads)
      ensures heads == Overlay(start, path)
    {
      heads := start;
      for i := 0 to |path|
        invariant heads == Overlay(start, path[..i])
      {
        heads := ApplyHeadsDelta(heads, path[i].headsDelta);
        assert path[..i + 1][..i] == path[..i];
      }
      assert path[..|path|] == path;
    }

    /** Caches, floors and rejoined ancestry never show: for every anchor that descends from the
        floor, or lies below it, headsAt answers the overlay of all deltas since the root of the
        unpruned chain. */
    lemma HeadsRefine(id: Id)
      requires Valid() && exact && id in anchors
      requires floorId.Some? ==> IsAncestor(hist.all, floorId.value, id) || anchors[id].height < FloorHeight()
      ensures Reconstructed(id) == HeadsOf(hist, id)
    {
      if tipId == Some(id) || floorId == Some(id) {
      } else if floorId.Some? && anchors[id].height < FloorHeight() {
        HeadsUnderFloor(anchors, hist, floorId.value, id);
      } else {
        HeadsFromPath(anchors, hist, floorId, floorHeads, id);
      }
    }

    /** Every ancestor of the tip that is still held has its full heads. */
    lemma TipLineHeads(id: Id)
      requires Valid() && exact && Rooted() && id in anchors && IsAncestor(anchors, id, tipId.value)
      ensures Reconstructed(id) == HeadsOf(hist, id)
    {
      if floorId.Some? {
        AncestorLifts(anchors, hist, id, tipId.value);
        FloorUnderTip();
        if anchors[id].height >= FloorHeight() { AncestorsLine(hist.all, floorId.value, id, tipId.value); }
      }
      HeadsRefine(id);
    }

    method Remember(id: Id, heads: Heads)
      requires Valid() && id in hist.all && (exact ==> heads == HeadsOf(hist, id))
      modifies this`finalCache
      ensures Valid() && finalCache == Some((id, heads))
    {
      finalCache := Some((id, heads));
    }

    method FinalizedHeads(k: nat) returns (heads: Heads)
      requires Valid()
      modifies this`finalCache
      ensures Valid()
      ensures tipId.None? ==> heads == map[]
      ensures tipId.Some? && exact ==> heads == HeadsOf(hist, Up(anchors, tipId.value, k).id)
    {
      var f := Finalized(k);
      if f.None? { return map[]; }
      UpIsAncestor(anchors, tipId.value, k);
      heads := CachedHeads(f.value.id);
    }

    method CachedHeads(id: Id) returns (heads: Heads)
      requires Valid() && Rooted() && id in anchors && IsAncestor(anchors, id, tipId.value)
      modifies this`finalCache
      ensures Valid() && (exact ==> heads == HeadsOf(hist, id))
    {
      if finalCache.Some? && finalCache.value.0 == id { return finalCache.value.1; }
      if exact { TipLineHeads(id); }
      heads := HeadsAt(id);
      Remember(id, heads);
    }

    method DifficultyFor(prev: Option<Anchor>) returns (d: nat)
      requires WellFormed(anchors) && (prev.Some? ==> prev.value.id in anchors && anchors[prev.value.id] == prev.value)
      ensures d == ExpectedDifficulty(if prev.Some? then Some(prev.value.id) else None)
    {
      if schedule.None? { return baseDifficulty; }
      d := NextDifficulty(anchors, prev, schedule.value);
    }

    ghost function ExpectedDifficulty(prev: Option<Id>): nat
      requires WellFormed(anchors) && (prev.Some? ==> prev.value in anchors)
      reads this
    {
      if schedule.None? then baseDifficulty else DifficultyAfter(anchors, prev, schedule.value)
    }

    // ---------- lock and settlement ----------

    method RaiseMark(cur: Option<Id>, depth: nat) returns (mark: Option<Id>)
      requires WellFormed(anchors) && tipId.Some? && tipId.value in anchors
      ensures mark == Raise(anchors, cur, tipId.value, depth)
    {
      var newly := Finalized(depth);
      if cur.None? || cur.value !in anchors || newly.value.height > anchors[cur.value].height {
        mark := Some(newly.value.id);
      } else {
        mark := cur;
      }
    }

    method SetTip(a: Anchor, heads: Heads, ghost locked: Id, ghost settled: Id)
      requires WellFormed(anchors) && a.id in anchors
      requires Some(locked) == Raise(anchors, lockedId, a.id, lockDepth)
      requires Some(settled) == Raise(anchors, settledId, a.id, settleDepth)
      modifies this`tipId, this`tipHeads, this`lockedId, this`settledId
      ensures tipId == Some(a.id) && tipHeads == heads && lockedId == Some(locked) && settledId == Some(settled)
    {
      tipId := Some(a.id);
      tipHeads := heads;
      lockedId := RaiseMark(lockedId, lockDepth);
      settledId := RaiseMark(settledId, settleDepth);
    }

    /** The tip moves, and with it marks that are known to stay nested. */
    method MoveTip(a: Anchor, heads: Heads, ghost locked: Id, ghost settled: Id)
      requires Sound() && CacheTrue() && a.id in anchors && heads == hist.all[a.id].stateRoot
      requires exact ==> heads == HeadsOf(hist, a.id)
      requires MarksOk(anchors, hist, floorId, settled, locked, a.id) && Descending(hist, trail + [settled])
      requires Keeps(anchors, Some(locked), Some(a.id), lockDepth)
      requires Keeps(anchors, Some(settled), Some(a.id), settleDepth)
      requires Some(locked) == Raise(anchors, lockedId, a.id, lockDepth)
      requires Some(settled) == Raise(anchors, settledId, a.id, settleDepth)
      modifies this`tipId, this`tipHeads, this`lockedId, this`settledId, this`trail
      ensures Valid() && trail == old(trail) + [settled]
      ensures tipId == Some(a.id) && tipHeads == heads && lockedId == Some(locked) && settledId == Some(settled)
    {
      SetTip(a, heads, locked, settled);
      trail := trail + [settled];
      IsValid();
    }

    // ---------- fork resolution ----------

    method Ancestry(t: Id) returns (ids: set<Id>)
      requires WellFormed(anchors) && t in anchors
      ensures forall x :: x in ids <==> IsAncestor(anchors, x, t)
    {
      ids := {};
      var cur := Some(anchors[t]);
      while cur.Some?
        invariant cur.Some? ==> cur.value.id in anchors && anchors[cur.value.id] == cur.value
        invariant forall x ::
                    IsAncestor(anchors, x, t) <==> x in ids || (cur.Some? && IsAncestor(anchors, x, cur.value.id))
        decreases if cur.Some? then cur.value.height + 1 else 0
      {
        ids := ids + {cur.value.id};
        cur := if HasParent(anchors, cur.value) then Some(anchors[cur.value.prev.value]) else None;
      }
    }

    /** The conflicting branch: its producers and first anchor above the fork. */
    method Branch(x: Anchor, ours: set<Id>, ghost t: Id) returns (fork: Option<Id>, first: Id, producers: set<string>)
      requires WellFormed(anchors) && x.id in anchors && anchors[x.id] == x && t in anchors
      requires forall y :: y in ours <==> IsAncestor(anchors, y, t)
      ensures fork == ForkPoint(anchors, x.id, t)
      ensures fork.Some? ==> producers == Producers(anchors, x.id, fork.value)
      ensures fork.Some? && fork.value != x.id ==> first == FirstAbove(anchors, x.id, fork.value)
    {
      ghost var f := ForkPoint(anchors, x.id, t);
      ForkPointIsLast(anchors, x.id, t);
      first, producers := x.id, {};
      var cur := Some(x);
      while cur.Some? && cur.value.id !in ours
        invariant cur.Some? ==> cur.value.id in anchors && anchors[cur.value.id] == cur.value
        invariant f == if cur.Some? then ForkPoint(anchors, cur.value.id, t) else None
        invariant f.Some? ==> Producers(anchors, x.id, f.value) == producers + Producers(anchors, cur.value.id, f.value)
        invariant f.Some? && f.value != x.id ==>
          FirstAbove(anchors, x.id, f.value) ==
              (if cur.value.id == f.value then first else FirstAbove(anchors, cur.value.id, f.value))
        decreases if cur.Some? then cur.value.height + 1 else 0
      {
        if f.Some? { assert cur.value.id != f.value; }
        first := cur.value.id;
        producers := producers + {cur.value.producer};
        cur := if HasParent(anchors, cur.value) then Some(anchors[cur.value.prev.value]) else None;
      }
      fork := if cur.Some? then Some(cur.value.id) else None;
    }

    method ProducersAbove(t: Id, fork: Id) returns (producers: set<string>)
      requires WellFormed(anchors) && t in anchors && IsAncestor(anchors, fork, t)
      ensures producers == Producers(anchors, t, fork)
    {
      producers := {};
      var cur := anchors[t];
      while cur.id != fork
        invariant cur.id in anchors && anchors[cur.id] == cur && IsAncestor(anchors, fork, cur.id)
        invariant Producers(anchors, t, fork) == producers + Producers(anchors, cur.id, fork)
        decreases cur.height
      {
        producers := producers + {cur.producer};
        cur := anchors[cur.prev.value];
      }
    }

    method WeighOne(weight0: map<string, nat>, total0: nat, a: Anchor, ghost win: seq<Anchor>)
      returns (weight: map<string, nat>, total: nat)
      requires Weighs(weight0, win) && total0 == Cast(win)
      ensures Weighs(weight, win + [a]) && total == Cast(win + [a])
    {
      weight, total := weight0, total0;
      WeighsAppend(weight, win, a);
      WonAppend(win, a, {});
      if a.producer != GENESIS_PRODUCER {
        weight := weight[a.producer := (if a.producer in weight then weight[a.producer] else 0) + 1];
        total := total + 1;
      }
    }

    /** Anchors won per producer in the window ending at the fork. */
    method Weigh(fork: Id, size: nat) returns (weight: map<string, nat>, total: nat)
      requires WellFormed(anchors) && fork in anchors
      ensures total == Cast(Window(anchors, fork, size))
      ensures Weighs(weight, Window(anchors, fork, size))
    {
      weight, total := map[], 0;
      ghost var win: seq<Anchor> := [];
      ghost var rest := Window(anchors, fork, size);
      var cur := Some(anchors[fork]);
      var i := 0;
      while i < size && cur.Some?
        invariant i <= size
        invariant cur.Some? ==> cur.value.id in anchors && anchors[cur.value.id] == cur.value
        invariant rest == if cur.Some? then Window(anchors, cur.value.id, size - i) else []
        invariant Window(anchors, fork, size) == win + rest
        invariant total == Cast(win) && Weighs(weight, win)
        decreases size - i
      {
        weight, total := WeighOne(weight, total, cur.value, win);
        Shift(win, rest);
        win, rest := win + [cur.value], rest[1..];
        cur := if HasParent(anchors, cur.value) then Some(anchors[cur.value.prev.value]) else None;
        i := i + 1;
      }
      assert rest == [] && win == Window(anchors, fork, size);
    }

    method Support(mine: set<string>, other: set<string>, weight: map<string, nat>, ghost win: seq<Anchor>)
        returns (n: nat)
      requires Weighs(weight, win)
      ensures n == Won(win, mine - other)
    {
      n := 0;
      var todo := mine;
      ghost var counted: set<string> := {};
      WonDisjoint(win, counted, counted);
      assert counted + counted == counted;
      while todo != {}
        invariant todo <= mine && counted == (mine - todo) - other && n == Won(win, counted)
        decreases todo
      {
        var p :| p in todo;
        todo := todo - {p};
        if p !in other {
          WonDisjoint(win, counted, {p});
          n := n + if p in weight then weight[p] else 0;
          counted := counted + {p};
        }
        assert counted == (mine - todo) - other;
      }
      assert counted == mine - other;
    }

    method ResolveFork(x: Anchor, t: Anchor) returns (v: Verdict)
      requires WellFormed(anchors) && x.id in anchors && anchors[x.id] == x && t.id in anchors && anchors[t.id] == t
      ensures v == VerdictOf(anchors, x.id, t.id)
    {
      var ours := Ancestry(t.id);
      var fork, first, theirProducers := Branch(x, ours, t.id);
      if fork.None? { return Keep; }
      ForkPointIsLast(anchors, x.id, t.id);
      var ourProducers := ProducersAbove(t.id, fork.value);
      var weight, total := Weigh(fork.value, FORK_WINDOW);
      ghost var win := Window(anchors, fork.value, FORK_WINDOW);
      var us := Support(ourProducers, theirProducers, weight, win);
      if 2 * us > total { return Keep; }
      var them := Support(theirProducers, ourProducers, weight, win);
      if fork.value == x.id {
        WonByNobody(win);
        assert theirProducers - ourProducers == {};
      }
      if 2 * them > total { return SwitchFinal(first); }
      v := SwitchIfHeavier(fork.value);
    }
  
    // ---------- adding an anchor ----------

    ghost function PrevHeads(a: Anchor): Heads
      requires WellFormed(anchors)
      reads this`anchors, this`tipId, this`tipHeads, this`floorId, this`floorHeads
    {
      if a.prev.Some? then Reconstructed(a.prev.value) else map[]
    }

    ghost function Prev(a: Anchor): Option<Anchor>
      requires a.prev.Some? ==> a.prev.value in anchors
      reads this`anchors
    {
      if a.prev.Some? then Some(anchors[a.prev.value]) else None
    }

    /** Everything `add` checks before it stores an anchor. */
    ghost function Screen(a: Anchor, proofsOk: bool, stateOk: bool): AddResult
      requires WellFormed(anchors)
      reads this
    {
      if a.prev.None? && genesisId.Some? && genesisId != Some(a.id) then WrongGenesis
      else if a.prev.Some? && a.prev.value !in anchors then UnknownPrev
      else if !LinksOk(a, Prev(a), PrevHeads(a), ExpectedDifficulty(a.prev)) || !proofsOk then BadAnchor
      else if !stateOk then BadAppRoot
      else Added
    }

    ghost predicate Marked()
      reads this`anchors, this`hist, this`tipId, this`lockedId, this`settledId, this`floorId, this`trail
    {
      Rooted() || (tipId.None? && lockedId.None? && settledId.None? && floorId.None? && trail == [])
    }

    ghost predicate OnFloor(id: Id)
      requires WellFormed(hist.all) && id in hist.all
      reads this`hist, this`floorId
    {
      floorId.Some? ==> IsAncestor(hist.all, floorId.value, id)
    }

    ghost function Stands(): Standing
      reads this`tipId, this`tipHeads, this`lockedId, this`settledId, this`settledConflict
    {
      Standing(tipId, tipHeads, lockedId, settledId, settledConflict)
    }

    /** The tip decision for an anchor that has just been stored. */
    method Place(a: Anchor, heads: Heads, ghost was: Standing) returns (r: AddResult, ghost d: Decision)
      requires Sound() && CacheTrue() && Marked() && a.id in anchors && anchors[a.id] == a && was == Stands()
      requires tipId.None? ==> anchors == map[a.id := a] && a.prev.None?
      requires heads == a.stateRoot && (exact && OnFloor(a.id) ==> heads == HeadsOf(hist, a.id))
      modifies this`tipId, this`tipHeads, this`lockedId, this`settledId, this`settledConflict, this`trail
      ensures Valid() && old(trail) <= trail
      ensures d == Decide(anchors, a.id, was.tip, was.lock, was.settled)
      ensures r == Answer(d) && Stands() == StandsAfter(anchors, a, d, was, lockDepth, settleDepth)
      ensures MarksFollow(anchors, d, was, Stands(), lockDepth, settleDepth)
      ensures was.tip.Some? && a.prev == was.tip && a.difficulty > 0 ==> d.NewTip?
    {
      var verdict := Judge(a);
      d := verdict;
      Act(a, heads, verdict, StandsAfter(anchors, a, d, was, lockDepth, settleDepth));
      r := Answer(verdict);
    }

    /** What is built on the tip outweighs it. */
    lemma BuiltOnTip(a: Anchor)
      requires Sound() && Rooted() && a.id in anchors && anchors[a.id] == a && a.prev == tipId && a.difficulty > 0
      ensures Decide(anchors, a.id, tipId, lockedId, settledId) == NewTip
    {
      AncestorTransitive(hist.all, settledId.value, lockedId.value, tipId.value);
      AncestorHeight(hist.all, settledId.value, lockedId.value);
      AncestorHeld(anchors, hist, FloorHeight(), lockedId.value, tipId.value);
      assert HasParent(hist.all, hist.all[a.id]);
    }

    method Act(a: Anchor, heads: Heads, d: Decision, ghost next: Standing)
      requires Sound() && CacheTrue() && a.id in anchors && anchors[a.id] == a
      requires next == StandsAfter(anchors, a, d, Stands(), lockDepth, settleDepth) && heads == a.stateRoot
      requires exact && OnFloor(a.id) ==> heads == HeadsOf(hist, a.id)
      requires d.NewTip? && settledId.None? ==>
                 lockedId.None? && floorId.None? && trail == [] && anchors == map[a.id := a] && a.prev.None?
      requires d.NewTip? && settledId.Some? ==>
                 lockedId.Some? && MarksOk(anchors, hist, floorId, settledId.value, lockedId.value, a.id)
      requires d.Switch? ==> settledId.Some? && MarksOk(anchors, hist, floorId, settledId.value, d.lock, a.id)
      requires !d.NewTip? ==> Rooted()
      modifies this`tipId, this`tipHeads, this`lockedId, this`settledId, this`settledConflict, this`trail
      ensures Valid() && old(trail) <= trail && Stands() == next
      ensures MarksFollow(anchors, d, old(Stands()), next, lockDepth, settleDepth)
    {
      match d {
        case NewTip => TakeTip(a, heads, next);
        case Switch(lock) => SwitchTo(a, heads, lock, next);
        case _ => Refuse(a, d);
      }
    }

    /** Neither the tip nor a mark moves; a branch that abandons the settled anchor is reported. */
    method Refuse(a: Anchor, d: Decision)
      requires Sound() && CacheTrue() && Rooted()
      modifies this`settledConflict
      ensures Valid()
      ensures Stands() ==
                if d.RefuseSettled? then old(Stands()).(conflict := Some((settledId.value, a.id))) else old(Stands())
    {
      if d.RefuseSettled? { settledConflict := Some((settledId.value, a.id)); }
    }

    /** Fork choice for a stored anchor: the decision, and that whatever takes the tip keeps the
        settled anchor below it. */
    method Judge(a: Anchor) returns (d: Decision)
      requires Sound() && Marked() && a.id in anchors && anchors[a.id] == a
      ensures d == Decide(anchors, a.id, tipId, lockedId, settledId)
      ensures d.NewTip? && settledId.Some? ==> MarksOk(anchors, hist, floorId, settledId.value, lockedId.value, a.id)
      ensures d.NewTip? && settledId.None? ==> tipId.None?
      ensures d.Switch? ==> settledId.Some? && MarksOk(anchors, hist, floorId, settledId.value, d.lock, a.id)
      ensures !d.NewTip? ==> Rooted()
      ensures tipId.Some? && a.prev == tipId && a.difficulty > 0 ==> d.NewTip?
    {
      if tipId.Some? && a.prev == tipId && a.difficulty > 0 { BuiltOnTip(a); }
      var wins := tipId.None? || Heavier(a, anchors[tipId.value]);
      var onLock := DescendsFrom(a, lockedId);
      if onLock {
        if lockedId.Some? { AncestorLifts(anchors, hist, lockedId.value, a.id); }
        return if wins then NewTip else Shelve;
      }
      d := JudgeConflict(a, wins);
    }

    method JudgeConflict(a: Anchor, wins: bool) returns (d: Decision)
      requires Sound() && Rooted() && a.id in anchors && anchors[a.id] == a
      ensures d == DecideConflict(anchors, a.id, tipId.value, settledId, wins)
      ensures d.Switch? ==> MarksOk(anchors, hist, floorId, settledId.value, d.lock, a.id)
    {
      var v := ResolveFork(a, anchors[tipId.value]);
      if v.SwitchFinal? || (v.SwitchIfHeavier? && wins) {
        var safe := DescendsFrom(a, settledId);
        if !safe { return RefuseSettled; }
        SwitchNests(a.id);
        return Switch(v.lock);
      }
      d := if wins then RefuseFinal else Shelve;
    }

    /** Re-anchor finality on the winning branch, then re-derive it from the new tip. */
    method SwitchTo(a: Anchor, heads: Heads, lock: Id, ghost next: Standing)
      requires Sound() && CacheTrue() && a.id in anchors && anchors[a.id] == a && settledId.Some?
      requires next == NextTip(anchors, a, Some(lock), Stands(), lockDepth, settleDepth) && heads == a.stateRoot
      requires exact && OnFloor(a.id) ==> heads == HeadsOf(hist, a.id)
      requires MarksOk(anchors, hist, floorId, settledId.value, lock, a.id)
      modifies this`tipId, this`tipHeads, this`lockedId, this`settledId, this`trail
      ensures Valid() && Stands() == next && old(trail) <= trail
      ensures MarksFollow(anchors, Switch(lock), old(Stands()), next, lockDepth, settleDepth)
    {
      lockedId := Some(lock);
      TakeTip(a, heads, next);
    }

    /** A switch keeps settlement: both branches hold the settled anchor, so the fork point does. */
    lemma SwitchNests(x: Id)
      requires Rests(anchors, hist, floorId) && KeepsFrom(anchors, hist, FloorHeight()) && Rooted()
      requires x in anchors && IsAncestor(anchors, settledId.value, x) && !VerdictOf(anchors, x, tipId.value).Keep?
      ensures VerdictOf(anchors, x, tipId.value).lock in anchors
      ensures MarksOk(anchors, hist, floorId, settledId.value, VerdictOf(anchors, x, tipId.value).lock, x)
    {
      var t, s := tipId.value, settledId.value;
      var lock := VerdictOf(anchors, x, t).lock;
      SwitchLock(anchors, x, t);
      AncestorTransitive(hist.all, s, lockedId.value, t);
      AncestorHeld(anchors, hist, FloorHeight(), s, t);
      ForkPointIsLast(anchors, x, t);
      AncestorTransitive(anchors, s, ForkPoint(anchors, x, t).value, lock);
      AncestorLifts(anchors, hist, s, lock);
      AncestorLifts(anchors, hist, lock, x);
    }

    /** setTip on an anchor that keeps the marks nested. */
    method TakeTip(a: Anchor, heads: Heads, ghost next: Standing)
      requires Sound() && CacheTrue() && a.id in anchors && anchors[a.id] == a
      requires next == NextTip(anchors, a, lockedId, Stands(), lockDepth, settleDepth) && heads == a.stateRoot
      requires exact && OnFloor(a.id) ==> heads == HeadsOf(hist, a.id)
      requires settledId.None? ==>
                 lockedId.None? && floorId.None? && trail == [] && anchors == map[a.id := a] && a.prev.None?
      requires settledId.Some? ==>
                 lockedId.Some? && MarksOk(anchors, hist, floorId, settledId.value, lockedId.value, a.id)
      modifies this`tipId, this`tipHeads, this`lockedId, this`settledId, this`trail
      ensures Valid() && Stands() == next && old(trail) <= trail
      ensures MarksFollow(anchors, NewTip, old(Stands()), next, lockDepth, settleDepth)
    {
      TipFacts(a);
      MoveTip(a, heads, next.lock.value, next.settled.value);
    }

    lemma TipFacts(a: Anchor)
      requires Sound() && a.id in anchors && anchors[a.id] == a
      requires settledId.None? ==>
                 lockedId.None? && floorId.None? && trail == [] && anchors == map[a.id := a] && a.prev.None?
      requires settledId.Some? ==>
                 lockedId.Some? && MarksOk(anchors, hist, floorId, settledId.value, lockedId.value, a.id)
      ensures var l, f := Raise(anchors, lockedId, a.id, lockDepth), Raise(anchors, settledId, a.id, settleDepth);
              && l.Some? && f.Some? && MarksOk(anchors, hist, floorId, f.value, l.value, a.id)
              && Descending(hist, trail + [f.value])
              && Follows(anchors, lockedId, l, a.id, lockDepth) && Follows(anchors, settledId, f, a.id, settleDepth)
      ensures OnFloor(a.id)
    {
      if settledId.Some? {
        MarksAfter(anchors, hist, floorId, settledId.value, lockedId.value, a.id, lockDepth, settleDepth);
        MarksAlong(a.id);
        if floorId.Some? {
          AncestorTransitive(hist.all, floorId.value, settledId.value, lockedId.value);
          AncestorTransitive(hist.all, floorId.value, lockedId.value, a.id);
        }
      } else {
        FirstMarks(anchors, hist, a, lockDepth);
        FirstMarks(anchors, hist, a, settleDepth);
        FirstFollows(anchors, a, lockDepth);
        FirstFollows(anchors, a, settleDepth);
      }
      TrailGrows(hist, trail, Raise(anchors, settledId, a.id, settleDepth).value);
    }

    lemma MarksAlong(tip: Id)
      requires StoreSound(anchors, hist, floorId, exact) && settledId.Some? && lockedId.Some?
      requires MarksOk(anchors, hist, floorId, settledId.value, lockedId.value, tip)
      ensures Follows(anchors, lockedId, Raise(anchors, lockedId, tip, lockDepth), tip, lockDepth)
      ensures Follows(anchors, settledId, Raise(anchors, settledId, tip, settleDepth), tip, settleDepth)
    {
      AncestorTransitive(hist.all, settledId.value, lockedId.value, tip);
      AncestorHeight(hist.all, settledId.value, lockedId.value);
      RaiseFollows(anchors, hist, FloorHeight(), lockedId.value, tip, lockDepth);
      RaiseFollows(anchors, hist, FloorHeight(), settledId.value, tip, settleDepth);
    }

    lemma FloorUnderTip()
      requires Rooted()
      ensures OnFloor(tipId.value)
    {
      if floorId.Some? {
        AncestorTransitive(hist.all, floorId.value, settledId.value, lockedId.value);
        AncestorTransitive(hist.all, floorId.value, lockedId.value, tipId.value);
      }
    }

    /** What the ids guarantee about an anchor handed to `add`: an id fixes its content, and where history
        begins at an adopted floor no parentless anchor that gets as far as its proofs verifies. */
    ghost predicate Lawful(a: Anchor, proofsOk: bool)
      reads this`hist, this`finalCache, this`genesisId
    {
      && HashLaws(hist, a)
      && (hist.baseId.Some? && a.prev.None? && (genesisId.None? || genesisId == Some(a.id)) ==> !proofsOk)
      && (finalCache.Some? && a.id == finalCache.value.0 && a.id !in hist.all ==> !proofsOk)
    }

    lemma StoredMarks(a: Anchor, s: Store, h: History)
      requires Valid() && a.id !in anchors && s == anchors[a.id := a] && h == Grown(hist, a)
      requires Extends(hist, h) && Below(s, h) && FloorOf(s, floorId) == FloorHeight()
      ensures Rooted() ==> MarksOk(s, h, floorId, settledId.value, lockedId.value, tipId.value)
    {
      ExtendKeepsAll(hist, h);
    }

    lemma StoredCaches(a: Anchor, h: History)
      requires Valid() && h == Grown(hist, a) && Extends(hist, h)
      requires finalCache.Some? ==> a.id != finalCache.value.0 || a.id in hist.all
      ensures TrailDescends(h, trail, settledId)
      ensures HeadsTrue(h, tipId, tipHeads, exact) && FloorTrue(h, floorId, floorHeads, exact)
      ensures CacheFits(h, finalCache, exact)
    {
      ExtendKeepsAll(hist, h);
    }

    lemma StoredHeads(a: Anchor, h: History)
      requires Valid() && exact && a.id !in anchors && h == Grown(hist, a) && Extends(hist, h)
      requires a.prev.Some? ==> a.prev.value in anchors
      requires floorId.Some? ==> IsAncestor(h.all, floorId.value, a.id)
      ensures HeadsOf(h, a.id) == ApplyHeadsDelta(PrevHeads(a), a.headsDelta)
    {
      if a.prev.Some? {
        ExtendKeeps(hist, h, a.prev.value, a.prev.value);
        if floorId.Some? { ExtendKeeps(hist, h, floorId.value, a.prev.value); }
        HeadsRefine(a.prev.value);
      }
    }

    /** Storing an anchor disturbs no mark, no cache and no certified heads. */
    lemma Stored(a: Anchor, s: Store, h: History)
      requires Valid() && a.id !in anchors && HashLaws(hist, a) && s == anchors[a.id := a] && h == Grown(hist, a)
      requires finalCache.Some? ==> a.id != finalCache.value.0 || a.id in hist.all
      requires a.prev.Some? ==>
                 && a.prev.value in anchors && anchors[a.prev.value].height + 1 == a.height
                 && a.weight == anchors[a.prev.value].weight + a.difficulty
      requires a.prev.None? ==> a.height == 0 && hist.baseId.None?
      ensures StoreSound(s, h, floorId, exact)
      ensures TrailDescends(h, trail, settledId)
      ensures HeadsTrue(h, tipId, tipHeads, exact) && FloorTrue(h, floorId, floorHeads, exact)
      ensures CacheFits(h, finalCache, exact)
      ensures Rooted() ==> MarksOk(s, h, floorId, settledId.value, lockedId.value, tipId.value)
      ensures exact && (floorId.Some? ==> IsAncestor(h.all, floorId.value, a.id)) ==>
                HeadsOf(h, a.id) == ApplyHeadsDelta(PrevHeads(a), a.headsDelta)
    {
      GrowKeeps(anchors, hist, floorId, a);
      WorkGrows(hist, h, a);
      StoredMarks(a, s, h);
      StoredCaches(a, h);
      if exact && (floorId.Some? ==> IsAncestor(h.all, floorId.value, a.id)) { StoredHeads(a, h); }
    }

    method Hold(a: Anchor, ghost full: Heads)
      requires Valid() && a.id !in anchors && HashLaws(hist, a)
      requires finalCache.Some? ==> a.id != finalCache.value.0 || a.id in hist.all
      requires a.prev.Some? ==>
                 && a.prev.value in anchors && anchors[a.prev.value].height + 1 == a.height
                 && a.weight == anchors[a.prev.value].weight + a.difficulty
      requires a.prev.None? ==> a.height == 0 && hist.baseId.None?
      requires full == ApplyHeadsDelta(PrevHeads(a), a.headsDelta)
      modifies this`anchors, this`hist
      ensures anchors == old(anchors)[a.id := a] && hist == Grown(old(hist), a)
      ensures Sound() && CacheTrue() && Marked()
      ensures exact && OnFloor(a.id) ==> HeadsOf(hist, a.id) == full
    {
      Stored(a, anchors[a.id := a], Grown(hist, a));
      HoldAs(anchors[a.id := a], Grown(hist, a));
    }

    method HoldAs(s: Store, ghost h: History)
      requires lockDepth <= settleDepth && StoreSound(s, h, floorId, exact)
      requires TrailDescends(h, trail, settledId)
      requires HeadsTrue(h, tipId, tipHeads, exact) && FloorTrue(h, floorId, floorHeads, exact)
      requires CacheFits(h, finalCache, exact)
      requires (tipId.Some? && lockedId.Some? && settledId.Some?
                && MarksOk(s, h, floorId, settledId.value, lockedId.value, tipId.value)
                && Keeps(s, lockedId, tipId, lockDepth) && Keeps(s, settledId, tipId, settleDepth))
               || (tipId.None? && lockedId.None? && settledId.None? && floorId.None? && trail == [])
      modifies this`anchors, this`hist
      ensures Sound() && CacheTrue() && Marked() && anchors == s && hist == h
    {
      anchors, hist := s, h;
    }

    /** Fork choice for one incoming anchor. `proofsOk` is what verifyAnchor finds in the space, time
        and signature proofs, `stateOk` what the application finds in the folded state. */
    method Add(a: Anchor, proofsOk: bool, stateOk: bool) returns (r: AddResult)
      requires Valid() && Lawful(a, proofsOk)
      modifies this`anchors, this`hist, this`tipId, this`tipHeads, this`lockedId, this`settledId, this`settledConflict,
          this`trail
      ensures Valid() && old(trail) <= trail
      ensures a.id in old(anchors) ==> r == Added
      ensures a.id !in old(anchors) && old(Screen(a, proofsOk, stateOk)) != Added ==>
                r == old(Screen(a, proofsOk, stateOk))
      ensures a.id in old(anchors) || old(Screen(a, proofsOk, stateOk)) != Added ==>
                unchanged(this`anchors, this`hist, this`tipId, this`tipHeads, this`lockedId, this`settledId, this`trail)
      ensures a.id !in old(anchors) && old(Screen(a, proofsOk, stateOk)) == Added ==>
                && anchors == old(anchors)[a.id := a] && hist == Grown(old(hist), a)
                && var d := Decide(anchors, a.id, old(tipId), old(lockedId), old(settledId));
                && r == Answer(d) && Stands() == StandsAfter(anchors, a, d, old(Stands()), lockDepth, settleDepth)
                && MarksFollow(anchors, d, old(Stands()), Stands(), lockDepth, settleDepth)
      ensures a.id !in old(anchors) && a.prev.None? && old(genesisId).Some? && old(genesisId) != Some(a.id) ==>
                r == WrongGenesis
      ensures a.id !in old(anchors) && a.prev.Some? && a.prev.value !in old(anchors) ==> r == UnknownPrev
      ensures a.id !in old(anchors) && old(Screen(a, proofsOk, stateOk)) == Added ==>
                && proofsOk && stateOk && a.difficulty == old(ExpectedDifficulty(a.prev))
                && (old(tipId).Some? && a.prev == old(tipId) && a.difficulty > 0 ==> tipId == Some(a.id))
    {
      if a.id in anchors { return Added; }
      var heads;
      r, heads := Check(a, proofsOk, stateOk);
      if r == Added {
        ghost var d;
        r, d := Accept(a, heads, Stands());
      }
    }

    method Check(a: Anchor, proofsOk: bool, stateOk: bool) returns (r: AddResult, heads: Heads)
      requires WellFormed(anchors)
      ensures r == Screen(a, proofsOk, stateOk)
      ensures r == Added ==> heads == ApplyHeadsDelta(PrevHeads(a), a.headsDelta)
    {
      heads := map[];
      if a.prev.None? && genesisId.Some? && genesisId != Some(a.id) { return WrongGenesis, heads; }
      if a.prev.Some? && a.prev.value !in anchors { return UnknownPrev, heads; }
      var prev := if a.prev.Some? then Some(anchors[a.prev.value]) else None;
      if a.prev.Some? { heads := HeadsAt(a.prev.value); }
      var expected := DifficultyFor(prev);
      if !LinksOk(a, prev, heads, expected) || !proofsOk { return BadAnchor, heads; }
      heads := ApplyHeadsDelta(heads, a.headsDelta);
      r := if stateOk then Added else BadAppRoot;
    }

    method Accept(a: Anchor, heads: Heads, ghost was: Standing) returns (r: AddResult, ghost d: Decision)
      requires Valid() && HashLaws(hist, a) && a.id !in anchors && was == Stands()
      requires finalCache.Some? ==> a.id != finalCache.value.0 || a.id in hist.all
      requires a.prev.Some? ==>
                 && a.prev.value in anchors && anchors[a.prev.value].height + 1 == a.height
                 && a.weight == anchors[a.prev.value].weight + a.difficulty
      requires a.prev.None? ==> a.height == 0 && hist.baseId.None?
      requires tipId.None? ==> a.prev.None?
      requires heads == ApplyHeadsDelta(PrevHeads(a), a.headsDelta) == a.stateRoot
      modifies this`anchors, this`hist, this`tipId, this`tipHeads, this`lockedId, this`settledId, this`settledConflict,
          this`trail
      ensures Valid() && old(trail) <= trail
      ensures anchors == old(anchors)[a.id := a] && hist == Grown(old(hist), a)
      ensures d == Decide(anchors, a.id, was.tip, was.lock, was.settled) && r == Answer(d)
      ensures Stands() == StandsAfter(anchors, a, d, was, lockDepth, settleDepth)
      ensures MarksFollow(anchors, d, was, Stands(), lockDepth, settleDepth)
      ensures was.tip.Some? && a.prev == was.tip && a.difficulty > 0 ==> d.NewTip?
    {
      Hold(a, heads);
      r, d := Place(a, heads, was);
    }

    // ---------- pruning, and starting from a root ----------

    /** How deep a prune may cut: never into the locked or the settled region. */
    ghost function Cut(floorHeight: int): int
      requires Rooted()
      reads this
    {
      var a := if floorHeight > anchors[lockedId.value].height then anchors[lockedId.value].height else floorHeight;
      if a > anchors[settledId.value].height then anchors[settledId.value].height else a
    }

    method TipAt(height: nat) returns (floor: Anchor)
      requires Valid() && Rooted() && FloorHeight() <= height <= anchors[settledId.value].height
      ensures floor.id in anchors && anchors[floor.id] == floor && floor.height == height
      ensures IsAncestor(anchors, floor.id, tipId.value) && IsAncestor(hist.all, floor.id, settledId.value)
    {
      floor := anchors[tipId.value];
      AncestorTransitive(hist.all, settledId.value, lockedId.value, tipId.value);
      AncestorHeight(hist.all, settledId.value, tipId.value);
      while floor.height > height
        invariant floor.id in anchors && anchors[floor.id] == floor && floor.height >= height
        invariant IsAncestor(anchors, floor.id, tipId.value)
        decreases floor.height
      {
        StepDown(anchors, hist, floorId, floor.id);
        AncestorTransitive(anchors, floor.prev.value, floor.id, tipId.value);
        floor := anchors[floor.prev.value];
      }
      AncestorLifts(anchors, hist, floor.id, tipId.value);
      AncestorsLine(hist.all, floor.id, settledId.value, tipId.value);
    }

    /** Drop everything below a height the tip's line reaches: no tip, lock or settlement moves, the
        certified heads of what is kept stay what they were, and exactly the anchors from the cut
        upward are kept. */
    method Prune(floorHeight: int)
      requires Valid()
      modifies this`anchors, this`floorId, this`floorHeads
      ensures Valid()
      ensures old(tipId).None? || old(Cut(floorHeight)) <= old(FloorHeight()) ==> unchanged(this)
      ensures old(tipId).Some? && old(Cut(floorHeight)) > old(FloorHeight()) ==>
                && anchors == Pruned(old(anchors), old(Cut(floorHeight)))
                && floorId.Some? && floorId.value in anchors && anchors[floorId.value].height == old(Cut(floorHeight))
                && IsAncestor(old(anchors), floorId.value, tipId.value)
      ensures old(Rooted()) ==>
                var settled := old(anchors[settledId.value].height);
                && old(FloorHeight()) <= FloorHeight() <= settled
                && (old(FloorHeight()) <= floorHeight <= settled ==> FloorHeight() == floorHeight)
                && (floorHeight > settled ==> FloorHeight() == settled)
      ensures floorHeight <= old(FloorHeight()) ==> unchanged(this)
      ensures floorId != old(floorId) ==>
                forall id :: id in anchors <==> id in old(anchors) && FloorHeight() <= old(anchors)[id].height
    {
      if tipId.None? { return; }
      if Rooted() { SettledUnderLock(); }
      var cut := floorHeight;
      if cut > anchors[lockedId.value].height { cut := anchors[lockedId.value].height; }
      if cut > anchors[settledId.value].height { cut := anchors[settledId.value].height; }
      if cut <= 0 { return; }
      if floorId.Some? && floorId.value in anchors && cut <= anchors[floorId.value].height { return; }
      CutAt(cut);
    }

    lemma SettledUnderLock()
      requires Valid() && Rooted()
      ensures anchors[settledId.value].height <= anchors[lockedId.value].height
    {
      AncestorHeight(hist.all, settledId.value, lockedId.value);
    }

    method CutAt(cut: nat)
      requires Valid() && Rooted() && 0 < cut && FloorHeight() <= cut <= anchors[settledId.value].height
      requires cut <= anchors[lockedId.value].height
      modifies this`anchors, this`floorId, this`floorHeads
      ensures Valid() && Rooted()
      ensures anchors == Pruned(old(anchors), cut)
      ensures floorId.Some? && floorId.value in anchors && anchors[floorId.value].height == cut
      ensures IsAncestor(old(anchors), floorId.value, tipId.value)
    {
      var floor := TipAt(cut);
      if exact { TipLineHeads(floor.id); }
      var fh := HeadsAt(floor.id);
      CutFits(floor.id);
      var kept := KeptFrom(cut);
      DropTo(kept, floor.id, fh);
    }

    method KeptFrom(cut: nat) returns (kept: Store)
      ensures kept == Pruned(anchors, cut)
    {
      kept := map id | id in anchors && cut <= anchors[id].height :: anchors[id];
    }

    method DropTo(kept: Store, f: Id, fh: Heads)
      requires WellFormed(hist.all) && f in hist.all && (exact ==> fh == HeadsOf(hist, f)) && lockDepth <= settleDepth
      requires tipId.Some? && lockedId.Some? && settledId.Some?
      requires HeadsTrue(hist, tipId, tipHeads, exact) && TrailDescends(hist, trail, settledId)
      requires CacheFits(hist, finalCache, exact)
      requires StoreSound(kept, hist, Some(f), exact)
      requires MarksOk(kept, hist, Some(f), settledId.value, lockedId.value, tipId.value)
      requires Keeps(kept, lockedId, tipId, lockDepth) && Keeps(kept, settledId, tipId, settleDepth)
      modifies this`anchors, this`floorId, this`floorHeads
      ensures Valid() && Rooted()
      ensures anchors == kept && floorId == Some(f)
    {
      DropOn(kept, f, fh);
      IsValid();
    }

    method DropOn(kept: Store, f: Id, fh: Heads)
      modifies this`anchors, this`floorId, this`floorHeads
      ensures anchors == kept && floorId == Some(f) && floorHeads == fh
    {
      anchors := kept;
      floorId := Some(f);
      floorHeads := fh;
    }

    lemma IsValid()
      requires lockDepth <= settleDepth && StoreSound(anchors, hist, floorId, exact)
      requires HeadsTrue(hist, tipId, tipHeads, exact) && FloorTrue(hist, floorId, floorHeads, exact)
      requires TrailDescends(hist, trail, settledId) && CacheFits(hist, finalCache, exact)
      requires tipId.Some? && lockedId.Some? && settledId.Some?
      requires MarksOk(anchors, hist, floorId, settledId.value, lockedId.value, tipId.value)
      requires Keeps(anchors, lockedId, tipId, lockDepth) && Keeps(anchors, settledId, tipId, settleDepth)
      ensures Valid() && Rooted()
    {
    }

    lemma CutFits(f: Id)
      requires Valid() && Rooted() && f in anchors && IsAncestor(hist.all, f, settledId.value)
      requires FloorHeight() <= anchors[f].height && 0 < anchors[f].height <= anchors[settledId.value].height
      ensures var s := Pruned(anchors, anchors[f].height);
              StoreSound(s, hist, Some(f), exact)
                  && MarksOk(s, hist, Some(f), settledId.value, lockedId.value, tipId.value)
                  && Keeps(s, lockedId, tipId, lockDepth) && Keeps(s, settledId, tipId, settleDepth)
    {
      PruneKeeps(anchors, hist, floorId, f);
      AncestorHeight(hist.all, settledId.value, lockedId.value);
      AncestorHeight(hist.all, lockedId.value, tipId.value);
    }

    /** The hardcoded block 0, trusted rather than verified. The chain is sound from it if and only if its
        delta is what it commits to, which is not tested. */
    method InstallGenesis(genesis: Anchor, heads: Heads) returns (ok: bool)
      requires Valid()
      modifies this`anchors, this`hist, this`tipId, this`tipHeads, this`lockedId, this`settledId, this`genesisId,
          this`trail
      ensures ok <==> old(tipId).None? && genesis.height == 0 && genesis.prev.None? && heads == genesis.stateRoot
      ensures !ok ==> unchanged(this)
      ensures ok ==> anchors == map[genesis.id := genesis] && genesisId == Some(genesis.id) && tipHeads == heads
      ensures ok ==> tipId == lockedId == settledId == Some(genesis.id) && trail == [genesis.id]
      ensures Valid() <==> !ok || genesis.headsDelta == genesis.stateRoot
    {
      if tipId.Some? || |anchors| > 0 { return false; }
      if genesis.height != 0 || genesis.prev.Some? { return false; }
      if heads != genesis.stateRoot { return false; }
      Root(genesis, heads);
      return true;
    }

    method Root(genesis: Anchor, heads: Heads)
      requires Valid() && Unrooted() && genesis.height == 0 && genesis.prev.None? && genesis.stateRoot == heads
      modifies this`anchors, this`hist, this`tipId, this`tipHeads, this`lockedId, this`settledId, this`genesisId,
          this`trail
      ensures Valid() <==> genesis.headsDelta == genesis.stateRoot
      ensures anchors == map[genesis.id := genesis] && genesisId == Some(genesis.id) && tipHeads == heads
      ensures tipId == lockedId == settledId == Some(genesis.id) && trail == [genesis.id]
    {
      RootOn(map[genesis.id := genesis], genesis.id, heads);
      RootValid(genesis);
    }

    method RootOn(s: Store, g: Id, heads: Heads)
      modifies this`anchors, this`hist, this`tipId, this`tipHeads, this`lockedId, this`settledId, this`genesisId,
          this`trail
      ensures anchors == s && hist == History(s, None, map[]) && trail == [g]
      ensures tipId == lockedId == settledId == genesisId == Some(g) && tipHeads == heads
    {
      anchors := s;
      tipId, lockedId, settledId, genesisId := Some(g), Some(g), Some(g), Some(g);
      tipHeads := heads;
      hist := History(s, None, map[]);
      trail := [g];
    }

    lemma RootValid(g: Anchor)
      requires anchors == map[g.id := g] && hist == History(anchors, None, map[]) && g.height == 0 && g.prev.None?
      requires tipId == lockedId == settledId == Some(g.id) && tipHeads == g.stateRoot && trail == [g.id]
      requires floorId.None? && finalCache.None? && lockDepth <= settleDepth && exact
      ensures Valid() <==> g.headsDelta == g.stateRoot
    {
      RootFits(g);
      assert Descending(hist, trail);
    }

    /** Only a chain holding nothing, or a bare root, may adopt. */
    predicate Fresh()
      reads this`anchors, this`tipId
    {
      tipId.None? || (|anchors| == 1 && tipId.value in anchors && anchors[tipId.value].height == 0)
    }

    /** Start from a checkpoint's anchor, its heads taken on trust. `past` is the history it comes from, which
        nobody here has seen: if it has one, the chain is as good as one that saw it all and pruned, but
        that with ancestry below the floor, held for difficulty windows, heads are known at the tip and the
        floor only (Store.AdoptedHeads). */
    method Adopt(floor: Anchor, heads: Heads, ancestry: seq<Anchor>, ghost past: History) returns (ok: bool)
      requires Valid()
      modifies this`anchors, this`hist, this`tipId, this`tipHeads, this`lockedId, this`settledId, this`floorId,
          this`floorHeads, this`trail, this`exact
      ensures ok <==>
                && old(Fresh()) && heads == floor.stateRoot
                && (schedule.Some? ==>
                      && floor.height % schedule.value.epoch == 0
                      && (|| schedule.value.window <= schedule.value.epoch
                          || Linked(floor, ancestry, schedule.value.window - schedule.value.epoch)))
      ensures !ok ==> unchanged(this)
      ensures ok ==> tipId == lockedId == settledId == floorId == Some(floor.id) && tipHeads == floorHeads == heads
      ensures ok ==> anchors == Held(LinkedRun(floor, ancestry))[floor.id := floor] && trail == [floor.id]
      ensures ok ==> hist == past && (exact <==> LinkedRun(floor, ancestry) == [])
      ensures ok && PastOf(past, floor, heads, LinkedRun(floor, ancestry), finalCache) ==> Valid()
    {
      var genesisOnly := |anchors| == 1 && tipId.Some? && anchors[tipId.value].height == 0;
      if tipId.Some? && !genesisOnly { return false; }
      if heads != floor.stateRoot { return false; }
      var linked := LinkedRunOf(floor, ancestry);
      if schedule.Some? { AdoptMeans(floor, ancestry, schedule.value); }
      if schedule.Some? {
        if floor.height % schedule.value.epoch != 0 { return false; }
        var dip := schedule.value.window - schedule.value.epoch;
        if dip > 0 && |linked| < dip { return false; }
      }
      Seat(floor, heads, linked, past);
      return true;
    }

    method Seat(floor: Anchor, heads: Heads, linked: seq<Anchor>, ghost past: History)
      requires lockDepth <= settleDepth && heads == floor.stateRoot
      modifies this`anchors, this`hist, this`tipId, this`tipHeads, this`lockedId, this`settledId, this`floorId,
          this`floorHeads, this`trail, this`exact
      ensures tipId == lockedId == settledId == floorId == Some(floor.id) && tipHeads == floorHeads == heads
      ensures anchors == Held(linked)[floor.id := floor] && trail == [floor.id]
      ensures hist == past && (exact <==> linked == [])
      ensures PastOf(past, floor, heads, linked, finalCache) ==> Valid()
    {
      var below := HoldAll(linked);
      SeatOn(below[floor.id := floor], floor, heads, past, linked == []);
      if PastOf(past, floor, heads, linked, finalCache) { SeatValid(floor, heads, linked); }
    }

    method SeatOn(s: Store, floor: Anchor, heads: Heads, ghost past: History, ghost bare: bool)
      modifies this`anchors, this`hist, this`tipId, this`tipHeads, this`lockedId, this`settledId, this`floorId,
          this`floorHeads, this`trail, this`exact
      ensures anchors == s && tipId == lockedId == settledId == floorId == Some(floor.id)
                && tipHeads == floorHeads == heads
      ensures hist == past && trail == [floor.id] && exact == bare
    {
      anchors := s;
      floorId, tipId, lockedId, settledId := Some(floor.id), Some(floor.id), Some(floor.id), Some(floor.id);
      floorHeads, tipHeads := heads, heads;
      hist, exact := past, bare;
      trail := [floor.id];
    }

    lemma SeatValid(floor: Anchor, heads: Heads, linked: seq<Anchor>)
      requires PastOf(hist, floor, heads, linked, finalCache) && heads == floor.stateRoot && (exact <==> linked == [])
      requires anchors == Held(linked)[floor.id := floor] && trail == [floor.id] && lockDepth <= settleDepth
      requires tipId == lockedId == settledId == floorId == Some(floor.id) && tipHeads == floorHeads == heads
      ensures Valid()
    {
      SeatFits(anchors, hist, floor, linked == []);
      assert Descending(hist, trail);
    }

    /** As long as the run it adopted is held, which adding keeps and only pruning ends, the chain computes the
        difficulty of the whole history at the floor and above. */
    lemma AdoptedDifficulty(floor: Anchor, ancestry: seq<Anchor>, prev: Id)
      requires Valid() && schedule.Some? && AdoptAllowed(floor, ancestry, schedule.value)
      requires floorId == Some(floor.id) && floor.id in anchors && anchors[floor.id] == floor
      requires forall a :: a in LinkedRun(floor, ancestry) ==> a.id in anchors
      requires forall i :: 0 <= i < |ancestry| && ancestry[i].id in hist.all ==> hist.all[ancestry[i].id] == ancestry[i]
      requires prev in anchors && IsAncestor(hist.all, floor.id, prev)
      ensures ExpectedDifficulty(Some(prev)) == DifficultyAfter(hist.all, Some(prev), schedule.value)
    {
      forall x | x in hist.all && IsAncestor(hist.all, floor.id, x) ensures x in anchors {
        AncestorHeight(hist.all, floor.id, x);
      }
      BootstrapDifficulty(anchors, hist, floor, ancestry, prev, schedule.value);
    }

    static method LinkedRunOf(floor: Anchor, ancestry: seq<Anchor>) returns (linked: seq<Anchor>)
      ensures linked == LinkedRun(floor, ancestry)
    {
      linked := [];
      var cur := floor;
      var i := 0;
      while i < |ancestry| && cur.prev == Some(ancestry[i].id) && ancestry[i].height + 1 == cur.height
        invariant i <= |ancestry|
        invariant LinkedRun(floor, ancestry) == linked + LinkedRun(cur, ancestry[i..])
      {
        linked := linked + [ancestry[i]];
        cur := ancestry[i];
        i := i + 1;
      }
    }

    static method HoldAll(linked: seq<Anchor>) returns (s: Store)
      ensures s == Held(linked)
    {
      s := map[];
      for i := 0 to |linked|
        invariant s == Held(linked[..i])
      {
        s := s[linked[i].id := linked[i]];
        assert linked[..i + 1][..i] == linked[..i];
      }
      assert linked[..|linked|] == linked;
    }
  }

  lemma RootFits(g: Anchor)
    requires g.height == 0 && g.prev.None?
    ensures var s, h := map[g.id := g], History(map[g.id := g], None, map[]);
            && StoreSound(s, h, None, true) && MarksOk(s, h, None, g.id, g.id, g.id)
            && (HeadsTrue(h, Some(g.id), g.stateRoot, true) <==> g.headsDelta == g.stateRoot)
  {
    assert ApplyHeadsDelta(map[], g.headsDelta) == g.headsDelta;
  }

  lemma SeatFits(s: Store, h: History, floor: Anchor, exact: bool)
    requires StoreSound(s, h, Some(floor.id), exact) && floor.id in s && s[floor.id] == floor
    ensures MarksOk(s, h, Some(floor.id), floor.id, floor.id, floor.id)
  {
  }

  /** The floor belongs to that history, with those heads, and what is kept with it does too. */
  ghost predicate PastOf(past: History, floor: Anchor, heads: Heads, linked: seq<Anchor>, cache: Option<(Id, Heads)>) {
    && Grounded(past) && floor.id in past.all && past.all[floor.id] == floor && HeadsOf(past, floor.id) == heads
    && StoreSound(Held(linked)[floor.id := floor], past, Some(floor.id), linked == [])
    && CacheFits(past, cache, linked == [])
  }

  /** No hash names itself, and only a first anchor has no parent. */
  predicate RootLike(floor: Anchor) {
    floor.prev != Some(floor.id) && (floor.prev.None? ==> floor.height == 0)
  }

  /** On trust alone: the floor is where history begins. */
  lemma TrustedPast(floor: Anchor, heads: Heads, cache: Option<(Id, Heads)>)
    requires RootLike(floor) && (cache.Some? && cache.value.0 == floor.id ==> cache.value.1 == heads)
    ensures PastOf(History(map[floor.id := floor], Some(floor.id), heads), floor, heads, [], cache)
  {
    assert Held([])[floor.id := floor] == map[floor.id := floor];
  }

  /** A floor from the network's chain: its real ancestry is its past, whatever run of it is held. */
  lemma RealPast(h: History, floor: Anchor, linked: seq<Anchor>, cache: Option<(Id, Heads)>)
    requires Grounded(h) && Weighted(h.all) && h.baseId.None?
    requires floor.id in h.all && h.all[floor.id] == floor && floor.prev.Some?
    requires forall id :: id in h.all && floor.height <= h.all[id].height ==> id == floor.id
    requires forall a :: a in linked ==> a.id in h.all && h.all[a.id] == a
    requires CacheFits(h, cache, linked == [])
    ensures PastOf(h, floor, HeadsOf(h, floor.id), linked, cache)
  {
    HeldBelow(h, linked);
    var s := Held(linked)[floor.id := floor];
    SubWellFormed(s, h.all);
    if linked == [] { assert s == map[floor.id := floor]; }
  }

  lemma {:induction false} HeldBelow(h: History, run: seq<Anchor>)
    requires forall a :: a in run ==> a.id in h.all && h.all[a.id] == a
    ensures forall id :: id in Held(run) ==> id in h.all && h.all[id] == Held(run)[id]
    decreases |run|
  {
    if |run| > 0 { HeldBelow(h, run[..|run| - 1]); }
  }

  /** The store after setting each anchor of a run in turn. */
  function Held(run: seq<Anchor>): Store
    decreases |run|
  {
    if |run| == 0 then map[] else Held(run[..|run| - 1])[run[|run| - 1].id := run[|run| - 1]]
  }

  /** The checks verifyAnchor makes on links, difficulty, weight and heads. */
  predicate LinksOk(a: Anchor, prev: Option<Anchor>, prevHeads: Heads, expected: nat) {
    && a.difficulty == expected
    && a.height == (if prev.Some? then prev.value.height + 1 else 0)
    && a.prev == (if prev.Some? then Some(prev.value.id) else None)
    && a.weight == (if prev.Some? then prev.value.weight else 0) + expected
    && a.stateRoot == ApplyHeadsDelta(prevHeads, a.headsDelta)
  }
}
