/** How low a node's anchors must reach for its fork verdicts to be those of the whole history: prune in
    src/consensus/chain.ts keeps a margin for the retarget window, and the reference window of
    resolveFork needs one of its own. */
module ForkPrune {
  import opened Primitives
  import opened Anchors
  import opened Store
  import opened ForkChoice
  import opened AnchorChains

  // ---------- nodes on the two sides of a split ----------

  /** Every anchor passes what verifyAnchor checks of links, difficulty, weight and heads. */
  ghost predicate Verified(h: History, base: nat) {
    && Grounded(h) && h.baseId.None?
    && forall id :: id in h.all ==>
         if HasParent(h.all, h.all[id])
         then LinksOk(h.all[id], Some(h.all[h.all[id].prev.value]), HeadsOf(h, h.all[id].prev.value), base)
         else LinksOk(h.all[id], None, map[], base)
  }

  /** The chain begins with the installed block 0, whose producer no farmer can be. */
  ghost predicate BlockZero(s: Store) {
    forall id :: id in s ==> (s[id].prev.None? <==> s[id].producer == GENESIS_PRODUCER)
  }

  /** A node on tip `a` that never pruned, and one on tip `b` that did, with their locks and settled anchors. */
  datatype Sides = Sides(a: Id, b: Id, lockA: Id, settledA: Id, lockB: Id, settledB: Id)

  /** Two branches that part above the anchor at height `fork`. */
  ghost predicate SplitsAt(s: Store, a: Id, b: Id, fork: nat)
    requires WellFormed(s)
  {
    && a in s && b in s && !IsAncestor(s, a, b) && !IsAncestor(s, b, a)
    && ForkPoint(s, a, b).Some? && s[ForkPoint(s, a, b).value].height == fork
  }

  /** Locked above the fork and settled no higher than it, so that it takes a verdict to leave the tip. */
  ghost predicate Stands(s: Store, tip: Id, lock: Id, settled: Id, fork: nat)
    requires WellFormed(s)
  {
    && tip in s && lock in s && settled in s && IsAncestor(s, lock, tip) && IsAncestor(s, settled, lock)
    && s[settled].height <= fork < s[lock].height
  }

  /** A prune never cuts above the settled anchor. */
  ghost predicate Sided(h: History, floor: nat, fork: nat, x: Sides)
    requires WellFormed(h.all)
  {
    SubWellFormed(Pruned(h.all, floor), h.all);
    && SplitsAt(h.all, x.a, x.b, fork) && x.a in Pruned(h.all, floor)
    && Stands(h.all, x.a, x.lockA, x.settledA, fork)
    && Stands(Pruned(h.all, floor), x.b, x.lockB, x.settledB, fork) && floor <= h.all[x.settledB].height
  }

  /** The marks are the anchors so deep under the tip. */
  ghost predicate Deep(h: History, x: Sides, lockDepth: nat, settleDepth: nat)
    requires WellFormed(h.all) && x.a in h.all && x.b in h.all
  {
    && x.lockA == Up(h.all, x.a, lockDepth).id && x.settledA == Up(h.all, x.a, settleDepth).id
    && x.lockB == Up(h.all, x.b, lockDepth).id && x.settledB == Up(h.all, x.b, settleDepth).id
  }

  /** Each hears the whole of the other's branch. */
  ghost predicate Agree(h: History, floor: nat, fork: nat, x: Sides)
    requires WellFormed(h.all) && Sided(h, floor, fork, x)
  {
    SubWellFormed(Pruned(h.all, floor), h.all);
    TipAfter(h.all, x.b, x.a, x.lockA, x.settledA) == TipAfter(Pruned(h.all, floor), x.a, x.b, x.lockB, x.settledB)
  }

  ghost predicate Possible(h: History, base: nat, zero: bool) {
    Verified(h, base) && (zero ==> BlockZero(h.all))
  }

  /** Wherever the two nodes stand, they end on one tip. */
  ghost predicate AgreesAt(zero: bool, floor: nat, fork: nat) {
    forall h: History, base: nat, x: Sides ::
      Possible(h, base, zero) && Sided(h, floor, fork, x) ==> Agree(h, floor, fork, x)
  }

  /** They do where their marks are exactly at these depths. */
  ghost predicate AgreesAtDepths(zero: bool, floor: nat, fork: nat, lockDepth: nat, settleDepth: nat) {
    forall h: History, base: nat, x: Sides ::
      Possible(h, base, zero) && Sided(h, floor, fork, x) && Deep(h, x, lockDepth, settleDepth) ==>
        Agree(h, floor, fork, x)
  }

  /** Nothing of the reference window that counts for a producer lies below the floor. */
  predicate KeepsWindow(zero: bool, floor: nat, fork: nat) {
    HasWindow(floor, fork) || (zero && floor == 1)
  }

  /** Nothing of the reference window of the fork point may be dropped but an installed block 0, and nothing
      below it is needed: for nodes however marked, and for nodes at any depths that let them switch. */
  lemma AgreesAtIff(zero: bool, floor: nat, fork: nat, lockDepth: nat, settleDepth: nat)
    requires floor <= fork && lockDepth < settleDepth
    ensures AgreesAt(zero, floor, fork) <==> KeepsWindow(zero, floor, fork)
    ensures AgreesAtDepths(zero, floor, fork, lockDepth, settleDepth) <==> KeepsWindow(zero, floor, fork)
  {
    if KeepsWindow(zero, floor, fork) {
      forall h: History, base: nat, x: Sides | Possible(h, base, zero) && Sided(h, floor, fork, x)
        ensures Agree(h, floor, fork, x)
      {
        KeepsAgreement(h, base, zero, floor, fork, x);
      }
    } else {
      var h, x := Divided(zero, floor, fork, lockDepth, settleDepth);
    }
  }

  // ---------- where the window is kept ----------

  /** Block 0 adds nothing to a window. */
  lemma {:induction false} ZeroCountsNothing(h: History, f: Id, n: nat, who: set<string>)
    requires Grounded(h) && h.baseId.None? && BlockZero(h.all) && WellFormed(Pruned(h.all, 1))
    requires f in h.all && 1 <= h.all[f].height
    ensures Won(Window(Pruned(h.all, 1), f, n), who) == Won(Window(h.all, f, n), who)
    ensures Cast(Window(Pruned(h.all, 1), f, n)) == Cast(Window(h.all, f, n))
    decreases n
  {
    if n > 0 {
      var s := Pruned(h.all, 1);
      var rest := if HasParent(h.all, h.all[f]) then Window(h.all, h.all[f].prev.value, n - 1) else [];
      assert Window(h.all, f, n)[1..] == rest;
      if HasParent(h.all, h.all[f]) && 1 < h.all[f].height {
        ZeroCountsNothing(h, h.all[f].prev.value, n - 1, who);
        assert Window(s, f, n)[1..] == Window(s, h.all[f].prev.value, n - 1);
      } else {
        assert Joined(h.all, f);
        assert Joined(h.all, h.all[f].prev.value);
        ZeroAlone(h, h.all[f].prev.value, n - 1, who);
        assert Window(s, f, n)[1..] == [];
      }
    }
  }

  lemma ZeroAlone(h: History, g: Id, n: nat, who: set<string>)
    requires WellFormed(h.all) && BlockZero(h.all) && g in h.all && h.all[g].height == 0 && h.all[g].prev.None?
    ensures Won(Window(h.all, g, n), who) == 0 && Cast(Window(h.all, g, n)) == 0
  {
    if n > 0 { assert Window(h.all, g, n)[1..] == []; }
  }

  /** The verdict of the pruned node is that of the whole history. */
  lemma VerdictKept(h: History, zero: bool, floor: nat, x: Id, t: Id)
    requires Grounded(h) && h.baseId.None? && (zero ==> BlockZero(h.all)) && KeepsFrom(Pruned(h.all, floor), h, floor)
    requires x in Pruned(h.all, floor) && t in Pruned(h.all, floor) && !IsAncestor(h.all, x, t)
    requires ForkPoint(h.all, x, t).Some?
    requires var fork := h.all[ForkPoint(h.all, x, t).value].height; floor <= fork && KeepsWindow(zero, floor, fork)
    ensures VerdictOf(Pruned(h.all, floor), x, t) == VerdictOf(h.all, x, t)
  {
    var s, f := Pruned(h.all, floor), ForkPoint(h.all, x, t).value;
    if HasWindow(floor, h.all[f].height) {
      VerdictHeld(s, h, floor, x, t);
    } else {
      ForkPointIsLast(h.all, x, t);
      ForkPointHeld(s, h, floor, x, t);
      ProducersHeld(s, h, floor, x, f);
      ProducersHeld(s, h, floor, t, f);
      var ours, theirs := Producers(h.all, t, f), Producers(h.all, x, f);
      ZeroCountsNothing(h, f, FORK_WINDOW, ours - theirs);
      ZeroCountsNothing(h, f, FORK_WINDOW, theirs - ours);
    }
  }

  /** Where the branches part above `fork`, a lock above it is on one of them only, and what is settled no
      higher is on both. */
  lemma MarksPart(s: Store, tip: Id, other: Id, lock: Id, settled: Id, fork: nat)
    requires WellFormed(s) && SplitsAt(s, tip, other, fork) && Stands(s, tip, lock, settled, fork)
    ensures !IsAncestor(s, lock, other) && IsAncestor(s, settled, other)
  {
    var f := ForkPoint(s, tip, other).value;
    ForkPointIsLast(s, tip, other);
    if IsAncestor(s, lock, other) { AncestorHeight(s, lock, f); }
    AncestorTransitive(s, settled, lock, tip);
    AncestorsLine(s, settled, f, tip);
    AncestorTransitive(s, settled, f, other);
  }

  lemma KeptSplit(h: History, floor: nat, fork: nat, a: Id, b: Id)
    requires WellFormed(h.all) && SplitsAt(h.all, a, b, fork) && floor <= fork
    requires KeepsFrom(Pruned(h.all, floor), h, floor)
    ensures a in Pruned(h.all, floor) && b in Pruned(h.all, floor) && SplitsAt(Pruned(h.all, floor), a, b, fork)
  {
    ForkPointIsLast(h.all, a, b);
    var f := ForkPoint(h.all, a, b).value;
    AncestorHeight(h.all, f, a);
    AncestorHeight(h.all, f, b);
    ForkPointHeld(Pruned(h.all, floor), h, floor, a, b);
    AncestorHeld(Pruned(h.all, floor), h, floor, a, b);
    AncestorHeld(Pruned(h.all, floor), h, floor, b, a);
  }

  lemma SplitTurned(s: Store, a: Id, b: Id, fork: nat)
    requires WellFormed(s) && SplitsAt(s, a, b, fork)
    ensures SplitsAt(s, b, a, fork)
  {
    ForkPointSymmetric(s, a, b);
  }

  lemma KeepsAgreement(h: History, base: nat, zero: bool, floor: nat, fork: nat, x: Sides)
    requires Possible(h, base, zero) && Sided(h, floor, fork, x) && floor <= fork && KeepsWindow(zero, floor, fork)
    ensures Agree(h, floor, fork, x)
  {
    var s := Pruned(h.all, floor);
    SubWellFormed(s, h.all);
    KeptSplit(h, floor, fork, x.a, x.b);
    SplitTurned(s, x.a, x.b, fork);
    MarksPart(h.all, x.a, x.b, x.lockA, x.settledA, fork);
    MarksPart(s, x.b, x.a, x.lockB, x.settledB, fork);
    FollowsWinner(h.all, x.b, x.a, x.lockA, x.settledA);
    FollowsWinner(s, x.a, x.b, x.lockB, x.settledB);
    VerdictKept(h, zero, floor, x.a, x.b);
    SidesAgree(h.all, x.a, x.b);
  }

  // ---------- a history a shallower cut decides otherwise ----------

  /** One line up to height `fork`, then two branches up to height `top`. The line below `turn` was
      produced by "P", as was branch `mine`; the rest by "Q". Block 0 is an installed one if `zero`. */
  datatype Plan = Plan(zero: bool, fork: nat, top: nat, turn: nat, mine: char)

  function At(p: Plan, branch: char, height: nat): Id {
    Name(if height <= p.fork then 'l' else branch, height)
  }

  function Name(line: char, height: nat): Id {
    seq(height + 1, _ => line)
  }

  function Producer(p: Plan, branch: char, height: nat): string {
    if p.zero && height == 0 then GENESIS_PRODUCER
    else if height <= p.fork then (if height < p.turn then "P" else "Q")
    else OnBranch(p, branch)
  }

  function OnBranch(p: Plan, branch: char): string {
    if branch == p.mine then "P" else "Q"
  }

  /** At difficulty 1. */
  function Planned(p: Plan, branch: char, height: nat): Anchor {
    Anchor(At(p, branch, height), if height == 0 then None else Some(At(p, branch, height - 1)), height,
           Producer(p, branch, height), 1, map[], map[], height + 1,
           Seal(0, [], SpaceCommitment("", "", 1), SpaceAnswer(0, "", []), TimeProof(0, "", ""), "", ""))
  }

  /** The plan from height `low` up. */
  ghost function Grow(p: Plan, low: nat): Store {
    map id | id in Ids(p, low, 'a') + Ids(p, low, 'b') :: Planned(p, id[0], |id| - 1)
  }

  ghost function Ids(p: Plan, low: nat, branch: char): (r: set<Id>)
    ensures forall id :: id in r ==> |id| > 0
  {
    set height | low <= height <= p.top :: At(p, branch, height)
  }

  lemma OneLine(p: Plan, branch: char, height: nat)
    ensures var id := At(p, branch, height); Planned(p, id[0], |id| - 1) == Planned(p, branch, height)
  {
    var id := At(p, branch, height);
    assert |id| == height + 1 && id[0] == if height <= p.fork then 'l' else branch;
  }

  lemma InGrow(p: Plan, low: nat, branch: char, height: nat)
    requires (branch == 'a' || branch == 'b') && low <= height <= p.top
    ensures At(p, branch, height) in Grow(p, low)
    ensures Grow(p, low)[At(p, branch, height)] == Planned(p, branch, height)
  {
    assert At(p, branch, height) in Ids(p, low, branch);
    OneLine(p, branch, height);
  }

  lemma GrowIs(p: Plan, low: nat, id: Id) returns (branch: char, height: nat)
    requires id in Grow(p, low)
    ensures (branch == 'a' || branch == 'b') && low <= height <= p.top && id == At(p, branch, height)
    ensures Grow(p, low)[id] == Planned(p, branch, height)
  {
    height := |id| - 1;
    branch := if id in Ids(p, low, 'a') then 'a' else 'b';
    InGrow(p, low, branch, height);
  }

  lemma Apart(p: Plan, c: char, h: nat, d: char, k: nat)
    ensures At(p, c, h) == At(p, d, k) <==> h == k && (c == d || h <= p.fork)
  {
    if At(p, c, h) == At(p, d, k) { assert |At(p, c, h)| == h + 1 && At(p, c, h)[0] == At(p, d, k)[0]; }
  }

  lemma NotLower(p: Plan, low: nat, branch: char, height: nat)
    ensures At(p, branch, height) in Grow(p, low) ==> low <= height
  {
    if At(p, branch, height) in Grow(p, low) {
      var c, h := GrowIs(p, low, At(p, branch, height));
      Apart(p, branch, height, c, h);
    }
  }

  /** The anchor of that branch at that height, and its parent while that is at `low` or above. */
  ghost predicate Charted(s: Store, p: Plan, low: nat, c: char, h: nat) {
    && At(p, c, h) in s && s[At(p, c, h)] == Planned(p, c, h)
    && (HasParent(s, s[At(p, c, h)]) <==> low < h)
    && (low < h ==> At(p, c, h - 1) in s)
  }

  ghost predicate Charts(s: Store, p: Plan, low: nat) {
    WellFormed(s) && forall c, h | (c == 'a' || c == 'b') && low <= h <= p.top :: Charted(s, p, low, c, h)
  }

  lemma GrowStands(p: Plan, low: nat, c: char, h: nat)
    requires (c == 'a' || c == 'b') && low <= h <= p.top
    ensures Charted(Grow(p, low), p, low, c, h)
  {
    InGrow(p, low, c, h);
    if low < h {
      InGrow(p, low, c, h - 1);
    } else if 0 < h {
      NotLower(p, low, c, h - 1);
    }
  }

  lemma GrowCharts(p: Plan, low: nat)
    ensures Charts(Grow(p, low), p, low)
  {
    var s := Grow(p, low);
    forall c, h | (c == 'a' || c == 'b') && low <= h <= p.top ensures Charted(s, p, low, c, h) {
      GrowStands(p, low, c, h);
    }
    forall id | id in s ensures s[id].id == id && (s[id].prev.None? ==> s[id].height == 0) {
      var c, h := GrowIs(p, low, id);
    }
    forall id | id in s && HasParent(s, s[id]) ensures s[s[id].prev.value].height + 1 == s[id].height {
      var c, h := GrowIs(p, low, id);
      assert Charted(s, p, low, c, h);
      assert Charted(s, p, low, c, h - 1);
    }
  }

  lemma GrowCut(p: Plan, low: nat)
    requires WellFormed(Grow(p, 0))
    ensures Grow(p, low) == Pruned(Grow(p, 0), low)
  {
    forall id | id in Grow(p, 0) && low <= Grow(p, 0)[id].height
      ensures id in Grow(p, low) && Grow(p, low)[id] == Grow(p, 0)[id]
    {
      var c, h := GrowIs(p, 0, id);
      InGrow(p, low, c, h);
    }
    forall id | id in Grow(p, low) ensures id in Pruned(Grow(p, 0), low) {
      var c, h := GrowIs(p, low, id);
      InGrow(p, 0, c, h);
    }
  }

  lemma GrowGrounded(p: Plan)
    requires Charts(Grow(p, 0), p, 0)
    ensures Grounded(History(Grow(p, 0), None, map[]))
  {
    var s := Grow(p, 0);
    forall id | id in s ensures Joined(s, id) {
      var c, h := GrowIs(p, 0, id);
      assert Charted(s, p, 0, c, h);
    }
  }

  /** One branch holds nothing of the other above the fork. */
  lemma {:induction false} NoCross(s: Store, p: Plan, low: nat, c: char, h: nat, d: char, k: nat)
    requires Charts(s, p, low) && c != d && (d == 'a' || d == 'b') && low <= k <= p.top && p.fork < h
    ensures At(p, d, k) in s && !IsAncestor(s, At(p, c, h), At(p, d, k))
    decreases k
  {
    Apart(p, c, h, d, k);
    assert Charted(s, p, low, d, k);
    if low < k {
      NoCross(s, p, low, c, h, d, k - 1);
    }
  }

  lemma {:induction false} ForkBelow(s: Store, p: Plan, low: nat, d: char, k: nat)
    requires Charts(s, p, low) && (d == 'a' || d == 'b') && low <= p.fork <= k <= p.top
    ensures At(p, d, k) in s && IsAncestor(s, At(p, 'l', p.fork), At(p, d, k))
    decreases k
  {
    Apart(p, 'l', p.fork, d, k);
    assert Charted(s, p, low, d, k);
    if p.fork < k {
      ForkBelow(s, p, low, d, k - 1);
    }
  }

  lemma {:induction false} ForkIs(s: Store, p: Plan, low: nat, c: char, h: nat, d: char)
    requires Charts(s, p, low) && (c == 'a' || c == 'b') && (d == 'a' || d == 'b') && c != d
    requires low <= h <= p.top && p.fork <= h && p.fork < p.top
    ensures At(p, c, h) in s && At(p, d, p.top) in s
    ensures ForkPoint(s, At(p, c, h), At(p, d, p.top)) == if low <= p.fork then Some(At(p, 'l', p.fork)) else None
    decreases h
  {
    assert Charted(s, p, low, c, h) && Charted(s, p, low, d, p.top);
    if h == p.fork {
      Apart(p, 'l', p.fork, c, h);
      ForkBelow(s, p, low, d, p.top);
    } else {
      NoCross(s, p, low, c, h, d, p.top);
      if low < h {
        ForkIs(s, p, low, c, h - 1, d);
      }
    }
  }

  lemma {:induction false} ProducersAre(s: Store, p: Plan, low: nat, c: char, h: nat)
    requires Charts(s, p, low) && (c == 'a' || c == 'b') && low <= p.fork < h <= p.top
    ensures At(p, c, h) in s && Producers(s, At(p, c, h), At(p, 'l', p.fork)) == {OnBranch(p, c)}
    decreases h
  {
    var f := At(p, 'l', p.fork);
    assert Charted(s, p, low, c, h);
    Apart(p, 'l', p.fork, c, h);
    if h - 1 == p.fork {
      Apart(p, 'l', p.fork, c, h - 1);
      assert Producers(s, f, f) == {};
    } else {
      ProducersAre(s, p, low, c, h - 1);
    }
  }

  /** The lowest height that counts. */
  function Counted(p: Plan, low: nat): nat {
    if p.zero && low == 0 then 1 else low
  }

  /** How many of the `n` heights ending at `h`, none below `low`, lie below `turn`. */
  function Early(low: nat, h: nat, n: nat, turn: nat): nat {
    var from := if low + n <= h + 1 then h + 1 - n else low;
    if turn <= from || h < from then 0 else if turn <= h then turn - from else h + 1 - from
  }

  function Held(low: nat, h: nat, n: nat): nat
    requires low <= h + 1
  {
    if low + n <= h + 1 then n else h + 1 - low
  }

  lemma CountNext(low: nat, h: nat, n: nat, turn: nat)
    requires 1 <= n && 1 <= h && low <= h
    ensures Held(low, h, n) == Held(low, h - 1, n - 1) + 1
    ensures Early(low, h, n, turn) == Early(low, h - 1, n - 1, turn) + if h < turn then 1 else 0
  {
  }

  lemma {:induction false} WindowCounts(s: Store, p: Plan, low: nat, h: nat, n: nat)
    requires Charts(s, p, low) && low <= h <= p.fork <= p.top
    ensures At(p, 'l', h) in s
    ensures var w, lo := Window(s, At(p, 'l', h), n), Counted(p, low);
            && Cast(w) == Held(lo, h, n) && Won(w, {"P"}) == Early(lo, h, n, p.turn)
            && Won(w, {"Q"}) == Held(lo, h, n) - Early(lo, h, n, p.turn)
    decreases n
  {
    Apart(p, 'l', h, 'a', h);
    assert Charted(s, p, low, 'a', h);
    if n > 0 {
      var w := Window(s, At(p, 'l', h), n);
      if low < h {
        Apart(p, 'l', h - 1, 'a', h - 1);
        WindowCounts(s, p, low, h - 1, n - 1);
        CountNext(Counted(p, low), h, n, p.turn);
        assert w[1..] == Window(s, At(p, 'l', h - 1), n - 1);
      } else {
        assert w[1..] == [];
      }
    }
  }

  /** The two tips' verdict, from what `low` leaves. */
  lemma VerdictIs(s: Store, p: Plan, low: nat, c: char, d: char)
    requires Charts(s, p, low) && (c == 'a' || c == 'b') && (d == 'a' || d == 'b') && c != d
    requires (p.mine == 'a' || p.mine == 'b') && low <= p.fork < p.top
    ensures SplitsAt(s, At(p, c, p.top), At(p, d, p.top), p.fork)
    ensures var lo := Counted(p, low);
            var early, held := Early(lo, p.fork, FORK_WINDOW, p.turn), Held(lo, p.fork, FORK_WINDOW);
            var ofC := if c == p.mine then early else held - early;
            var v := VerdictOf(s, At(p, c, p.top), At(p, d, p.top));
            && (2 * (held - ofC) > held ==> v.Keep?)
            && (2 * (held - ofC) <= held < 2 * ofC ==> v.SwitchFinal?)
            && (2 * (held - ofC) <= held && 2 * ofC <= held ==> v.SwitchIfHeavier?)
  {
    ForkIs(s, p, low, c, p.top, d);
    NoCross(s, p, low, c, p.top, d, p.top);
    NoCross(s, p, low, d, p.top, c, p.top);
    ProducersAre(s, p, low, c, p.top);
    ProducersAre(s, p, low, d, p.top);
    WindowCounts(s, p, low, p.fork, FORK_WINDOW);
    assert {"P"} - {"Q"} == {"P"} && {"Q"} - {"P"} == {"Q"};
    Apart(p, 'l', p.fork, c, p.fork);
    assert Charted(s, p, low, c, p.fork);
  }

  /** At one height both tips weigh the same, and the lower id leads. */
  lemma TieGoesToA(s: Store, p: Plan, low: nat)
    requires Charts(s, p, low) && low <= p.fork < p.top
    ensures var a, b := At(p, 'a', p.top), At(p, 'b', p.top);
            a in s && b in s && Heavier(s[a], s[b]) && !Heavier(s[b], s[a])
  {
    assert Charted(s, p, low, 'a', p.top) && Charted(s, p, low, 'b', p.top);
    assert At(p, 'a', p.top)[0] == 'a' && At(p, 'b', p.top)[0] == 'b';
  }

  lemma {:induction false} UpIs(s: Store, p: Plan, low: nat, c: char, h: nat, k: nat)
    requires Charts(s, p, low) && (c == 'a' || c == 'b') && low + k <= h <= p.top
    ensures At(p, c, h) in s && Up(s, At(p, c, h), k) == Planned(p, c, h - k)
    decreases k
  {
    assert Charted(s, p, low, c, h);
    if k > 0 { UpIs(s, p, low, c, h - 1, k - 1); }
  }

  /** The marks at these depths: the lock on the branch, the settled anchor at the fork. */
  lemma PlanStands(s: Store, p: Plan, low: nat, c: char, lockDepth: nat, settleDepth: nat)
    requires Charts(s, p, low) && (c == 'a' || c == 'b') && low <= p.fork && p.top == p.fork + settleDepth
    requires lockDepth < settleDepth
    ensures Stands(s, At(p, c, p.top), At(p, c, p.top - lockDepth), At(p, c, p.fork), p.fork)
  {
    UpIs(s, p, low, c, p.top, lockDepth);
    UpIsAncestor(s, At(p, c, p.top), lockDepth);
    UpIs(s, p, low, c, p.top - lockDepth, settleDepth - lockDepth);
    UpIsAncestor(s, At(p, c, p.top - lockDepth), settleDepth - lockDepth);
    assert Charted(s, p, low, c, p.top - lockDepth) && Charted(s, p, low, c, p.fork);
  }

  // ---------- it is a history a chain can hold ----------

  lemma {:induction false} NoHeads(h: History, p: Plan, c: char, k: nat)
    requires Charts(h.all, p, 0) && h.baseId.None? && (c == 'a' || c == 'b') && k <= p.top
    ensures At(p, c, k) in h.all && HeadsOf(h, At(p, c, k)) == map[]
    decreases k
  {
    assert Charted(h.all, p, 0, c, k);
    if k > 0 { NoHeads(h, p, c, k - 1); }
  }

  lemma PlanLinks(h: History, p: Plan, c: char, k: nat)
    requires Charts(h.all, p, 0) && h.baseId.None? && (c == 'a' || c == 'b') && k <= p.top
    ensures At(p, c, k) in h.all && h.all[At(p, c, k)] == Planned(p, c, k)
    ensures 0 < k ==>
              && At(p, c, k - 1) in h.all
              && LinksOk(Planned(p, c, k), Some(h.all[At(p, c, k - 1)]), HeadsOf(h, At(p, c, k - 1)), 1)
    ensures k == 0 ==> LinksOk(Planned(p, c, k), None, map[], 1)
    ensures HasParent(h.all, Planned(p, c, k)) <==> 0 < k
  {
    assert Charted(h.all, p, 0, c, k);
    if k > 0 {
      assert Charted(h.all, p, 0, c, k - 1);
      NoHeads(h, p, c, k - 1);
    }
  }

  lemma PlanVerified(h: History, p: Plan)
    requires h == History(Grow(p, 0), None, map[]) && Charts(h.all, p, 0) && Grounded(h)
    ensures Verified(h, 1)
  {
    forall id | id in h.all
      ensures if HasParent(h.all, h.all[id])
              then LinksOk(h.all[id], Some(h.all[h.all[id].prev.value]), HeadsOf(h, h.all[id].prev.value), 1)
              else LinksOk(h.all[id], None, map[], 1)
    {
      var c, k := GrowIs(p, 0, id);
      PlanLinks(h, p, c, k);
    }
  }

  lemma PlanZero(p: Plan)
    ensures p.zero ==> BlockZero(Grow(p, 0))
  {
    forall id | id in Grow(p, 0) && p.zero
      ensures Grow(p, 0)[id].prev.None? <==> Grow(p, 0)[id].producer == GENESIS_PRODUCER
    {
      var c, k := GrowIs(p, 0, id);
    }
  }

  /** The plan for a floor: of what the reference window keeps, the two producers have half each, and of
      what it loses, "P" has all. */
  function PlanFor(zero: bool, floor: nat, fork: nat, settleDepth: nat): Plan
    requires floor <= fork
  {
    var kept := fork + 1 - floor;
    Plan(zero, fork, fork + settleDepth, floor + kept / 2, if kept % 2 == 1 then 'a' else 'b')
  }

  function Other(c: char): char {
    if c == 'a' then 'b' else 'a'
  }

  lemma WholeKeepsP(s: Store, zero: bool, floor: nat, fork: nat, settleDepth: nat)
    requires floor <= fork && !KeepsWindow(zero, floor, fork) && 0 < settleDepth
    requires Charts(s, PlanFor(zero, floor, fork, settleDepth), 0)
    ensures var p := PlanFor(zero, floor, fork, settleDepth);
            var a, b := At(p, p.mine, p.top), At(p, Other(p.mine), p.top);
            SplitsAt(s, a, b, fork) && Winner(s, a, b) == a
  {
    var p := PlanFor(zero, floor, fork, settleDepth);
    VerdictIs(s, p, 0, p.mine, Other(p.mine));
    VerdictIs(s, p, 0, Other(p.mine), p.mine);
    TieGoesToA(s, p, 0);
  }

  lemma CutKeepsQ(s: Store, zero: bool, floor: nat, fork: nat, settleDepth: nat)
    requires floor <= fork && !KeepsWindow(zero, floor, fork) && 0 < settleDepth
    requires Charts(s, PlanFor(zero, floor, fork, settleDepth), floor)
    ensures var p := PlanFor(zero, floor, fork, settleDepth);
            var a, b := At(p, p.mine, p.top), At(p, Other(p.mine), p.top);
            SplitsAt(s, b, a, fork) && Winner(s, b, a) == b
  {
    var p := PlanFor(zero, floor, fork, settleDepth);
    VerdictIs(s, p, floor, p.mine, Other(p.mine));
    VerdictIs(s, p, floor, Other(p.mine), p.mine);
    TieGoesToA(s, p, floor);
  }

  function PlanSides(p: Plan, lockDepth: nat): Sides
    requires lockDepth <= p.top
  {
    var c, d := p.mine, Other(p.mine);
    Sides(At(p, c, p.top), At(p, d, p.top), At(p, c, p.top - lockDepth), At(p, c, p.fork),
          At(p, d, p.top - lockDepth), At(p, d, p.fork))
  }

  /** Each hears the whole of the other's branch and keeps its own tip. */
  ghost predicate EachStays(h: History, floor: nat, fork: nat, x: Sides)
    requires WellFormed(h.all) && Sided(h, floor, fork, x)
  {
    SubWellFormed(Pruned(h.all, floor), h.all);
    && x.a != x.b && TipAfter(h.all, x.b, x.a, x.lockA, x.settledA) == x.a
    && TipAfter(Pruned(h.all, floor), x.a, x.b, x.lockB, x.settledB) == x.b
  }

  lemma StaysSided(h: History, s: Store, floor: nat, fork: nat, x: Sides)
    requires WellFormed(h.all) && WellFormed(s) && s == Pruned(h.all, floor) && SplitsAt(h.all, x.a, x.b, fork)
    requires Stands(h.all, x.a, x.lockA, x.settledA, fork) && Stands(s, x.b, x.lockB, x.settledB, fork)
    requires x.a in s && floor <= h.all[x.settledB].height && x.a != x.b
    requires TipAfter(h.all, x.b, x.a, x.lockA, x.settledA) == x.a && TipAfter(s, x.a, x.b, x.lockB, x.settledB) == x.b
    ensures Sided(h, floor, fork, x) && EachStays(h, floor, fork, x)
  {
  }

  /** The unpruned node stays on P's branch and the pruned one on Q's. */
  lemma Divided(zero: bool, floor: nat, fork: nat, lockDepth: nat, settleDepth: nat) returns (h: History, x: Sides)
    requires floor <= fork && lockDepth < settleDepth && !KeepsWindow(zero, floor, fork)
    ensures var p := PlanFor(zero, floor, fork, settleDepth);
            h == History(Grow(p, 0), None, map[]) && x == PlanSides(p, lockDepth)
    ensures Possible(h, 1, zero) && Sided(h, floor, fork, x) && Deep(h, x, lockDepth, settleDepth)
    ensures EachStays(h, floor, fork, x)
  {
    var p := PlanFor(zero, floor, fork, settleDepth);
    h, x := History(Grow(p, 0), None, map[]), PlanSides(p, lockDepth);
    GrowCharts(p, 0);
    GrowCharts(p, floor);
    PlanHolds(h, p);
    GrowCut(p, floor);
    DividedOn(h, Grow(p, floor), zero, floor, fork, lockDepth, settleDepth, x);
  }

  lemma DividedOn(h: History, s: Store, zero: bool, floor: nat, fork: nat, lockDepth: nat, settleDepth: nat, x: Sides)
    requires floor <= fork && lockDepth < settleDepth && !KeepsWindow(zero, floor, fork)
    requires Charts(h.all, PlanFor(zero, floor, fork, settleDepth), 0)
    requires Charts(s, PlanFor(zero, floor, fork, settleDepth), floor) && s == Pruned(h.all, floor)
    requires x == PlanSides(PlanFor(zero, floor, fork, settleDepth), lockDepth)
    ensures Sided(h, floor, fork, x) && Deep(h, x, lockDepth, settleDepth) && EachStays(h, floor, fork, x)
  {
    var p := PlanFor(zero, floor, fork, settleDepth);
    PlanDeep(h.all, p, p.mine, lockDepth, settleDepth);
    PlanDeep(h.all, p, Other(p.mine), lockDepth, settleDepth);
    WholeStays(h.all, zero, floor, fork, lockDepth, settleDepth);
    CutStays(s, zero, floor, fork, lockDepth, settleDepth);
    StaysSided(h, s, floor, fork, x);
  }

  lemma PlanHolds(h: History, p: Plan)
    requires h == History(Grow(p, 0), None, map[]) && Charts(h.all, p, 0)
    ensures Possible(h, 1, p.zero)
  {
    GrowGrounded(p);
    PlanVerified(h, p);
    PlanZero(p);
  }

  lemma TipStays(s: Store, t: Id, x: Id, lock: Id, settled: Id, fork: nat)
    requires WellFormed(s) && SplitsAt(s, t, x, fork) && Stands(s, t, lock, settled, fork) && Winner(s, t, x) == t
    ensures TipAfter(s, x, t, lock, settled) == t
  {
    MarksPart(s, t, x, lock, settled, fork);
    FollowsWinner(s, x, t, lock, settled);
  }

  lemma WholeStays(s: Store, zero: bool, floor: nat, fork: nat, lockDepth: nat, settleDepth: nat)
    requires floor <= fork && !KeepsWindow(zero, floor, fork) && lockDepth < settleDepth
    requires Charts(s, PlanFor(zero, floor, fork, settleDepth), 0)
    ensures var x := PlanSides(PlanFor(zero, floor, fork, settleDepth), lockDepth);
            && SplitsAt(s, x.a, x.b, fork) && Stands(s, x.a, x.lockA, x.settledA, fork)
            && x.a != x.b && TipAfter(s, x.b, x.a, x.lockA, x.settledA) == x.a
  {
    var p := PlanFor(zero, floor, fork, settleDepth);
    var x := PlanSides(p, lockDepth);
    WholeKeepsP(s, zero, floor, fork, settleDepth);
    PlanStands(s, p, 0, p.mine, lockDepth, settleDepth);
    TipStays(s, x.a, x.b, x.lockA, x.settledA, fork);
  }

  lemma CutStays(s: Store, zero: bool, floor: nat, fork: nat, lockDepth: nat, settleDepth: nat)
    requires floor <= fork && !KeepsWindow(zero, floor, fork) && lockDepth < settleDepth
    requires Charts(s, PlanFor(zero, floor, fork, settleDepth), floor)
    ensures var x := PlanSides(PlanFor(zero, floor, fork, settleDepth), lockDepth);
            && x.a in s && Stands(s, x.b, x.lockB, x.settledB, fork)
                && TipAfter(s, x.a, x.b, x.lockB, x.settledB) == x.b
  {
    var p := PlanFor(zero, floor, fork, settleDepth);
    var x := PlanSides(p, lockDepth);
    CutKeepsQ(s, zero, floor, fork, settleDepth);
    PlanStands(s, p, floor, Other(p.mine), lockDepth, settleDepth);
    TipStays(s, x.b, x.a, x.lockB, x.settledB, fork);
  }

  lemma PlanDeep(s: Store, p: Plan, c: char, lockDepth: nat, settleDepth: nat)
    requires Charts(s, p, 0) && (c == 'a' || c == 'b') && p.top == p.fork + settleDepth && lockDepth < settleDepth
    ensures At(p, c, p.top) in s
    ensures Up(s, At(p, c, p.top), lockDepth).id == At(p, c, p.top - lockDepth)
    ensures Up(s, At(p, c, p.top), settleDepth).id == At(p, c, p.fork)
    ensures At(p, c, p.fork) in s && s[At(p, c, p.fork)].height == p.fork
  {
    UpIs(s, p, 0, c, p.top, lockDepth);
    UpIs(s, p, 0, c, p.top, settleDepth);
    assert Charted(s, p, 0, c, p.fork);
  }

  /** For one input, at the default depths of 2 and 6, over an installed block 0: "P" produced the next two
      anchors and "Q" the one after, above which the branches of the two part and grow to six anchors each. A
      node on Q's branch that pruned at its settled anchor, the fork, keeps its tip on hearing all of P's
      branch; an unpruned one on P's keeps its own. */
  lemma PrunedAtTheFork(p: Plan) returns (h: History, x: Sides)
    requires p == Plan(true, 3, 9, 3, 'a')
    ensures h == History(Grow(p, 0), None, map[]) && x == PlanSides(p, 2)
    ensures Possible(h, 1, true) && Sided(h, 3, 3, x) && Deep(h, x, 2, 6) && EachStays(h, 3, 3, x)
  {
    h, x := Divided(true, 3, 3, 2, 6);
  }
}
