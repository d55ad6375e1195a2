/** A checkpoint never changes the board: folding only what lies above it, over a pruned chain, from
    the checkpoint's own board, gives every later anchor the board of the full history
    (viewAtAnchor in src/market/fold.ts, maybeCheckpoint in src/daemon.ts). */
module Checkpoint {
  import opened Primitives
  import opened Ops
  import opened Board
  import opened BoardLaws
  import opened Anchors
  import opened Ordering
  import opened Store

  /** Full heads after a run of deltas. */
  ghost function HeadsAlong(chain: seq<Anchor>): Heads {
    Overlay(map[], chain)
  }

  /** No anchor moves a writer's head back. The chain's verifier does not check this; diffHeads
      takes it for granted. */
  ghost predicate NeverRegresses(chain: seq<Anchor>) {
    forall i, wr :: 0 <= i < |chain| && wr in chain[i].headsDelta && wr in HeadsAlong(chain[..i]) ==>
      HeadsAlong(chain[..i])[wr].seqNo <= chain[i].headsDelta[wr].seqNo
  }

  ghost predicate Rising(chain: seq<Anchor>) {
    forall i, j :: 0 <= i < j < |chain| ==> chain[i].height < chain[j].height
  }

  /** With heads that never regress, a write is within the full heads exactly when some delta
      reached it. */
  lemma {:induction false} IncludedIsCertified(chain: seq<Anchor>, w: Write)
    requires NeverRegresses(chain)
    ensures Included(HeadsAlong(chain), w) <==> CertifiedAt(chain, w).Some?
    decreases |chain|
  {
    if |chain| > 0 {
      var k := |chain| - 1;
      var before := chain[..k];
      forall i | 0 <= i < k ensures before[i] == chain[i] && before[..i] == chain[..i] {}
      IncludedIsCertified(before, w);
      assert chain == before + [chain[k]];
      CertifiedConcat(before, [chain[k]], w);
      assert CertifiedAt([chain[k]], w).Some? <==> Reaches(chain[k], w);
    }
  }

  lemma CertifiedHeight(chain: seq<Anchor>, w: Write)
    requires Rising(chain) && CertifiedAt(chain, w).Some?
    ensures chain[0].height <= CertifiedAt(chain, w).value <= chain[|chain| - 1].height
  {
    CertifiedWithin(chain, w);
  }

  /** Writes a node still holds once its ledger is pruned below `heads`. */
  ghost function Above(ws: set<Write>, heads: Heads): set<Write> {
    set w | w in ws && !Included(heads, w)
  }

  lemma AllCertified(ws: set<Write>, chain: seq<Anchor>)
    requires NeverRegresses(chain)
    ensures forall s :: s in StampedSet(ws, chain, HeadsAlong(chain)) ==>
              s.epoch.Some? && s.w in ws && s.epoch == CertifiedAt(chain, s.w)
  {
    forall s | s in StampedSet(ws, chain, HeadsAlong(chain)) { IncludedIsCertified(chain, s.w); }
  }

  lemma {:induction false} HeadsPrefix(chain: seq<Anchor>, c: nat)
    requires c <= |chain| && NeverRegresses(chain)
    ensures NeverRegresses(chain[..c])
  {
    forall i | 0 <= i < c ensures chain[..c][..i] == chain[..i] {}
  }

  /** What the checkpoint certified keeps its epoch on the longer chain; what it did not gets the
      same epoch from the full chain and from any suffix that reaches down to the checkpoint. */
  lemma EpochsSplit(chain: seq<Anchor>, c: nat, f: nat, w: Write)
    requires f <= c < |chain| && NeverRegresses(chain)
    ensures Included(HeadsAlong(chain[..c + 1]), w) ==>
              CertifiedAt(chain, w) == CertifiedAt(chain[..c + 1], w) && CertifiedAt(chain, w).Some?
    ensures !Included(HeadsAlong(chain[..c + 1]), w) ==>
              && CertifiedAt(chain, w) == CertifiedAt(chain[c + 1..], w)
              && CertifiedAt(chain[f..], w) == CertifiedAt(chain, w)
  {
    HeadsPrefix(chain, c + 1);
    IncludedIsCertified(chain[..c + 1], w);
    CertifiedCut(chain, c + 1, w);
    CertifiedCut(chain, f, w);
    CertifiedBetween(chain, f, c + 1, w);
  }

  lemma CertifiedCut(chain: seq<Anchor>, n: nat, w: Write)
    requires n <= |chain|
    ensures CertifiedAt(chain, w) ==
            if CertifiedAt(chain[..n], w).Some? then CertifiedAt(chain[..n], w) else CertifiedAt(chain[n..], w)
  {
    assert chain == chain[..n] + chain[n..];
    CertifiedConcat(chain[..n], chain[n..], w);
  }

  lemma CertifiedBetween(chain: seq<Anchor>, f: nat, n: nat, w: Write)
    requires f <= n <= |chain|
    ensures CertifiedAt(chain[..n], w).None? ==> CertifiedAt(chain[..f], w).None?
  {
    assert chain[..n] == chain[..f] + chain[f..n];
    CertifiedConcat(chain[..f], chain[f..n], w);
  }

  /** Two ordered runs, the first certified no later than `c` and the second after it, are together
      the order of their union, for any later `now`. */
  lemma OrdersJoin(low: set<Stamped>, high: set<Stamped>, p: seq<Stamped>, q: seq<Stamped>, c: nat, now: nat)
    requires c <= now && Orders(c, low, p) && Orders(now, high, q)
    requires forall s :: s in low ==> s.epoch.Some? && s.epoch.value <= c
    requires forall s :: s in high ==> s.epoch.Some? && c < s.epoch.value <= now
    ensures Orders(now, low + high, p + q)
  {
    forall i, j | 0 <= i < j < |p + q|
      ensures Before(now, (p + q)[i], (p + q)[j])
    {
      var x, y := (p + q)[i], (p + q)[j];
      if j < |p| {
        assert x in Elements(p) && y in Elements(p);
        assert Before(c, x, y);
      } else if i < |p| {
        assert x in Elements(p) && y in Elements(q);
      } else {
        assert Before(now, q[i - |p|], q[j - |p|]);
      }
    }
    assert Elements(p + q) == Elements(p) + Elements(q);
  }

  lemma CertifyJoins(p: seq<Stamped>, q: seq<Stamped>, c: nat, now: nat)
    requires c <= now
    requires forall s :: s in p ==> s.epoch.Some? && s.epoch.value <= c
    ensures Certify(now, p + q) == Certify(c, p) + Certify(now, q)
  {
    forall i | 0 <= i < |p| + |q|
      ensures Certify(now, p + q)[i] == (Certify(c, p) + Certify(now, q))[i]
    {
      if i < |p| { assert p[i] in p; }
    }
  }

  /** What the pruned node folds: the same stamps as the full node's writes above the checkpoint. */
  ghost function HighStamps(ws: set<Write>, chain: seq<Anchor>, c: nat): set<Stamped>
    requires c < |chain|
  {
    set w | w in ws && Included(HeadsAlong(chain), w) && !Included(HeadsAlong(chain[..c + 1]), w) ::
      Stamped(w, CertifiedAt(chain, w))
  }

  lemma StampsSplit(ws: set<Write>, chain: seq<Anchor>, c: nat, f: nat)
    requires f <= c < |chain| && NeverRegresses(chain)
    ensures StampedSet(ws, chain, HeadsAlong(chain)) ==
            StampedSet(ws, chain[..c + 1], HeadsAlong(chain[..c + 1])) + HighStamps(ws, chain, c)
    ensures StampedSet(Above(ws, HeadsAlong(chain[..c + 1])), chain[f..], HeadsAlong(chain)) == HighStamps(ws, chain, c)
  {
    var low := HeadsAlong(chain[..c + 1]);
    forall w: Write
      ensures Included(low, w) ==>
                Included(HeadsAlong(chain), w) && CertifiedAt(chain, w) == CertifiedAt(chain[..c + 1], w)
      ensures !Included(low, w) ==> CertifiedAt(chain[f..], w) == CertifiedAt(chain, w)
    {
      EpochsSplit(chain, c, f, w);
      IncludedIsCertified(chain, w);
    }
  }

  lemma StampHeights(ws: set<Write>, chain: seq<Anchor>, c: nat)
    requires c < |chain| && NeverRegresses(chain) && Rising(chain)
    ensures forall s :: s in StampedSet(ws, chain[..c + 1], HeadsAlong(chain[..c + 1])) ==>
              s.epoch.Some? && s.epoch.value <= chain[c].height
    ensures forall s :: s in HighStamps(ws, chain, c) ==>
              s.epoch.Some? && chain[c].height < s.epoch.value <= chain[|chain| - 1].height
  {
    HeadsPrefix(chain, c + 1);
    forall s | s in StampedSet(ws, chain[..c + 1], HeadsAlong(chain[..c + 1]))
      ensures s.epoch.Some? && s.epoch.value <= chain[c].height
    {
      AllCertified(ws, chain[..c + 1]);
      CertifiedHeight(chain[..c + 1], s.w);
    }
    forall s | s in HighStamps(ws, chain, c)
      ensures s.epoch.Some? && chain[c].height < s.epoch.value <= chain[|chain| - 1].height
    {
      IncludedIsCertified(chain, s.w);
      EpochsSplit(chain, c, c, s.w);
      CertifiedHeight(chain[c + 1..], s.w);
    }
  }

  /** The full fold, cut at the checkpoint: what it certified, then the rest. */
  lemma FullFoldCut(ws: set<Write>, chain: seq<Anchor>, c: nat) returns (p: seq<Certified>, q: seq<Certified>)
    requires c < |chain| && NeverRegresses(chain) && Rising(chain) && OneSlotEach(ws)
    ensures var at := chain[c].height;
            var now := chain[|chain| - 1].height;
            && p == Certify(at, Ordered(at, StampedSet(ws, chain[..c + 1], HeadsAlong(chain[..c + 1]))))
            && q == Certify(now, Ordered(now, HighStamps(ws, chain, c)))
            && p + q == Certify(now, Ordered(now, StampedSet(ws, chain, HeadsAlong(chain))))
            && at <= now && forall i :: 0 <= i < |q| ==> at <= q[i].h
  {
    var now, at := chain[|chain| - 1].height, chain[c].height;
    assert at <= now;
    var low, high := StampedSet(ws, chain[..c + 1], HeadsAlong(chain[..c + 1])), HighStamps(ws, chain, c);
    StampsSplit(ws, chain, c, c);
    StampHeights(ws, chain, c);
    var lo, hi := Ordered(at, low), Ordered(now, high);
    OrdersJoin(low, high, lo, hi, at, now);
    OrderUnique(now, low + high, lo + hi, Ordered(now, low + high));
    forall s | s in lo ensures s.epoch.Some? && s.epoch.value <= at { assert s in Elements(lo); }
    CertifyJoins(lo, hi, at, now);
    p, q := Certify(at, lo), Certify(now, hi);
    forall i | 0 <= i < |q| ensures at <= q[i].h { assert hi[i] in Elements(hi); }
  }

  /** The checkpoint theorem. `chain` runs from the root to any anchor at or above the checkpoint at
      position `c`; the pruned node holds the writes above the checkpoint's heads and the anchors
      from position `f` up, and folds from the checkpoint's board. */
  lemma CheckpointInvisible(ws: set<Write>, chain: seq<Anchor>, c: nat, f: nat)
    requires f <= c < |chain| && NeverRegresses(chain) && Rising(chain) && OneSlotEach(ws)
    ensures var low := HeadsAlong(chain[..c + 1]);
            var base := ViewAt(ws, chain[..c + 1], low, EMPTY_VIEW);
            ViewAt(Above(ws, low), chain[f..], HeadsAlong(chain), base) ==
            ViewAt(ws, chain, HeadsAlong(chain), EMPTY_VIEW)
  {
    var p, q := FullFoldCut(ws, chain, c);
    StampsSplit(ws, chain, c, f);
    FoldSplits(EMPTY_VIEW, p, q, chain[c].height, chain[|chain| - 1].height);
  }
}
