/** A node that checkpoints and forgets, next to one that never does: what links the two at every
    step, and why they show the same board (maybeCheckpoint in src/daemon.ts). */
module NodeLaws {
  import opened Primitives
  import opened Ops
  import opened Board
  import opened BoardLaws
  import opened Anchors
  import opened Ordering
  import opened Store
  import opened Checkpoint
  import opened Writers
  import opened LedgerSpec
  import opened LedgerPrune
  import opened LedgerSeed

  // ---------- paths ----------

  /** What a pruned store answers for a path is the top of the full path. */
  lemma {:induction false} PathSuffix(s: Store, h: History, id: Id) returns (below: seq<Anchor>)
    requires Below(s, h) && id in s
    ensures PathTo(h.all, id) == below + PathTo(s, id)
    decreases s[id].height
  {
    if HasParent(s, s[id]) {
      below := PathSuffix(s, h, s[id].prev.value);
      assert below + PathTo(s, id) == (below + PathTo(s, s[id].prev.value)) + [s[id]];
    } else {
      var p := PathTo(h.all, id);
      below := p[..|p| - 1];
      assert p == below + [p[|p| - 1]];
    }
  }

  lemma {:induction false} PathThrough(s: Store, x: Id, y: Id) returns (c: nat)
    requires WellFormed(s) && y in s && IsAncestor(s, x, y)
    ensures x in s && c < |PathTo(s, y)| && PathTo(s, y)[c] == s[x] && PathTo(s, y)[..c + 1] == PathTo(s, x)
    decreases s[y].height
  {
    if x == y {
      c := |PathTo(s, y)| - 1;
      assert PathTo(s, y)[..c + 1] == PathTo(s, y);
    } else {
      c := PathThrough(s, x, s[y].prev.value);
      assert PathTo(s, y)[..c + 1] == PathTo(s, s[y].prev.value)[..c + 1];
    }
  }

  lemma PathIsRising(s: Store, id: Id)
    requires WellFormed(s) && id in s
    ensures Rising(PathTo(s, id))
  {
    var p := PathTo(s, id);
    forall i, j | 0 <= i < j < |p| ensures p[i].height < p[j].height {
      PathRises(s, id, i);
      PathRises(s, id, j);
    }
  }

  /** The path a pruned store answers reaches down to the floor. */
  lemma {:induction false} PathReachesFloor(s: Store, h: History, floor: nat, x: Id, y: Id)
    requires KeepsFrom(s, h, floor) && y in s && IsAncestor(h.all, x, y) && x in h.all && floor <= h.all[x].height
    ensures PathTo(s, y)[0].height <= h.all[x].height
    decreases s[y].height
  {
    if x != y {
      AncestorHeight(h.all, x, h.all[y].prev.value);
      PathReachesFloor(s, h, floor, x, h.all[y].prev.value);
    } else {
      PathRises(s, y, 0);
    }
  }

  lemma {:induction false} PathExtends(h: History, h': History, id: Id)
    requires Extends(h, h') && id in h.all
    ensures PathTo(h'.all, id) == PathTo(h.all, id)
    decreases h.all[id].height
  {
    if HasParent(h.all, h.all[id]) { PathExtends(h, h', h.all[id].prev.value); }
  }

  /** Certified heads never shrink on the way up. */
  lemma {:induction false} HeadsRise(chain: seq<Anchor>, c: nat)
    requires NeverRegresses(chain) && c <= |chain|
    ensures forall wr :: wr in HeadsAlong(chain[..c]) ==>
              wr in HeadsAlong(chain) && HeadsAlong(chain[..c])[wr].seqNo <= HeadsAlong(chain)[wr].seqNo
    decreases |chain|
  {
    if c < |chain| {
      var k := |chain| - 1;
      HeadsPrefix(chain, k);
      assert chain[..k][..c] == chain[..c];
      HeadsRise(chain[..k], c);
      assert chain[..k] == chain[..k];
    } else {
      assert chain[..c] == chain;
    }
  }

  lemma FullHeads(h: History, id: Id)
    requires Grounded(h) && h.baseId.None? && id in h.all
    ensures HeadsOf(h, id) == HeadsAlong(PathTo(h.all, id))
  {
    assert RootKnown(h.all, h);
    HeadsFromPath(h.all, h, None, map[], id);
  }

  // ---------- the writes a pruned ledger still holds ----------

  ghost predicate Unpruned(st: LedgerState) {
    forall wr :: wr in st.chains ==> st.chains[wr].baseSeq == 0
  }

  lemma HeldWrite(st: LedgerState, w: Write)
    requires AllLinear(st)
    ensures w in WritesIn(st) <==> w.writer in st.chains && At(st.chains[w.writer], w.seqNo) == Some(w)
  {
    if w in WritesIn(st) {
      var wr :| wr in st.chains && w in st.chains[wr].writes;
      LinearWrite(st.chains[wr], w);
    }
    if w.writer in st.chains && At(st.chains[w.writer], w.seqNo) == Some(w) {
      assert w in st.chains[w.writer].writes;
    }
  }

  lemma HeldOneSlot(st: LedgerState)
    requires AllLinear(st)
    ensures OneSlotEach(WritesIn(st))
  {
    forall x, y | x in WritesIn(st) && y in WritesIn(st) && SameSlot(x, y)
      ensures x == y
    {
      HeldWrite(st, x);
      HeldWrite(st, y);
    }
  }

  lemma TrimmedLinear(full: Link, cut: Link)
    requires Linear(full) && Trimmed(full, cut)
    ensures Linear(cut)
  {
    forall i | 0 <= i < |cut.writes| ensures FitsAt(cut, i) {
      assert FitsAt(full, i + (cut.baseSeq - full.baseSeq));
    }
  }

  /** The node's ledger is the full one, cut right above `low`. */
  ghost predicate CutAt(full: LedgerState, node: LedgerState, low: Heads) {
    && AllLinear(full) && AllFiled(full) && Unpruned(full) && SameAbove(full, node)
    && forall wr :: wr in node.chains ==> node.chains[wr].baseSeq == if wr in low then low[wr].seqNo + 1 else 0
  }

  lemma CutLinear(full: LedgerState, node: LedgerState)
    requires AllLinear(full) && SameAbove(full, node)
    ensures AllLinear(node)
  {
    forall wr | wr in node.chains ensures Linear(node.chains[wr]) { TrimmedLinear(full.chains[wr], node.chains[wr]); }
  }

  lemma CutWrites(full: LedgerState, node: LedgerState, low: Heads)
    requires CutAt(full, node, low)
    ensures WritesIn(node) == Above(WritesIn(full), low)
  {
    CutLinear(full, node);
    forall w: Write ensures w in WritesIn(node) <==> w in Above(WritesIn(full), low) {
      HeldWrite(full, w);
      HeldWrite(node, w);
      if w.writer in full.chains { TrimmedTip(full.chains[w.writer], node.chains[w.writer]); }
    }
  }

  // ---------- the invariant ----------

  ghost predicate Covered(st: LedgerState, low: Heads) {
    forall wr :: wr in low ==> wr in st.chains && low[wr].seqNo < NextSeq(st.chains[wr])
  }

  ghost function LowHeads(h: History, ckpt: Option<Id>): Heads
    requires WellFormed(h.all) && (ckpt.Some? ==> ckpt.value in h.all)
  {
    if ckpt.Some? then HeadsOf(h, ckpt.value) else map[]
  }

  /** The board a node that never forgot shows for an anchor. */
  ghost function FullBoard(h: History, full: LedgerState, id: Id): View
    requires WellFormed(h.all) && id in h.all && AllLinear(full)
  {
    HeldOneSlot(full);
    ViewAt(WritesIn(full), PathTo(h.all, id), HeadsOf(h, id), EMPTY_VIEW)
  }

  /** `node` and `base` are what is left of `full` after checkpointing at `ckpt`. */
  ghost predicate Behind(h: History, ckpt: Option<Id>, full: LedgerState, node: LedgerState, base: View) {
    && Grounded(h) && h.baseId.None? && (ckpt.Some? ==> ckpt.value in h.all)
    && CutAt(full, node, LowHeads(h, ckpt)) && Covered(full, LowHeads(h, ckpt))
    && base == if ckpt.Some? then FullBoard(h, full, ckpt.value) else EMPTY_VIEW
  }

  /** The anchors held reach down to the checkpoint. */
  ghost predicate HoldsDownTo(s: Store, h: History, floorId: Option<Id>, ckpt: Option<Id>) {
    && HeadsKnown(s, h, floorId)
    && (floorId.Some? ==> ckpt.Some? && ckpt.value in h.all && IsAncestor(h.all, floorId.value, ckpt.value))
  }

  /** The two paths, and where the checkpoint and the pruned path's bottom sit on the full one. */
  lemma PathsMeet(h: History, s: Store, floorId: Option<Id>, ckpt: Id, x: Id) returns (c: nat, f: nat)
    requires Grounded(h) && HoldsDownTo(s, h, floorId, Some(ckpt)) && x in s && ckpt in h.all
               && IsAncestor(h.all, ckpt, x)
    ensures var chain := PathTo(h.all, x);
            f <= c < |chain| && PathTo(s, x) == chain[f..] && chain[..c + 1] == PathTo(h.all, ckpt)
  {
    c := PathThrough(h.all, ckpt, x);
    var below := PathSuffix(s, h, x);
    f := |below|;
    var chain := PathTo(h.all, x);
    assert chain[f..] == PathTo(s, x) && chain[f] == PathTo(s, x)[0];
    PathRises(h.all, x, c);
    PathRises(h.all, x, f);
    if floorId.Some? {
      AncestorTransitive(h.all, floorId.value, ckpt, x);
      AncestorHeight(h.all, floorId.value, ckpt);
      PathReachesFloor(s, h, s[floorId.value].height, ckpt, x);
    } else {
      HeldToRoot(s, h, x);
      PathRises(h.all, x, 0);
    }
  }

  lemma {:induction false} HeldToRoot(s: Store, h: History, x: Id)
    requires HeadsKnown(s, h, None) && x in s
    ensures PathTo(s, x)[0].height == 0 && PathTo(s, x) == PathTo(h.all, x)
    decreases s[x].height
  {
    assert Joined(s, x);
    if HasParent(s, s[x]) { HeldToRoot(s, h, s[x].prev.value); }
  }

  /** What a node folds from its base, over the anchors and writes it still holds, is the board of the
      node that never forgot anything. */
  lemma SameBoard(h: History, ckpt: Option<Id>, full: LedgerState, node: LedgerState, base: View,
                  s: Store, floorId: Option<Id>, x: Id)
    requires Behind(h, ckpt, full, node, base) && HoldsDownTo(s, h, floorId, ckpt) && x in s
    requires ckpt.Some? ==> IsAncestor(h.all, ckpt.value, x)
    requires NeverRegresses(PathTo(h.all, x))
    ensures AllLinear(node) && OneSlotEach(WritesIn(node))
    ensures ViewAt(WritesIn(node), PathTo(s, x), HeadsOf(h, x), base) == FullBoard(h, full, x)
  {
    var low := LowHeads(h, ckpt);
    CutLinear(full, node);
    HeldOneSlot(full);
    HeldOneSlot(node);
    CutWrites(full, node, low);
    FullHeads(h, x);
    if ckpt.Some? {
      var c, f := PathsMeet(h, s, floorId, ckpt.value, x);
      FullHeads(h, ckpt.value);
      PathIsRising(h.all, x);
      CheckpointInvisible(WritesIn(full), PathTo(h.all, x), c, f);
    } else {
      HeldToRoot(s, h, x);
      assert WritesIn(node) == WritesIn(full);
    }
  }

  // ---------- every step keeps it ----------

  lemma Fresh(h: History)
    requires Grounded(h) && h.baseId.None?
    ensures Behind(h, None, EMPTY, EMPTY, EMPTY_VIEW)
  {
  }

  // ---------- starting from a snapshot ----------

  /** A ledger that never forgot and holds what the checkpoint certifies and nothing else. */
  ghost predicate JustCertified(full: LedgerState, heads: Heads) {
    && AllLinear(full) && AllFiled(full) && Unpruned(full) && full.tick == 0
    && full.chains.Keys == full.pending.Keys == heads.Keys
    && forall wr :: wr in heads ==>
         && full.pending[wr] == map[] && NextSeq(full.chains[wr]) == heads[wr].seqNo + 1
         && HeadId(full.chains[wr]) == Some(heads[wr].id)
  }

  /** A fresh node that seeds its ledger with a snapshot's heads and its board with the snapshot's is where a full
      node would be that checkpointed there. */
  lemma SnapshotBehind(h: History, c: Id, full: LedgerState, heads: Heads)
    requires Grounded(h) && h.baseId.None? && c in h.all && heads == HeadsOf(h, c) && JustCertified(full, heads)
    ensures Behind(h, Some(c), full, Seed(EMPTY, heads), FullBoard(h, full, c))
  {
    SeedCuts(full, heads);
  }

  lemma SeedCuts(full: LedgerState, heads: Heads)
    requires JustCertified(full, heads)
    ensures CutAt(full, Seed(EMPTY, heads), heads) && Covered(full, heads)
  {
    var node := Seed(EMPTY, heads);
    assert node.chains == SeedLinks(heads) && node.pending == SeedBuffers(heads) && full.pending == node.pending;
    forall wr | wr in full.chains ensures Trimmed(full.chains[wr], node.chains[wr]) {
      SeedTrims(full.chains[wr], heads[wr]);
    }
  }

  lemma SeedTrims(l: Link, h: Head)
    requires l.baseSeq == 0 && NextSeq(l) == h.seqNo + 1 && HeadId(l) == Some(h.id)
    ensures Trimmed(l, Link(l.writer, None, h.seqNo + 1, Some(h.id), []))
  {
  }

  /** The board in the snapshot is the one every full node shows for that anchor, whatever more it holds. */
  lemma SnapshotShown(h: History, c: Id, full: LedgerState, later: LedgerState)
    requires Grounded(h) && h.baseId.None? && c in h.all && AllLinear(full) && AllLinear(later)
    requires KeepsLow(full, later, HeadsOf(h, c))
    ensures FullBoard(h, later, c) == FullBoard(h, full, c)
  {
    LowBoardSame(full, later, PathTo(h.all, c), HeadsOf(h, c));
  }

  /** With ancestry held below its floor, a node reconstructs heads that lack the writers who were quiet since
      (Store.AdoptedHeads). It shows the board all the same, and prunes the same. */
  lemma QuietWritersDoNotShow(full: LedgerState, node: LedgerState, low: Heads, heads: Heads, short: Heads,
                              chain: seq<Anchor>, base: View)
    requires CutAt(full, node, low) && |chain| > 0 && short.Keys <= heads.Keys && Covered(full, low)
    requires forall wr :: wr in short ==> short[wr] == heads[wr]
    requires forall wr :: wr in heads && wr !in short ==> wr in low && heads[wr].seqNo <= low[wr].seqNo
    ensures AllLinear(node) && OneSlotEach(WritesIn(node))
    ensures ViewAt(WritesIn(node), chain, short, base) == ViewAt(WritesIn(node), chain, heads, base)
    ensures Prune(node, short) == Prune(node, heads)
  {
    CutLinear(full, node);
    HeldOneSlot(node);
    CutWrites(full, node, low);
    assert StampedSet(WritesIn(node), chain, short) == StampedSet(WritesIn(node), chain, heads);
    assert Prune(node, short).chains == Prune(node, heads).chains;
  }

  lemma {:induction false} DrainExtends(l: Link, p: Pending, applied: seq<Write>)
    ensures l.writes <= Drain(l, p, applied).link.writes
    decreases |p|
  {
    var s := NextSeq(l);
    if s in p && AppendResult(l, p[s].w) == Linked {
      DrainExtends(Grow(l, p[s].w), Without(p, s), applied + [p[s].w]);
    }
  }

  lemma ApplyExtends(st: LedgerState, w: Write)
    ensures ChainFor(st.chains, w).writes <= DeskAfter(st, w).link.writes
  {
    if AppendResult(ChainFor(st.chains, w), w) == Linked {
      DrainExtends(Grow(ChainFor(st.chains, w), w), Decayed(PendingFor(st.pending, w.writer), st.tick + 1), [w]);
    }
  }

  /** A certified slot that is held keeps its write for good. */
  ghost predicate KeepsLow(st: LedgerState, later: LedgerState, low: Heads) {
    forall wr, s :: wr in low && 0 <= s <= low[wr].seqNo ==>
      wr in st.chains && wr in later.chains && At(later.chains[wr], s) == At(st.chains[wr], s)
  }

  lemma ApplyKeepsLow(st: LedgerState, w: Write, low: Heads)
    requires AllLinear(st) && AllFiled(st) && Unpruned(st) && Covered(st, low)
    ensures KeepsLow(st, Apply(st, w), low)
  {
    ApplyKeepsShape(st, w);
    ApplyExtends(st, w);
  }

  /** The board at the checkpoint does not change as more writes come in. */
  lemma LowBoardSame(st: LedgerState, later: LedgerState, chain: seq<Anchor>, low: Heads)
    requires AllLinear(st) && AllLinear(later) && KeepsLow(st, later, low) && |chain| > 0
    ensures OneSlotEach(WritesIn(st)) && OneSlotEach(WritesIn(later))
    ensures ViewAt(WritesIn(later), chain, low, EMPTY_VIEW) == ViewAt(WritesIn(st), chain, low, EMPTY_VIEW)
  {
    HeldOneSlot(st);
    HeldOneSlot(later);
    forall w: Write | Included(low, w) ensures w in WritesIn(later) <==> w in WritesIn(st) {
      HeldWrite(st, w);
      HeldWrite(later, w);
    }
    assert StampedSet(WritesIn(later), chain, low) == StampedSet(WritesIn(st), chain, low);
  }

  lemma CutAfterApply(full: LedgerState, node: LedgerState, low: Heads, w: Write)
    requires CutAt(full, node, low) && Covered(full, low) && !AdoptsNext(full, node, w)
    ensures CutAt(Apply(full, w), Apply(node, w), low)
  {
    ApplyAlikeIff(full, node, w);
    ApplyKeepsShape(full, w);
    FiledToo(full, node);
    CutLinear(full, node);
    ApplyKeepsShape(node, w);
  }

  lemma FiledToo(full: LedgerState, node: LedgerState)
    requires SameAbove(full, node) && AllFiled(full)
    ensures AllFiled(node)
  {
  }

  lemma CoveredAfterApply(st: LedgerState, w: Write, low: Heads)
    requires AllLinear(st) && AllFiled(st) && Covered(st, low)
    ensures Covered(Apply(st, w), low)
  {
    ApplyKeepsShape(st, w);
    ApplyExtends(st, w);
  }

  /** A write reaching both ledgers, whatever it is, keeps them linked, unless it makes the pruned one
      adopt a second plot. */
  lemma WriteKeeps(h: History, ckpt: Option<Id>, full: LedgerState, node: LedgerState, base: View, w: Write)
    requires Behind(h, ckpt, full, node, base) && !AdoptsNext(full, node, w)
    ensures Behind(h, ckpt, Apply(full, w), Apply(node, w), base)
  {
    var low := LowHeads(h, ckpt);
    CutAfterApply(full, node, low, w);
    CoveredAfterApply(full, w, low);
    if ckpt.Some? {
      ApplyKeepsLow(full, w, low);
      LowBoardSame(full, Apply(full, w), PathTo(h.all, ckpt.value), low);
    }
  }

  /** A new anchor keeps them linked. */
  lemma AnchorKeeps(h: History, h': History, ckpt: Option<Id>, full: LedgerState, node: LedgerState, base: View)
    requires Behind(h, ckpt, full, node, base) && Extends(h, h')
    ensures Behind(h', ckpt, full, node, base)
  {
    if ckpt.Some? {
      PathExtends(h, h', ckpt.value);
      ExtendKeeps(h, h', ckpt.value, ckpt.value);
    }
  }

  /** idAt: the id at `s`, the base head's included. */
  function IdHeld(l: Link, s: nat): Option<Id> {
    if s + 1 == l.baseSeq then l.baseHead
    else if At(l, s).None? then None
    else Some(At(l, s).value.id)
  }

  /** The ledger holds every writer's chain up to `heads`. */
  ghost predicate HasAll(st: LedgerState, heads: Heads) {
    forall wr :: wr in heads ==> wr in st.chains && IdHeld(st.chains[wr], heads[wr].seqNo) == Some(heads[wr].id)
  }

  lemma TrimmedTwice(full: Link, cut: Link, cut': Link)
    requires Trimmed(full, cut) && Trimmed(cut, cut')
    ensures Trimmed(full, cut')
  {
  }

  lemma CutOne(full: Link, node: Link, h: Head)
    requires Linear(node) && Trimmed(full, node) && IdHeld(node, h.seqNo) == Some(h.id)
    ensures Trimmed(full, PruneLink(node, h)) && PruneLink(node, h).baseSeq == h.seqNo + 1 && h.seqNo < NextSeq(full)
  {
    TrimmedTip(full, node);
    PruneLinkTrims(node, h);
    TrimmedTwice(full, node, PruneLink(node, h));
  }

  lemma SameAgain(full: LedgerState, node: LedgerState, heads: Heads)
    requires SameAbove(full, node) && AllLinear(node) && HasAll(node, heads)
    ensures SameAbove(full, Prune(node, heads)) && Covered(full, heads)
    ensures forall wr :: wr in node.chains ==>
              Prune(node, heads).chains[wr].baseSeq == if wr in heads then heads[wr].seqNo + 1
                  else node.chains[wr].baseSeq
  {
    forall wr | wr in node.chains && wr in heads
      ensures Trimmed(full.chains[wr], PruneLink(node.chains[wr], heads[wr]))
      ensures PruneLink(node.chains[wr], heads[wr]).baseSeq == heads[wr].seqNo + 1
                && heads[wr].seqNo < NextSeq(full.chains[wr])
    {
      CutOne(full.chains[wr], node.chains[wr], heads[wr]);
    }
  }

  /** Pruning a node's ledger again, at heads it holds. */
  lemma CutAgain(full: LedgerState, node: LedgerState, low: Heads, heads: Heads)
    requires CutAt(full, node, low) && HasAll(node, heads)
    requires forall wr :: wr in low ==> wr in heads && low[wr].seqNo <= heads[wr].seqNo
    ensures CutAt(full, Prune(node, heads), heads) && Covered(full, heads)
  {
    CutLinear(full, node);
    SameAgain(full, node, heads);
  }

  /** A further checkpoint: the board it is based on is the full node's, and pruning behind it leaves
      the node linked to that checkpoint. */
  lemma CheckpointKeeps(h: History, ckpt: Option<Id>, full: LedgerState, node: LedgerState, base: View,
                        s: Store, floorId: Option<Id>, next: Id)
    requires Behind(h, ckpt, full, node, base) && HoldsDownTo(s, h, floorId, ckpt) && next in s
    requires ckpt.Some? ==> IsAncestor(h.all, ckpt.value, next)
    requires NeverRegresses(PathTo(h.all, next)) && HasAll(node, HeadsOf(h, next))
    ensures AllLinear(node) && OneSlotEach(WritesIn(node))
    ensures ViewAt(WritesIn(node), PathTo(s, next), HeadsOf(h, next), base) == FullBoard(h, full, next)
    ensures Behind(h, Some(next), full, Prune(node, HeadsOf(h, next)), FullBoard(h, full, next))
  {
    SameBoard(h, ckpt, full, node, base, s, floorId, next);
    LowRises(h, ckpt, next);
    CutAgain(full, node, LowHeads(h, ckpt), HeadsOf(h, next));
  }

  lemma LowRises(h: History, ckpt: Option<Id>, next: Id)
    requires Grounded(h) && h.baseId.None? && next in h.all
    requires ckpt.Some? ==> ckpt.value in h.all && IsAncestor(h.all, ckpt.value, next)
    requires NeverRegresses(PathTo(h.all, next))
    ensures forall wr :: wr in LowHeads(h, ckpt) ==>
              wr in HeadsOf(h, next) && LowHeads(h, ckpt)[wr].seqNo <= HeadsOf(h, next)[wr].seqNo
  {
    FullHeads(h, next);
    if ckpt.Some? {
      FullHeads(h, ckpt.value);
      var c := PathThrough(h.all, ckpt.value, next);
      HeadsRise(PathTo(h.all, next), c + 1);
    }
  }
}
