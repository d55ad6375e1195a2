/** The node that checkpoints: ledger, anchors and fold base pruned together (src/daemon.ts). */
module Daemons {
  import opened Primitives
  import opened Ops
  import opened Board
  import opened BoardLaws
  import opened Anchors
  import opened Ordering
  import opened Store
  import opened ForkChoice
  import opened Checkpoint
  import opened Writers
  import opened LedgerSpec
  import opened LedgerPrune
  import opened LedgerSeed
  import opened Ledgers
  import opened AnchorChains
  import opened NodeLaws

  /** A write's id is a hash of it. */
  ghost predicate IdsFixContent(ws: set<Write>) {
    forall x, y {:trigger SameId(x, y)} :: x in ws && y in ws && SameId(x, y) ==> x == y
  }

  predicate SameId(x: Write, y: Write) {
    x.id == y.id
  }

  lemma IdsTellApart(ws: seq<Write>)
    requires IdsFixContent(Elements(ws))
    ensures IdsDistinct(ws)
  {
    forall i, j | 0 <= i < |ws| && 0 <= j < |ws| && ws[i].id == ws[j].id ensures ws[i] == ws[j] {
      assert SameId(ws[i], ws[j]) && ws[i] in Elements(ws) && ws[j] in Elements(ws);
    }
  }

  class Daemon {
    const ledger: Ledger
    const anchors: AnchorChain
    const every: pos
    const margin: nat
    var checkpointBase: Option<View>
    var lastCheckpointHeight: int

    /** The ledger of a node that was sent the same and never forgot. */
    ghost var full: LedgerState

    /** The ledger's own state. */
    ghost var node: LedgerState

    /** The anchor last checkpointed at. */
    ghost var ckpt: Option<Id>

    /** The anchor whose snapshot it started from, if it did. */
    ghost const born: Option<Id>

    function Base(): View
      reads this`checkpointBase
    {
      if checkpointBase.Some? then checkpointBase.value else EMPTY_VIEW
    }

    ghost predicate Stored()
      reads this`node, ledger, ledger.repr
    {
      ledger.Valid() && ledger.State() == node
    }

    /** What this node holds is what the other one holds, cut at the checkpoint. */
    ghost predicate Linked()
      reads this`checkpointBase, this`full, this`node, this`ckpt, anchors`hist
    {
      Behind(anchors.hist, ckpt, full, node, Base())
    }

    ghost predicate Reaching()
      reads this`ckpt, this`lastCheckpointHeight, anchors
    {
      StandsOver(anchors.anchors, anchors.hist, anchors.floorId, anchors.settledId, ckpt, born, margin,
                 lastCheckpointHeight)
    }

    /** What a write does not touch. */
    ghost predicate Anchored()
      reads this`ckpt, this`lastCheckpointHeight, anchors
    {
      anchors.Valid() && anchors.exact && Reaching()
    }

    ghost predicate Valid()
      reads this, ledger, ledger.repr, anchors
    {
      Stored() && Linked() && Anchored()
    }

    constructor (ledger: Ledger, anchors: AnchorChain, every: pos, margin: nat)
      requires ledger.Valid() && ledger.State() == EMPTY && anchors.Valid() && anchors.exact
      requires anchors.hist.baseId.None? && anchors.floorId.None?
      ensures Valid() && this.ledger == ledger && this.anchors == anchors && full == EMPTY && ckpt.None? && born.None?
    {
      this.ledger, this.anchors, this.every, this.margin := ledger, anchors, every, margin;
      checkpointBase, lastCheckpointHeight := None, -1;
      full, node, ckpt, born := EMPTY, EMPTY, None, None;
    }

    /** adoptFloor and ingestSnapshot: the anchor chain starts from the snapshot's anchor, without ancestry, the
        ledger from its heads and the board from its board. */
    constructor FromSnapshot(ledger: Ledger, anchors: AnchorChain, every: pos, margin: nat, c: Anchor, view: View,
                             ghost full: LedgerState, ghost seeded: LedgerState)
      ensures this.ledger == ledger && this.anchors == anchors && this.every == every && this.margin == margin
      ensures checkpointBase == Some(view) && lastCheckpointHeight == c.height
      ensures this.full == full && node == seeded && ckpt == born == Some(c.id)
    {
      this.ledger, this.anchors, this.every, this.margin := ledger, anchors, every, margin;
      checkpointBase, lastCheckpointHeight := Some(view), c.height;
      this.full, node, ckpt, born := full, seeded, Some(c.id), Some(c.id);
    }

    /** With a ledger seeded from the snapshot's heads, and a board that is the one a node that never forgot shows for
        its anchor, the new node stands where one would that checkpointed there. `full` holds what the anchor
        certifies. */
    static method Start(ledger: Ledger, anchors: AnchorChain, every: pos, margin: nat, c: Anchor, heads: Heads,
                        view: View, ghost full: LedgerState)
      returns (d: Daemon)
      requires ledger.Valid() && ledger.State() == EMPTY
      requires anchors.Valid() && anchors.exact && anchors.hist.baseId.None? && anchors.Rooted()
      requires anchors.floorId == Some(c.id) && c.id in anchors.hist.all && anchors.hist.all[c.id] == c
      requires heads == HeadsOf(anchors.hist, c.id) && JustCertified(full, heads)
      requires view == FullBoard(anchors.hist, full, c.id)
      modifies ledger, ledger.repr
      ensures fresh(d) && d.Valid() && d.full == full && d.ckpt == Some(c.id) && d.checkpointBase == Some(view)
    {
      SnapshotBehind(anchors.hist, c.id, full, heads);
      ledger.SeedCheckpoint(heads);
      d := new Daemon.FromSnapshot(ledger, anchors, every, margin, c, view, full, Seed(EMPTY, heads));
      d.SnapshotStands(c);
    }

    lemma SnapshotStands(c: Anchor)
      requires Stored() && anchors.Valid() && anchors.exact && anchors.Rooted()
      requires anchors.floorId == ckpt == born == Some(c.id)
      requires c.id in anchors.hist.all && anchors.hist.all[c.id] == c && lastCheckpointHeight == c.height
      requires Behind(anchors.hist, ckpt, full, node, Base())
      ensures Valid()
    {
    }

    method Hand(w: Write, ghost next: LedgerState) returns (r: ApplyResult)
      requires Stored() && next == LedgerSpec.Apply(node, w)
      modifies this`node, ledger, ledger.repr
      ensures Stored() && node == next && r == DeskAfter(old(node), w).result
    {
      r := ledger.Apply(w);
      node := next;
    }

    /** The ledger knows nothing of the anchors. */
    method Deliver(w: Write, ghost next: LedgerState) returns (r: ApplyResult)
      requires Stored() && next == LedgerSpec.Apply(node, w)
      modifies this`node, ledger, ledger.repr
      ensures Stored() && node == next && r == DeskAfter(old(node), w).result
      ensures Anchored() == old(Anchored())
    {
      r := Hand(w, next);
    }

    method DeliverLinked(w: Write, ghost next: LedgerState) returns (r: ApplyResult)
      requires Stored() && Anchored() && next == LedgerSpec.Apply(node, w)
      requires Behind(anchors.hist, ckpt, full, next, Base())
      modifies this`node, ledger, ledger.repr
      ensures Valid() && node == next && r == DeskAfter(old(node), w).result
    {
      r := Deliver(w, next);
    }

    /** Any write, delivered here and to the node that never forgets. */
    method OnWrite(w: Write) returns (r: ApplyResult)
      requires Valid() && !AdoptsNext(full, node, w)
      modifies this`full, this`node, ledger, ledger.repr
      ensures Valid() && full == LedgerSpec.Apply(old(full), w) && node == LedgerSpec.Apply(old(node), w)
      ensures r == DeskAfter(old(node), w).result
    {
      WriteKeeps(anchors.hist, ckpt, full, node, Base(), w);
      full := LedgerSpec.Apply(full, w);
      r := DeliverLinked(w, LedgerSpec.Apply(node, w));
    }

    /** The board this node shows for an anchor is the one the other node shows. */
    method BoardAt(id: Id) returns (view: View)
      requires Valid() && id in anchors.anchors && (ckpt.Some? ==> IsAncestor(anchors.hist.all, ckpt.value, id))
      requires NeverRegresses(PathTo(anchors.hist.all, id))
      requires IdsFixContent(WritesIn(node))
      ensures view == FullBoard(anchors.hist, full, id)
    {
      BoardFacts(id);
      ghost var board := FullBoard(anchors.hist, full, id);
      view := ShowBoard(id, WritesIn(node), PathTo(anchors.anchors, id), anchors.Reconstructed(id));
    }

    /** viewAt: fold the writes held onto the base, over the path held. */
    method ShowBoard(id: Id, ghost ws: set<Write>, ghost path: seq<Anchor>, ghost heads: Heads) returns (view: View)
      requires Stored() && WellFormed(anchors.anchors) && id in anchors.anchors
      requires ws == WritesIn(node) && path == PathTo(anchors.anchors, id) && heads == anchors.Reconstructed(id)
      requires OneSlotEach(ws) && IdsFixContent(ws)
      ensures view == ViewAt(ws, path, heads, Base())
    {
      var held, full, chain := ReadFor(id);
      IdsTellApart(held);
      view := ViewAtAnchor(held, chain, full, Base());
    }

    method ReadFor(id: Id) returns (ws: seq<Write>, heads: Heads, chain: seq<Anchor>)
      requires Stored() && WellFormed(anchors.anchors) && id in anchors.anchors
      ensures Elements(ws) == WritesIn(node) && forall i, j :: 0 <= i < j < |ws| ==> ws[i] != ws[j]
      ensures heads == anchors.Reconstructed(id) && chain == PathTo(anchors.anchors, id)
    {
      ws := ledger.AllWrites();
      heads := anchors.HeadsAt(id);
      chain := anchors.ChainTo(anchors.anchors[id]);
    }

    lemma BoardFacts(id: Id)
      requires Valid() && id in anchors.anchors && (ckpt.Some? ==> IsAncestor(anchors.hist.all, ckpt.value, id))
      requires NeverRegresses(PathTo(anchors.hist.all, id))
      ensures OneSlotEach(WritesIn(node)) && AllLinear(full) && id in anchors.hist.all
      ensures ViewAt(WritesIn(node), PathTo(anchors.anchors, id), anchors.Reconstructed(id), Base()) ==
                FullBoard(anchors.hist, full, id)
    {
      FloorBelow(id);
      anchors.HeadsRefine(id);
      SameBoard(anchors.hist, ckpt, full, node, Base(), anchors.anchors, anchors.floorId, id);
    }

    lemma FloorBelow(id: Id)
      requires Valid() && id in anchors.anchors && (ckpt.Some? ==> IsAncestor(anchors.hist.all, ckpt.value, id))
      ensures anchors.floorId.Some? ==> IsAncestor(anchors.hist.all, anchors.floorId.value, id)
    {
      if anchors.floorId.Some? { AncestorTransitive(anchors.hist.all, anchors.floorId.value, ckpt.value, id); }
    }

    /** Any anchor. */
    method OnAnchor(a: Anchor, proofsOk: bool, stateOk: bool) returns (r: AddResult)
      requires Valid() && anchors.Lawful(a, proofsOk)
      modifies anchors
      ensures Valid()
      ensures a.id !in old(anchors.anchors) && old(anchors.Screen(a, proofsOk, stateOk)) != Added ==>
                r == old(anchors.Screen(a, proofsOk, stateOk)) && anchors.anchors == old(anchors.anchors)
      ensures a.id !in old(anchors.anchors) && old(anchors.Screen(a, proofsOk, stateOk)) == Added ==>
                && anchors.anchors == old(anchors.anchors)[a.id := a]
                && r == Answer(Decide(anchors.anchors, a.id, old(anchors.tipId), old(anchors.lockedId),
                                      old(anchors.settledId)))
    {
      ghost var s, was, trail, settled := anchors.anchors, anchors.hist, anchors.trail, anchors.settledId;
      ghost var stored := Stored();
      r := AddTo(anchors, a, proofsOk, stateOk);
      assert Stored() == stored;
      AnchorAdded(a, s, was, trail, settled);
    }

    /** What of an `Add` matters here. */
    static method AddTo(anchors: AnchorChain, a: Anchor, proofsOk: bool, stateOk: bool) returns (r: AddResult)
      requires anchors.Valid() && anchors.Lawful(a, proofsOk)
      modifies anchors
      ensures anchors.Valid() && anchors.exact == old(anchors.exact) && old(anchors.trail) <= anchors.trail
      ensures anchors.hist == old(anchors.hist) || anchors.hist == Grown(old(anchors.hist), a)
      ensures anchors.floorId == old(anchors.floorId)
      ensures a.id !in old(anchors.anchors) && old(anchors.Screen(a, proofsOk, stateOk)) != Added ==>
                r == old(anchors.Screen(a, proofsOk, stateOk)) && anchors.anchors == old(anchors.anchors)
      ensures a.id !in old(anchors.anchors) && old(anchors.Screen(a, proofsOk, stateOk)) == Added ==>
                && anchors.anchors == old(anchors.anchors)[a.id := a]
                && r == Answer(Decide(anchors.anchors, a.id, old(anchors.tipId), old(anchors.lockedId),
                                      old(anchors.settledId)))
    {
      r := anchors.Add(a, proofsOk, stateOk);
    }

    lemma AnchorAdded(a: Anchor, s: Store, was: History, trail: seq<Id>, settled: Option<Id>)
      requires anchors.Valid() && anchors.exact && HashLaws(was, a)
      requires anchors.hist == was || anchors.hist == Grown(was, a)
      requires trail <= anchors.trail && (settled.Some? ==> |trail| > 0 && trail[|trail| - 1] == settled.value)
      requires Behind(was, ckpt, full, node, Base())
      requires StandsOver(s, was, anchors.floorId, settled, ckpt, born, margin, lastCheckpointHeight)
      ensures Linked() && Reaching()
    {
      GrownExtends(was, anchors.hist, a);
      AnchorKeeps(was, anchors.hist, ckpt, full, node, Base());
      StillOver(s, was, anchors.anchors, anchors.hist, trail, anchors.trail, anchors.floorId, settled,
                anchors.settledId, ckpt, born, margin, lastCheckpointHeight);
    }

    /** The settled anchor's ancestor at exactly `target`, if it is still held. */
    method Boundary(target: nat) returns (c: Option<Anchor>)
      requires anchors.Valid() && anchors.settledId.Some? && anchors.settledId.value in anchors.anchors
      ensures c.Some? ==>
                && c.value.id in anchors.anchors && anchors.anchors[c.value.id] == c.value && c.value.height == target
                && IsAncestor(anchors.anchors, c.value.id, anchors.settledId.value)
      ensures c.None? ==>
                forall x :: IsAncestor(anchors.anchors, x, anchors.settledId.value) && x in anchors.anchors ==>
                  anchors.anchors[x].height != target
    {
      var fin := anchors.settledId.value;
      c := Some(anchors.anchors[fin]);
      while c.Some? && c.value.height > target
        invariant c.Some? ==>
                    && c.value.id in anchors.anchors && anchors.anchors[c.value.id] == c.value
                    && IsAncestor(anchors.anchors, c.value.id, fin)
        invariant forall x | IsAncestor(anchors.anchors, x, fin) && x in anchors.anchors ::
                    anchors.anchors[x].height <= target ==>
                    c.Some? && IsAncestor(anchors.anchors, x, c.value.id)
        decreases if c.Some? then c.value.height + 1 else 0
      {
        if HasParent(anchors.anchors, c.value) {
          AncestorTransitive(anchors.anchors, c.value.prev.value, c.value.id, fin);
          c := Some(anchors.anchors[c.value.prev.value]);
        } else {
          c := None;
        }
      }
      if c.Some? && c.value.height != target {
        forall x | x in anchors.anchors && IsAncestor(anchors.anchors, x, fin)
          ensures anchors.anchors[x].height != target
        {
          if anchors.anchors[x].height == target { AncestorHeight(anchors.anchors, x, c.value.id); }
        }
        c := None;
      }
    }

    method HaveAllWrites(heads: Heads) returns (have: bool)
      requires Stored()
      ensures have <==> HasAll(node, heads)
    {
      var todo := heads.Keys;
      while todo != {}
        invariant todo <= heads.Keys
        invariant forall wr :: wr in heads && wr !in todo ==>
                    wr in node.chains && IdHeld(node.chains[wr], heads[wr].seqNo) == Some(heads[wr].id)
        decreases todo
      {
        var wr :| wr in todo;
        var id := ledger.IdAt(wr, heads[wr].seqNo);
        if id != Some(heads[wr].id) { return false; }
        todo := todo - {wr};
      }
      have := true;
    }

    /** What checkpointing at `c` needs: it descends from the last checkpoint and has its full heads. */
    lemma BoundaryFacts(c: Id)
      requires Valid() && c in anchors.anchors && anchors.settledId.Some? && anchors.settledId.value in anchors.anchors
      requires IsAncestor(anchors.anchors, c, anchors.settledId.value)
                 && lastCheckpointHeight < anchors.anchors[c].height
      requires NeverRegresses(PathTo(anchors.hist.all, anchors.settledId.value))
      ensures IsAncestor(anchors.hist.all, c, anchors.settledId.value)
      ensures ckpt.Some? ==> IsAncestor(anchors.hist.all, ckpt.value, c)
      ensures NeverRegresses(PathTo(anchors.hist.all, c))
      ensures anchors.Reconstructed(c) == HeadsOf(anchors.hist, c)
    {
      BoundaryLine(anchors.anchors, anchors.hist, ckpt, lastCheckpointHeight, c, anchors.settledId.value);
      RisesBelow(anchors.hist.all, c, anchors.settledId.value);
      FloorBelow(c);
      anchors.HeadsRefine(c);
    }

    method PruneLedger(heads: Heads)
      requires Stored()
      modifies this`node, ledger, ledger.repr
      ensures Stored() && node == Prune(old(node), heads)
    {
      ledger.PruneBelow(heads);
      node := Prune(node, heads);
    }

    /** Prune the ledger behind the checkpoint and rebase every fold onto its board. */
    method Rebase(c: Anchor, heads: Heads, view: View)
      requires Stored() && Behind(anchors.hist, Some(c.id), full, Prune(node, heads), view)
      modifies this`checkpointBase, this`lastCheckpointHeight, this`ckpt, this`node, ledger, ledger.repr
      ensures Stored() && Linked() && ckpt == Some(c.id) && node == Prune(old(node), heads)
      ensures checkpointBase == Some(view) && lastCheckpointHeight == c.height
    {
      lastCheckpointHeight := c.height;
      PruneLedger(heads);
      checkpointBase := Some(view);
      ckpt := Some(c.id);
    }

    /** A prune moves the floor up to the height asked for, if it is not there yet, on the tip's line. */
    static method PruneTo(anchors: AnchorChain, height: int)
      requires anchors.Valid() && anchors.Rooted() && height <= anchors.anchors[anchors.settledId.value].height
      modifies anchors
      ensures anchors.Valid() && anchors.Rooted() && anchors.exact == old(anchors.exact)
      ensures anchors.hist == old(anchors.hist) && anchors.settledId == old(anchors.settledId)
      ensures anchors.FloorHeight() == if height > old(anchors.FloorHeight()) then height
                else old(anchors.FloorHeight())
      ensures anchors.floorId != old(anchors.floorId) ==>
                && anchors.floorId.Some? && anchors.floorId.value in anchors.hist.all
                && anchors.hist.all[anchors.floorId.value].height <= height
                && IsAncestor(old(anchors.anchors), anchors.floorId.value, old(anchors.tipId).value)
    {
      anchors.Prune(height);
    }

    /** The floor went up to the margin below a checkpoint at that height, unless it was higher before. */
    ghost predicate FloorRaised(was: nat, height: nat)
      reads anchors
    {
      anchors.FloorHeight() == if height - margin > was then height - margin else was
    }

    lemma SettledHeight(c: Anchor)
      requires anchors.Valid() && anchors.Rooted() && c.id in anchors.hist.all && anchors.hist.all[c.id] == c
      requires IsAncestor(anchors.hist.all, c.id, anchors.settledId.value)
      ensures c.height <= anchors.anchors[anchors.settledId.value].height
    {
      AncestorHeight(anchors.hist.all, c.id, anchors.settledId.value);
    }

    /** Bound the anchors too, keeping a margin below the checkpoint. */
    method PruneAnchors(c: Anchor)
      requires Stored() && anchors.Valid() && anchors.exact && Linked() && ckpt == Some(c.id)
                 && lastCheckpointHeight == c.height
      requires anchors.settledId.Some? && anchors.settledId.value in anchors.anchors
      requires c.id in anchors.hist.all && anchors.hist.all[c.id] == c
      requires IsAncestor(anchors.hist.all, c.id, anchors.settledId.value)
      requires anchors.floorId.Some? ==> IsAncestor(anchors.hist.all, anchors.floorId.value, c.id)
      requires Reserve(anchors.hist, anchors.floorId, born, margin, c.height)
      modifies anchors
      ensures Valid() && anchors.hist == old(anchors.hist) && anchors.settledId == old(anchors.settledId)
      ensures FloorRaised(old(anchors.FloorHeight()), c.height)
    {
      SettledHeight(c);
      ghost var stored := Stored();
      ghost var floor, before, h := anchors.floorId, anchors.anchors, anchors.hist;
      ghost var settled, locked, tip := anchors.settledId.value, anchors.lockedId.value, anchors.tipId.value;
      PruneTo(anchors, c.height - margin);
      assert Stored() == stored;
      StandsPruned(c, floor, before, settled, locked, tip);
    }

    lemma StandsPruned(c: Anchor, floor: Option<Id>, before: Store, settled: Id, locked: Id, tip: Id)
      requires anchors.Valid() && anchors.exact && ckpt == Some(c.id) && lastCheckpointHeight == c.height
      requires anchors.settledId == Some(settled) && c.id in anchors.hist.all && anchors.hist.all[c.id] == c
      requires Below(before, anchors.hist) && tip in before && Nested(anchors.hist, settled, locked, tip)
      requires IsAncestor(anchors.hist.all, c.id, settled) && Reserve(anchors.hist, floor, born, margin, c.height)
      requires floor.Some? ==> IsAncestor(anchors.hist.all, floor.value, c.id)
      requires anchors.floorId != floor ==>
                 && anchors.floorId.Some? && anchors.floorId.value in anchors.hist.all
                 && anchors.hist.all[anchors.floorId.value].height <= c.height - margin
                 && IsAncestor(before, anchors.floorId.value, tip)
      ensures Anchored()
    {
      if anchors.floorId != floor {
        FloorStaysUnder(before, anchors.hist, anchors.floorId.value, c.id, settled, locked, tip);
      }
    }

    /** The margin covers the reference window, and so does a floor the node started from, under what is settled. */
    ghost predicate Wide()
      requires anchors.Rooted()
      reads this, anchors
    {
      && FORK_WINDOW <= margin
      && (anchors.floorId.Some? && anchors.floorId == born ==>
            HasWindow(anchors.FloorHeight(), anchors.anchors[anchors.settledId.value].height))
    }

    /** A margin of the reference window keeps every fork verdict the whole history's, for any branch that
        settlement lets in. */
    lemma VerdictIsTrue(x: Id)
      requires Valid() && anchors.Rooted() && Wide() && x in anchors.anchors
      requires anchors.tipId.value in anchors.hist.all && !IsAncestor(anchors.hist.all, x, anchors.tipId.value)
      requires IsAncestor(anchors.hist.all, anchors.settledId.value, x)
      ensures VerdictOf(anchors.anchors, x, anchors.tipId.value) == VerdictOf(anchors.hist.all, x, anchors.tipId.value)
    {
      MarginHolds(x);
      VerdictHeld(anchors.anchors, anchors.hist, anchors.FloorHeight(), x, anchors.tipId.value);
    }

    /** Both branches hold the settled anchor, so they part at or above it, and the anchors held go the
        margin below the checkpoint under it. */
    lemma MarginHolds(x: Id)
      requires Valid() && anchors.Rooted() && Wide() && x in anchors.hist.all
      requires anchors.tipId.value in anchors.hist.all && IsAncestor(anchors.hist.all, anchors.settledId.value, x)
      ensures var f := ForkPoint(anchors.hist.all, x, anchors.tipId.value);
              f.Some? && HasWindow(anchors.FloorHeight(), anchors.hist.all[f.value].height)
    {
      MarginUnder(anchors.anchors, anchors.hist, anchors.floorId, anchors.settledId.value, anchors.lockedId.value,
                  anchors.tipId.value, ckpt, born, margin, lastCheckpointHeight, x);
    }

    method LastBoundary(height: nat) returns (t: nat)
      ensures t <= height < t + every && IsMultiple(t, every)
    {
      t := height / every * every;
      TimesIsMultiple(height / every, every);
      assert height == every * (height / every) + height % every;
    }

    /** The next anchor to checkpoint at, and its heads and board, once all three can be had. */
    method NextCheckpoint() returns (r: Option<(Anchor, Heads, View)>)
      requires Valid() && SettledRises() && IdsFixContent(WritesIn(node))
      ensures r.None? ==> !SomeDue(anchors.anchors, anchors.hist, anchors.settledId, lastCheckpointHeight, every, node)
      ensures r.Some? ==> DueAt(anchors.anchors, anchors.hist, anchors.settledId, lastCheckpointHeight, every, node,
                                r.value.0.id)
      ensures r.Some? ==> Ready(r.value.0, r.value.1, r.value.2)
    {
      if anchors.settledId.None? { return None; }
      var target := LastBoundary(anchors.anchors[anchors.settledId.value].height);
      DueOnlyAt(anchors.anchors, anchors.hist, anchors.settledId, lastCheckpointHeight, every, node, target);
      if target <= 0 || target <= lastCheckpointHeight { return None; }
      var found := Boundary(target);
      if found.None? { return None; }
      OneAtHeight(anchors.anchors, found.value.id, anchors.settledId.value);
      BoundaryFacts(found.value.id);
      r := ChooseNext(found.value);
    }

    method ChooseNext(c: Anchor) returns (r: Option<(Anchor, Heads, View)>)
      requires Chosen(c)
      ensures r.Some? ==> r.value.0 == c && Ready(c, r.value.1, r.value.2)
      ensures r.Some? <==> HeadsOf(anchors.hist, c.id) != map[] && HasAll(node, HeadsOf(anchors.hist, c.id))
    {
      BoardFacts(c.id);
      ghost var full0 := FullBoard(anchors.hist, full, c.id);
      BecomesReady(c, full0);
      r := Checkpointing(c, WritesIn(node), PathTo(anchors.anchors, c.id), HeadsOf(anchors.hist, c.id), Base());
    }

    /** Everything checkpointing at `c` rests on. */
    ghost predicate Ready(c: Anchor, heads: Heads, view: View)
      reads this`full, this`node, anchors
    {
      && WellFormed(anchors.hist.all) && c.id in anchors.hist.all && anchors.hist.all[c.id] == c && AllLinear(full)
      && anchors.settledId.Some? && anchors.settledId.value in anchors.hist.all
      && IsAncestor(anchors.hist.all, c.id, anchors.settledId.value)
      && (anchors.floorId.Some? ==> IsAncestor(anchors.hist.all, anchors.floorId.value, c.id))
      && Reserve(anchors.hist, anchors.floorId, born, margin, c.height) && heads == HeadsOf(anchors.hist, c.id)
      && Behind(anchors.hist, Some(c.id), full, Prune(node, heads), view)
    }

    /** A boundary anchor that may be checkpointed at once its writes are here. */
    ghost predicate Chosen(c: Anchor)
      reads this, ledger, ledger.repr, anchors
    {
      && Valid() && IdsFixContent(WritesIn(node))
      && c.id in anchors.anchors && anchors.anchors[c.id] == c
      && c.id in anchors.hist.all && anchors.hist.all[c.id] == c
      && lastCheckpointHeight < c.height
      && (ckpt.Some? ==> IsAncestor(anchors.hist.all, ckpt.value, c.id))
      && anchors.settledId.Some?
      && anchors.settledId.value in anchors.anchors && anchors.settledId.value in anchors.hist.all
      && IsAncestor(anchors.hist.all, c.id, anchors.settledId.value)
      && NeverRegresses(PathTo(anchors.hist.all, c.id)) && anchors.Reconstructed(c.id) == HeadsOf(anchors.hist, c.id)
    }

    method Checkpointing(c: Anchor, ghost ws: set<Write>, ghost path: seq<Anchor>, ghost heads0: Heads,
                         ghost base: View)
      returns (r: Option<(Anchor, Heads, View)>)
      requires Stored() && WellFormed(anchors.anchors) && c.id in anchors.anchors
      requires ws == WritesIn(node) && path == PathTo(anchors.anchors, c.id) && heads0 == anchors.Reconstructed(c.id)
      requires OneSlotEach(ws) && IdsFixContent(ws) && base == Base()
      ensures r.Some? ==> r.value == (c, heads0, ViewAt(ws, path, heads0, base))
      ensures r.Some? <==> heads0 != map[] && HasAll(node, heads0)
    {
      ghost var stored := Stored();
      var heads := HeadsIfHeld(c.id, heads0);
      assert Stored() == stored && anchors.Reconstructed(c.id) == heads0;
      if heads.None? { return None; }
      var view := ShowBoard(c.id, ws, path, heads0);
      r := Some((c, heads.value, view));
    }

    lemma BecomesReady(c: Anchor, view: View)
      requires Chosen(c) && view == FullBoard(anchors.hist, full, c.id)
      ensures HasAll(node, HeadsOf(anchors.hist, c.id)) ==> Ready(c, HeadsOf(anchors.hist, c.id), view)
    {
      if HasAll(node, HeadsOf(anchors.hist, c.id)) {
        FloorBelow(c.id);
        BehindNext(c.id, HeadsOf(anchors.hist, c.id), view);
      }
    }

    method HeadsIfHeld(c: Id, ghost heads0: Heads) returns (r: Option<Heads>)
      requires Stored() && WellFormed(anchors.anchors) && heads0 == anchors.Reconstructed(c)
      ensures r.Some? ==> r.value == heads0
      ensures r.Some? <==> heads0 != map[] && HasAll(node, heads0)
    {
      ghost var stored := Stored();
      var heads := anchors.HeadsAt(c);
      assert Stored() == stored;
      if heads == map[] { return None; }
      var have := HaveAllWrites(heads);
      r := if have then Some(heads) else None;
    }

    lemma BehindNext(c: Id, heads: Heads, view: View)
      requires Valid() && c in anchors.anchors && (ckpt.Some? ==> IsAncestor(anchors.hist.all, ckpt.value, c))
      requires NeverRegresses(PathTo(anchors.hist.all, c)) && heads == HeadsOf(anchors.hist, c) && HasAll(node, heads)
      requires view == FullBoard(anchors.hist, full, c)
      ensures Behind(anchors.hist, Some(c), full, Prune(node, heads), view)
    {
      CheckpointKeeps(anchors.hist, ckpt, full, node, Base(), anchors.anchors, anchors.floorId, c);
    }

    /** Heads never regress on the settled line. The chain's verifier does not check it. */
    ghost predicate SettledRises()
      reads anchors
    {
      anchors.settledId.Some? && WellFormed(anchors.hist.all) && anchors.settledId.value in anchors.hist.all ==>
        NeverRegresses(PathTo(anchors.hist.all, anchors.settledId.value))
    }

    /** Checkpoint at the last boundary the settled anchor has crossed. */
    method MaybeCheckpoint() returns (acted: bool)
      requires Valid() && SettledRises() && IdsFixContent(WritesIn(node))
      modifies this`checkpointBase, this`lastCheckpointHeight, this`ckpt, this`node, ledger, ledger.repr, anchors
      ensures Valid() && full == old(full) && anchors.hist == old(anchors.hist)
      ensures acted <==> SomeDue(old(anchors.anchors), old(anchors.hist), old(anchors.settledId),
                                 old(lastCheckpointHeight), every, old(node))
      ensures acted ==> ckpt.Some? && checkpointBase.Some?
      ensures acted ==>
                DueAt(old(anchors.anchors), old(anchors.hist), old(anchors.settledId), old(lastCheckpointHeight),
                      every, old(node), ckpt.value)
      ensures acted ==> FloorRaised(old(anchors.FloorHeight()), lastCheckpointHeight)
      ensures !acted ==> unchanged(this, ledger, anchors)
    {
      var next := NextCheckpoint();
      acted := next.Some?;
      if acted { CheckpointAt(next.value.0, next.value.1, next.value.2); }
    }

    method CheckpointAt(c: Anchor, heads: Heads, view: View)
      requires Stored() && anchors.Valid() && anchors.exact && anchors.Rooted() && Ready(c, heads, view)
      modifies this`checkpointBase, this`lastCheckpointHeight, this`ckpt, this`node, ledger, ledger.repr, anchors
      ensures Valid() && full == old(full) && anchors.hist == old(anchors.hist)
      ensures ckpt == Some(c.id) && checkpointBase == Some(view) && lastCheckpointHeight == c.height
      ensures FloorRaised(old(anchors.FloorHeight()), c.height)
    {
      Rebase(c, heads, view);
      PruneAnchors(c);
    }
  }

  lemma MarginUnder(s: Store, h: History, floorId: Option<Id>, settled: Id, locked: Id, tip: Id,
                    ckpt: Option<Id>, born: Option<Id>, margin: nat, last: int, x: Id)
    requires Below(s, h) && FORK_WINDOW <= margin && Nested(h, settled, locked, tip) && settled in s
    requires floorId.Some? && floorId == born ==> HasWindow(FloorOf(s, floorId), s[settled].height)
    requires StandsOver(s, h, floorId, Some(settled), ckpt, born, margin, last) && x in h.all
               && IsAncestor(h.all, settled, x)
    ensures ForkPoint(h.all, x, tip).Some?
    ensures HasWindow(FloorOf(s, floorId), h.all[ForkPoint(h.all, x, tip).value].height)
  {
    AncestorTransitive(h.all, settled, locked, tip);
    ForkPointIsLast(h.all, x, tip);
    AncestorHeight(h.all, settled, ForkPoint(h.all, x, tip).value);
    if ckpt.Some? { AncestorHeight(h.all, ckpt.value, settled); }
  }

  /** Two such nodes that were sent the same anchors end a split on one tip, however differently they
      checkpoint: each settled on what both branches share, each locked on its own. */
  lemma DaemonsAgree(d: Daemon, e: Daemon)
    requires d.Valid() && e.Valid() && d.anchors.Rooted() && e.anchors.Rooted()
    requires d.Wide() && e.Wide() && d.anchors.hist == e.anchors.hist
    requires var h, a, b := d.anchors.hist, d.anchors.tipId.value, e.anchors.tipId.value;
             && a in e.anchors.anchors && b in d.anchors.anchors && a in h.all && b in h.all
             && !IsAncestor(h.all, a, b) && !IsAncestor(h.all, b, a)
             && IsAncestor(d.anchors.anchors, d.anchors.settledId.value, b)
             && IsAncestor(e.anchors.anchors, e.anchors.settledId.value, a)
             && !IsAncestor(d.anchors.anchors, d.anchors.lockedId.value, b)
             && !IsAncestor(e.anchors.anchors, e.anchors.lockedId.value, a)
    ensures var a, b := d.anchors.tipId.value, e.anchors.tipId.value;
            TipAfter(d.anchors.anchors, b, a, d.anchors.lockedId.value, d.anchors.settledId.value)
              == TipAfter(e.anchors.anchors, a, b, e.anchors.lockedId.value, e.anchors.settledId.value)
  {
    var h, a, b := d.anchors.hist, d.anchors.tipId.value, e.anchors.tipId.value;
    AncestorLifts(d.anchors.anchors, h, d.anchors.settledId.value, b);
    AncestorLifts(e.anchors.anchors, h, e.anchors.settledId.value, a);
    d.MarginHolds(b);
    e.MarginHolds(a);
    ForkPointSymmetric(h.all, a, b);
    SplitHeals(d.anchors.anchors, e.anchors.anchors, h, d.anchors.FloorHeight(), e.anchors.FloorHeight(), a, b,
               d.anchors.lockedId.value, e.anchors.lockedId.value,
               d.anchors.settledId.value, e.anchors.settledId.value);
  }

  /** The anchors held reach down to the checkpoint and a margin below it, and the settled anchor is
      above it. */
  ghost predicate StandsOver(s: Store, h: History, floorId: Option<Id>, settled: Option<Id>, ckpt: Option<Id>,
                             born: Option<Id>, margin: nat, last: int) {
    && HoldsDownTo(s, h, floorId, ckpt) && Reserve(h, floorId, born, margin, last)
    && (ckpt.Some? ==>
          && ckpt.value in h.all && settled.Some? && settled.value in h.all
          && IsAncestor(h.all, ckpt.value, settled.value) && h.all[ckpt.value].height == last)
  }

  /** The anchors held go at least `margin` below the last checkpoint, or down to where the node started. */
  ghost predicate Reserve(h: History, floorId: Option<Id>, born: Option<Id>, margin: nat, last: int) {
    floorId.Some? ==> floorId.value in h.all && (floorId == born || h.all[floorId.value].height + margin <= last)
  }

  ghost predicate IsMultiple(t: int, e: pos)
    decreases t
  {
    t == 0 || (t >= e && IsMultiple(t - e, e))
  }

  /** The settled anchor's ancestor at the last boundary it crossed, when that boundary is new, the
      anchor is held, and it certifies something this node has all of. */
  ghost predicate DueAt(s: Store, h: History, settled: Option<Id>, last: int, every: pos, node: LedgerState, c: Id) {
    && WellFormed(s) && WellFormed(h.all) && c in s && c in h.all && settled.Some? && settled.value in s
    && IsAncestor(s, c, settled.value) && 0 < s[c].height && last < s[c].height
    && IsMultiple(s[c].height, every) && s[settled.value].height < s[c].height + every
    && HeadsOf(h, c) != map[] && HasAll(node, HeadsOf(h, c))
  }

  ghost predicate SomeDue(s: Store, h: History, settled: Option<Id>, last: int, every: pos, node: LedgerState) {
    exists c :: DueAt(s, h, settled, last, every, node, c)
  }

  lemma DueOnlyAt(s: Store, h: History, settled: Option<Id>, last: int, every: pos, node: LedgerState, target: nat)
    requires WellFormed(s) && settled.Some? && settled.value in s && IsMultiple(target, every)
    requires target <= s[settled.value].height < target + every
    ensures forall c :: DueAt(s, h, settled, last, every, node, c) ==> s[c].height == target
  {
    forall c | DueAt(s, h, settled, last, every, node, c) ensures s[c].height == target {
      AncestorHeight(s, c, settled.value);
      MultiplesApart(s[c].height, target, every);
    }
  }

  lemma OneAtHeight(s: Store, c: Id, top: Id)
    requires WellFormed(s) && c in s && top in s && IsAncestor(s, c, top)
    ensures forall x :: x in s && IsAncestor(s, x, top) && s[x].height == s[c].height ==> x == c
  {
    forall x | x in s && IsAncestor(s, x, top) && s[x].height == s[c].height ensures x == c {
      AncestorsLine(s, x, c, top);
      AncestorHeight(s, x, c);
    }
  }

  lemma {:induction false} MultiplesApart(a: int, b: int, e: pos)
    requires IsMultiple(a, e) && IsMultiple(b, e) && a - b < e && b - a < e
    ensures a == b
    decreases a
  {
    if a != 0 && b != 0 { MultiplesApart(a - e, b - e, e); }
  }

  lemma {:induction false} TimesIsMultiple(q: nat, e: pos)
    ensures IsMultiple(q * e, e)
  {
    if q > 0 {
      TimesIsMultiple(q - 1, e);
      assert q * e == (q - 1) * e + e;
      ProductOrder(0, q - 1, e);
    }
  }

  /** The settled anchor only moves up, so the checkpoint stays below it. */
  lemma StillOver(s: Store, h: History, s': Store, h': History, trail: seq<Id>, trail': seq<Id>, floorId: Option<Id>,
                     settled: Option<Id>, settled': Option<Id>, ckpt: Option<Id>, born: Option<Id>, margin: nat,
                         last: int)
    requires Extends(h, h') && HeadsKnown(s', h', floorId) && TrailDescends(h', trail', settled') && trail <= trail'
    requires StandsOver(s, h, floorId, settled, ckpt, born, margin, last)
    requires settled.Some? ==> settled'.Some? && |trail| > 0 && trail[|trail| - 1] == settled.value
    ensures StandsOver(s', h', floorId, settled', ckpt, born, margin, last)
  {
    if ckpt.Some? {
      ExtendKeeps(h, h', ckpt.value, settled.value);
      if floorId.Some? { ExtendKeeps(h, h', floorId.value, ckpt.value); }
      var k := |trail| - 1;
      assert trail'[k] == settled.value && IsAncestor(h'.all, trail'[k], trail'[|trail'| - 1]);
      AncestorTransitive(h'.all, ckpt.value, settled.value, settled'.value);
    }
  }

  lemma FloorStaysUnder(s: Store, h: History, floor: Id, c: Id, settled: Id, locked: Id, tip: Id)
    requires Below(s, h) && tip in s && IsAncestor(s, floor, tip) && Nested(h, settled, locked, tip)
    requires c in h.all && IsAncestor(h.all, c, settled) && floor in h.all && h.all[floor].height <= h.all[c].height
    ensures IsAncestor(h.all, floor, c)
  {
    AncestorTransitive(h.all, c, settled, locked);
    AncestorTransitive(h.all, c, locked, tip);
    AncestorLifts(s, h, floor, tip);
    AncestorsLine(h.all, floor, c, tip);
  }

  lemma BoundaryLine(s: Store, h: History, ckpt: Option<Id>, last: int, c: Id, top: Id)
    requires Below(s, h) && c in s && top in s && IsAncestor(s, c, top) && last < s[c].height
    requires ckpt.Some? ==>
               ckpt.value in h.all && IsAncestor(h.all, ckpt.value, top) && h.all[ckpt.value].height == last
    ensures IsAncestor(h.all, c, top) && (ckpt.Some? ==> IsAncestor(h.all, ckpt.value, c))
  {
    AncestorLifts(s, h, c, top);
    if ckpt.Some? { AncestorsLine(h.all, ckpt.value, c, top); }
  }

  lemma RisesBelow(s: Store, c: Id, top: Id)
    requires WellFormed(s) && c in s && top in s && IsAncestor(s, c, top) && NeverRegresses(PathTo(s, top))
    ensures NeverRegresses(PathTo(s, c))
  {
    var k := PathThrough(s, c, top);
    HeadsPrefix(PathTo(s, top), k + 1);
  }

  lemma GrownExtends(h: History, h': History, a: Anchor)
    requires Grounded(h) && Grounded(h') && (h' == h || h' == Grown(h, a)) && HashLaws(h, a)
    ensures Extends(h, h')
  {
  }
}
