/** Dropping a ledger's history below a checkpoint, and starting from one
    (seedCheckpoint and pruneBelow in src/ledger/ledger.ts). */
module LedgerPrune {
  import opened Primitives
  import opened Ops
  import opened Anchors
  import opened Writers
  import opened LedgerSpec

  /** Append every write of `ws` in turn, whatever each answers. */
  function AppendEach(l: Link, ws: seq<Write>): Link
    decreases |ws|
  {
    if |ws| == 0 then l else AfterAppend(AppendEach(l, ws[..|ws| - 1]), ws[|ws| - 1])
  }

  function KeepAbove(ws: seq<Write>, s: nat): seq<Write>
    decreases |ws|
  {
    if |ws| == 0 then []
    else KeepAbove(ws[..|ws| - 1], s) + if ws[|ws| - 1].seqNo > s then [ws[|ws| - 1]] else []
  }

  function PruneLink(l: Link, h: Head): Link {
    if h.seqNo < l.baseSeq then l
    else AppendEach(Link(l.writer, None, h.seqNo + 1, Some(h.id), []), KeepAbove(l.writes, h.seqNo))
  }

  function Prune(st: LedgerState, heads: Heads): LedgerState {
    st.(chains := map wr | wr in st.chains ::
          if wr in heads then PruneLink(st.chains[wr], heads[wr]) else st.chains[wr])
  }

  /** `heads` names a write the chain holds, or lies below what it has pruned. */
  predicate HoldsHead(l: Link, h: Head) {
    h.seqNo < l.baseSeq || (h.seqNo < NextSeq(l) && l.writes[h.seqNo - l.baseSeq].id == h.id)
  }

  ghost predicate HoldsHeads(st: LedgerState, heads: Heads) {
    forall wr :: wr in heads && wr in st.chains ==> HoldsHead(st.chains[wr], heads[wr])
  }

  ghost predicate AllLinear(st: LedgerState) {
    forall wr :: wr in st.chains ==> Linear(st.chains[wr]) && st.chains[wr].writer == wr
  }

  /** `cut` is `full` with some of its oldest writes forgotten. The plot is forgotten too when no
      write is left to tell it. */
  ghost predicate Trimmed(full: Link, cut: Link) {
    && cut.writer == full.writer && full.baseSeq <= cut.baseSeq <= NextSeq(full)
    && NextSeq(cut) == NextSeq(full)
    && (forall i :: 0 <= i < |cut.writes| ==> cut.writes[i] == full.writes[i + (cut.baseSeq - full.baseSeq)])
    && cut.baseHead == IdBefore(full, cut.baseSeq)
    && (cut.plot == full.plot || (cut.plot.None? && |cut.writes| == 0))
  }

  lemma {:induction false} KeepAboveLinear(ws: seq<Write>, base: nat, s: nat)
    requires forall i :: 0 <= i < |ws| ==> ws[i].seqNo == base + i
    requires base <= s < base + |ws|
    ensures KeepAbove(ws, s) == ws[s + 1 - base..]
    decreases |ws|
  {
    var k := |ws| - 1;
    if s < base + k {
      KeepAboveLinear(ws[..k], base, s);
    } else {
      NothingAbove(ws[..k], s);
    }
  }

  lemma {:induction false} NothingAbove(ws: seq<Write>, s: nat)
    requires forall i :: 0 <= i < |ws| ==> ws[i].seqNo <= s
    ensures KeepAbove(ws, s) == []
    decreases |ws|
  {
    if |ws| > 0 { NothingAbove(ws[..|ws| - 1], s); }
  }

  /** The chain resumed at `b`, grown back to `n`. */
  ghost function Tail(l: Link, b: nat, n: nat): Link
    requires l.baseSeq <= b <= n <= NextSeq(l)
  {
    Link(l.writer, if n == b then None else l.plot, b, IdBefore(l, b), l.writes[b - l.baseSeq..n - l.baseSeq])
  }

  lemma TailGrows(l: Link, b: nat, n: nat)
    requires l.baseSeq < b < n <= NextSeq(l) && FitsAt(l, n - 1 - l.baseSeq)
    ensures AfterAppend(Tail(l, b, n - 1), l.writes[n - 1 - l.baseSeq]) == Tail(l, b, n)
  {
    var t, w := Tail(l, b, n - 1), l.writes[n - 1 - l.baseSeq];
    assert NextSeq(t) == n - 1 && HeadId(t) == IdBefore(l, n - 1);
    assert AppendResult(t, w) == Linked;
    assert t.writes + [w] == l.writes[b - l.baseSeq..n - l.baseSeq];
  }

  /** Re-appending a linear chain's tail onto its own base is never refused. */
  lemma {:induction false} RelinkTail(l: Link, b: nat, n: nat)
    requires Linear(l) && l.baseSeq < b <= n <= NextSeq(l)
    ensures AppendEach(Tail(l, b, b), l.writes[b - l.baseSeq..n - l.baseSeq]) == Tail(l, b, n)
    decreases n
  {
    var ws := l.writes[b - l.baseSeq..n - l.baseSeq];
    if n > b {
      RelinkTail(l, b, n - 1);
      assert ws[..|ws| - 1] == l.writes[b - l.baseSeq..n - 1 - l.baseSeq];
      assert FitsAt(l, n - 1 - l.baseSeq);
      TailGrows(l, b, n);
    }
  }

  lemma SeqsOfLinear(l: Link)
    requires Linear(l)
    ensures forall i :: 0 <= i < |l.writes| ==> l.writes[i].seqNo == l.baseSeq + i
  {
    forall i | 0 <= i < |l.writes| ensures l.writes[i].seqNo == l.baseSeq + i { assert FitsAt(l, i); }
  }

  lemma LinearWrite(l: Link, w: Write)
    requires Linear(l) && w in l.writes
    ensures w.writer == l.writer && l.baseSeq <= w.seqNo < NextSeq(l) && l.writes[w.seqNo - l.baseSeq] == w
  {
    var i :| 0 <= i < |l.writes| && l.writes[i] == w;
    assert FitsAt(l, i);
  }

  lemma LinearDistinct(l: Link)
    requires Linear(l)
    ensures forall i, j :: 0 <= i < j < |l.writes| ==> l.writes[i] != l.writes[j]
  {
    SeqsOfLinear(l);
  }

  lemma PruneLinkIsTail(l: Link, h: Head)
    requires Linear(l) && HoldsHead(l, h) && l.baseSeq <= h.seqNo
    ensures PruneLink(l, h) == Tail(l, h.seqNo + 1, NextSeq(l))
  {
    var b := h.seqNo + 1;
    SeqsOfLinear(l);
    KeepAboveLinear(l.writes, l.baseSeq, h.seqNo);
    assert l.writes[b - l.baseSeq..] == l.writes[b - l.baseSeq..NextSeq(l) - l.baseSeq];
    RelinkTail(l, b, NextSeq(l));
    assert Tail(l, b, b) == Link(l.writer, None, b, Some(h.id), []);
  }

  lemma TailTrimmed(l: Link, b: nat)
    requires l.baseSeq <= b <= NextSeq(l)
    ensures Trimmed(l, Tail(l, b, NextSeq(l)))
  {
  }

  lemma PruneLinkTrims(l: Link, h: Head)
    requires Linear(l) && HoldsHead(l, h)
    ensures Trimmed(l, PruneLink(l, h))
    ensures PruneLink(l, h).baseSeq == if h.seqNo < l.baseSeq then l.baseSeq else h.seqNo + 1
  {
    if h.seqNo >= l.baseSeq {
      PruneLinkIsTail(l, h);
      TailTrimmed(l, h.seqNo + 1);
    }
  }

  /** Same buffers, same clock, every chain trimmed. */
  ghost predicate SameAbove(full: LedgerState, cut: LedgerState) {
    && full.chains.Keys == cut.chains.Keys && full.pending == cut.pending && full.tick == cut.tick
    && forall wr :: wr in full.chains ==> Trimmed(full.chains[wr], cut.chains[wr])
  }

  lemma TrimmedTip(full: Link, cut: Link)
    requires Trimmed(full, cut)
    ensures NextSeq(cut) == NextSeq(full) && HeadId(cut) == HeadId(full)
    ensures forall s :: cut.baseSeq <= s ==> At(cut, s) == At(full, s)
  {
  }

  ghost function WeightMap(st: LedgerState, unit: nat): map<string, nat> {
    map wr | wr in st.chains :: WeightOf(NextSeq(st.chains[wr]), unit)
  }

  /** Cumulative weight, counting the pruned prefix. */
  ghost function Weight(st: LedgerState, unit: nat): nat {
    Total(WeightMap(st, unit))
  }

  lemma SameTipsShow(full: LedgerState, cut: LedgerState, unit: nat)
    requires full.chains.Keys == cut.chains.Keys
    requires forall wr :: wr in full.chains ==>
      NextSeq(cut.chains[wr]) == NextSeq(full.chains[wr]) && HeadId(cut.chains[wr]) == HeadId(full.chains[wr])
    ensures HeadsIn(cut) == HeadsIn(full) && Weight(cut, unit) == Weight(full, unit)
  {
    assert WeightMap(full, unit) == WeightMap(cut, unit);
    assert HeadsIn(cut).Keys == HeadsIn(full).Keys;
  }

  lemma SameAboveShows(full: LedgerState, cut: LedgerState, unit: nat)
    requires SameAbove(full, cut)
    ensures HeadsIn(cut) == HeadsIn(full) && Weight(cut, unit) == Weight(full, unit)
  {
    forall wr | wr in full.chains
      ensures NextSeq(cut.chains[wr]) == NextSeq(full.chains[wr]) && HeadId(cut.chains[wr]) == HeadId(full.chains[wr])
    {
      TrimmedTip(full.chains[wr], cut.chains[wr]);
    }
    SameTipsShow(full, cut, unit);
  }

  /** Pruning below heads the ledger holds keeps its heads, its state root and its weight. */
  lemma PruneKeepsHeads(st: LedgerState, heads: Heads, unit: nat)
    requires AllLinear(st) && HoldsHeads(st, heads)
    ensures SameAbove(st, Prune(st, heads))
    ensures HeadsIn(Prune(st, heads)) == HeadsIn(st) && Weight(Prune(st, heads), unit) == Weight(st, unit)
  {
    var cut := Prune(st, heads);
    forall wr | wr in st.chains ensures Trimmed(st.chains[wr], cut.chains[wr]) {
      if wr in heads { PruneLinkTrims(st.chains[wr], heads[wr]); }
    }
    SameAboveShows(st, cut, unit);
  }

  // ---------- later applies do not notice ----------

  /** A chain that forgot its plot adopts whatever plot the next write names. */
  predicate MayAdopt(full: Link, cut: Link, w: Write) {
    cut.plot.None? && full.plot.Some? && w.plotRoot != full.plot.value && w.seqNo == NextSeq(full)
  }

  lemma AppendSame(full: Link, cut: Link, w: Write)
    requires Trimmed(full, cut) && cut.baseSeq <= w.seqNo
               && (cut.plot.Some? || full.plot.None? || w.plotRoot == full.plot.value)
    ensures AppendResult(cut, w) == AppendResult(full, w)
    ensures AppendResult(full, w) == Linked ==> Trimmed(Grow(full, w), Grow(cut, w)) && Grow(cut, w).plot.Some?
  {
    TrimmedTip(full, cut);
  }

  ghost predicate SameState(d: Desk, e: Desk) {
    d.pend == e.pend && Trimmed(d.link, e.link)
  }

  ghost predicate SameDesk(d: Desk, e: Desk) {
    d.result == e.result && SameState(d, e)
  }

  lemma {:induction false} DrainSame(full: Link, cut: Link, p: Pending, applied: seq<Write>)
    requires Trimmed(full, cut) && Filed(p) && cut.plot.Some?
    ensures SameDesk(Drain(full, p, applied), Drain(cut, p, applied))
    decreases |p|
  {
    TrimmedTip(full, cut);
    var s := NextSeq(full);
    if s in p {
      AppendSame(full, cut, p[s].w);
      if AppendResult(full, p[s].w) == Linked {
        DrainSame(Grow(full, p[s].w), Grow(cut, p[s].w), Without(p, s), applied + [p[s].w]);
      }
    }
  }

  /** A same-plot write above the cut gets the same answer. */
  lemma ServeSame(full: Link, cut: Link, p: Pending, tick: nat, w: Write)
    requires Trimmed(full, cut) && Filed(p) && !MayAdopt(full, cut, w) && cut.baseSeq <= w.seqNo
    ensures SameDesk(Serve(full, p, tick, w), Serve(cut, p, tick, w))
  {
    TrimmedTip(full, cut);
    if Existing(full, p, w.seqNo).None? && w.seqNo == NextSeq(full) {
      AppendSame(full, cut, w);
      if AppendResult(full, w) == Linked {
        DrainSame(Grow(full, w), Grow(cut, w), p, [w]);
      }
    }
  }

  /** The one way a trimmed chain goes wrong: it takes its next write on a plot the full chain knows
      is not this writer's. */
  predicate Adopts(full: Link, cut: Link, p: Pending, w: Write) {
    MayAdopt(full, cut, w) && w.seqNo !in p && AppendResult(cut, w) == Linked
  }

  lemma {:induction false} DrainGrows(l: Link, p: Pending, applied: seq<Write>)
    ensures NextSeq(l) <= NextSeq(Drain(l, p, applied).link) && Drain(l, p, applied).link.baseSeq == l.baseSeq
    decreases |p|
  {
    var s := NextSeq(l);
    if s in p && AppendResult(l, p[s].w) == Linked {
      DrainGrows(Grow(l, p[s].w), Without(p, s), applied + [p[s].w]);
    }
  }

  lemma ServeAlikeIff(full: Link, cut: Link, p: Pending, tick: nat, w: Write)
    requires Trimmed(full, cut) && Filed(p) && w.writer == full.writer
    ensures SameState(Serve(full, p, tick, w), Serve(cut, p, tick, w)) <==> !Adopts(full, cut, p, w)
  {
    TrimmedTip(full, cut);
    if Adopts(full, cut, p, w) {
      DrainGrows(Grow(cut, w), p, [w]);
      var d, e := Serve(full, p, tick, w), Serve(cut, p, tick, w);
      if Trimmed(d.link, e.link) { TrimmedTip(d.link, e.link); }
    } else if !MayAdopt(full, cut, w) && cut.baseSeq <= w.seqNo {
      ServeSame(full, cut, p, tick, w);
    }
  }

  ghost predicate AllFiled(st: LedgerState) {
    EachFiled(st.pending)
  }

  lemma DesksPlace(full: LedgerState, cut: LedgerState, d: Desk, e: Desk, wr: string)
    requires SameAbove(full, cut)
    ensures SameState(d, e) <==>
            SameAbove(LedgerState(full.chains[wr := d.link], full.pending[wr := d.pend], full.tick + 1),
                      LedgerState(cut.chains[wr := e.link], cut.pending[wr := e.pend], cut.tick + 1))
  {
    var a := LedgerState(full.chains[wr := d.link], full.pending[wr := d.pend], full.tick + 1);
    var b := LedgerState(cut.chains[wr := e.link], cut.pending[wr := e.pend], cut.tick + 1);
    if SameAbove(a, b) {
      assert Trimmed(a.chains[wr], b.chains[wr]) && a.pending[wr] == b.pending[wr];
    }
  }

  predicate AdoptsNext(full: LedgerState, cut: LedgerState, w: Write) {
    Adopts(ChainFor(full.chains, w), ChainFor(cut.chains, w),
           Decayed(PendingFor(full.pending, w.writer), full.tick + 1), w)
  }

  /** The two desks a write is served at. */
  ghost predicate Desks(full: LedgerState, cut: LedgerState, w: Write, l: Link, m: Link, p: Pending) {
    && l == ChainFor(full.chains, w) && m == ChainFor(cut.chains, w)
    && p == Decayed(PendingFor(full.pending, w.writer), full.tick + 1) ==
        Decayed(PendingFor(cut.pending, w.writer), cut.tick + 1)
    && full.tick == cut.tick
  }

  lemma FiledDesk(full: LedgerState, cut: LedgerState, w: Write)
    requires SameAbove(full, cut) && AllFiled(full)
    ensures Trimmed(ChainFor(full.chains, w), ChainFor(cut.chains, w))
              && Filed(Decayed(PendingFor(full.pending, w.writer), full.tick + 1))
    ensures Desks(full, cut, w, ChainFor(full.chains, w), ChainFor(cut.chains, w),
                  Decayed(PendingFor(full.pending, w.writer), full.tick + 1))
  {
  }

  lemma DesksAlikeIff(full: LedgerState, cut: LedgerState, w: Write, l: Link, m: Link, p: Pending)
    requires Desks(full, cut, w, l, m, p) && Trimmed(l, m) && Filed(p) && l.writer == w.writer
    ensures SameState(DeskAfter(full, w), DeskAfter(cut, w)) <==> !Adopts(l, m, p, w)
  {
    ServeAlikeIff(l, m, p, full.tick + 1, w);
  }

  lemma DesksSame(full: LedgerState, cut: LedgerState, w: Write, l: Link, m: Link, p: Pending)
    requires Desks(full, cut, w, l, m, p) && Trimmed(l, m) && Filed(p) && m.baseSeq <= w.seqNo && !MayAdopt(l, m, w)
    ensures SameDesk(DeskAfter(full, w), DeskAfter(cut, w))
  {
    ServeSame(l, m, p, full.tick + 1, w);
  }

  /** One more write, above the checkpoint or below it, leaves the two ledgers alike exactly when it
      does not make the pruned one adopt a second plot. */
  lemma ApplyAlikeIff(full: LedgerState, cut: LedgerState, w: Write)
    requires SameAbove(full, cut) && AllFiled(full) && ChainFor(full.chains, w).writer == w.writer
    ensures SameAbove(Apply(full, w), Apply(cut, w)) <==> !AdoptsNext(full, cut, w)
  {
    FiledDesk(full, cut, w);
    DesksAlikeIff(full, cut, w, ChainFor(full.chains, w), ChainFor(cut.chains, w),
                  Decayed(PendingFor(full.pending, w.writer), full.tick + 1));
    DesksPlace(full, cut, DeskAfter(full, w), DeskAfter(cut, w), w.writer);
  }

  /** Above the cut, on the plot its writer is known by. */
  predicate PlainNext(full: LedgerState, cut: LedgerState, w: Write) {
    ChainFor(cut.chains, w).baseSeq <= w.seqNo && !MayAdopt(ChainFor(full.chains, w), ChainFor(cut.chains, w), w)
  }

  /** A same-plot write above the checkpoint gets the same answer from the pruned ledger. */
  lemma ApplySame(full: LedgerState, cut: LedgerState, w: Write)
    requires SameAbove(full, cut) && AllFiled(full) && PlainNext(full, cut, w)
    ensures DeskAfter(full, w).result == DeskAfter(cut, w).result
    ensures SameAbove(Apply(full, w), Apply(cut, w))
  {
    FiledDesk(full, cut, w);
    DesksSame(full, cut, w, ChainFor(full.chains, w), ChainFor(cut.chains, w),
              Decayed(PendingFor(full.pending, w.writer), full.tick + 1));
    DesksPlace(full, cut, DeskAfter(full, w), DeskAfter(cut, w), w.writer);
  }

  lemma {:induction false} DrainFiled(l: Link, p: Pending, applied: seq<Write>)
    requires Filed(p)
    ensures Filed(Drain(l, p, applied).pend)
    decreases |p|
  {
    var s := NextSeq(l);
    if s in p && AppendResult(l, p[s].w) == Linked {
      DrainFiled(Grow(l, p[s].w), Without(p, s), applied + [p[s].w]);
    }
  }

  lemma {:induction false} DrainLinear(l: Link, p: Pending, applied: seq<Write>)
    requires Linear(l)
    ensures Linear(Drain(l, p, applied).link) && Drain(l, p, applied).link.writer == l.writer
    decreases |p|
  {
    var s := NextSeq(l);
    if s in p && AppendResult(l, p[s].w) == Linked {
      AppendKeepsLinear(l, p[s].w);
      DrainLinear(Grow(l, p[s].w), Without(p, s), applied + [p[s].w]);
    }
  }

  lemma ServeKeeps(l: Link, p: Pending, tick: nat, w: Write)
    requires Filed(p) && Linear(l)
    ensures Filed(Serve(l, p, tick, w).pend)
    ensures Linear(Serve(l, p, tick, w).link) && Serve(l, p, tick, w).link.writer == l.writer
    ensures Serve(l, p, tick, w).link.baseSeq == l.baseSeq
  {
    if AppendResult(l, w) == Linked {
      AppendKeepsLinear(l, w);
      DrainFiled(Grow(l, w), p, [w]);
      DrainLinear(Grow(l, w), p, [w]);
      DrainGrows(Grow(l, w), p, [w]);
    }
  }

  lemma DeskShape(st: LedgerState, w: Write)
    requires AllFiled(st) && AllLinear(st)
    ensures Filed(DeskAfter(st, w).pend) && Linear(DeskAfter(st, w).link) && DeskAfter(st, w).link.writer == w.writer
    ensures DeskAfter(st, w).link.baseSeq == if w.writer in st.chains then st.chains[w.writer].baseSeq else 0
  {
    ServeKeeps(ChainFor(st.chains, w), Decayed(PendingFor(st.pending, w.writer), st.tick + 1), st.tick + 1, w);
  }

  /** Kept by every apply, valid writes or not: chains linear and buffers filed. */
  lemma ApplyKeepsShape(st: LedgerState, w: Write)
    requires AllFiled(st) && AllLinear(st)
    ensures AllFiled(Apply(st, w)) && AllLinear(Apply(st, w))
    ensures forall wr :: wr in Apply(st, w).chains ==>
              Apply(st, w).chains[wr].baseSeq == if wr in st.chains then st.chains[wr].baseSeq else 0
  {
    DeskShape(st, w);
    var d := DeskAfter(st, w);
    var end := Apply(st, w);
    assert end.chains == st.chains[w.writer := d.link] && end.pending == st.pending[w.writer := d.pend];
  }
}
