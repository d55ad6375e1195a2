/** The multi-writer ledger fed by anybody: genuine writes in any order, among writes that do not verify
    (apply in src/ledger/ledger.ts opens a writer's chain on the plot the first of either names). */
module LedgerMixed {
  import opened Primitives
  import opened Anchors
  import opened Ops
  import opened Writers
  import opened LedgerSpec

  /** Genuine and true, or not verifying at all. */
  ghost predicate Mixed(truth: Truth, ws: seq<Write>) {
    forall w :: w in ws ==> Written(truth, w) || !VerifyWrite(w)
  }

  /** What the writer really wrote. */
  function Of(truth: Truth, wr: string): seq<Write> {
    if wr in truth then truth[wr] else []
  }

  ghost function Received(ws: seq<Write>): set<Write> {
    set w | w in ws && VerifyWrite(w)
  }

  /** The first write naming this writer, verified or not. */
  function FirstFrom(ws: seq<Write>, wr: string): Option<Write>
    decreases |ws|
  {
    if |ws| == 0 then None
    else if FirstFrom(ws[..|ws| - 1], wr).Some? then FirstFrom(ws[..|ws| - 1], wr)
    else if ws[|ws| - 1].writer == wr then Some(ws[|ws| - 1])
    else None
  }

  /** The writer's chain was there, or was opened on the writer's own plot. */
  predicate OpenedRight(st: LedgerState, truth: Truth, ws: seq<Write>, wr: string) {
    wr in st.chains || |Of(truth, wr)| == 0 ||
    (FirstFrom(ws, wr).Some? ==> FirstFrom(ws, wr).value.plotRoot == Of(truth, wr)[0].plotRoot)
  }

  /** The chain runs to the first gap in what was received, and the rest of it is buffered. */
  ghost predicate Right(l: Link, p: Pending, ws: seq<Write>, wr: string, base: nat, got: set<Write>) {
    && Holds(l, ws, wr, base) && FirstMissing(ws, base, got, NextSeq(l))
    && (forall s :: s in p <==> NextSeq(l) < s < |ws| && ws[s] in got)
    && (forall s :: s in p ==> p[s].w == ws[s])
  }

  /** Opened on another plot: nothing links, and all that is received but the first write is buffered. */
  ghost predicate Stuck(l: Link, p: Pending, ws: seq<Write>, wr: string, got: set<Write>) {
    && |ws| > 0 && l.writer == wr && l.plot.Some? && l.plot.value != ws[0].plotRoot
    && l.baseSeq == 0 && l.baseHead.None? && l.writes == []
    && (forall s :: s in p <==> 0 < s < |ws| && ws[s] in got)
    && (forall s :: s in p ==> p[s].w == ws[s])
  }

  // ---------- one write ----------

  /** A write that does not verify changes nothing once its writer's chain is open. */
  lemma JunkStays(l: Link, p: Pending, tick: nat, w: Write)
    requires !VerifyWrite(w)
    ensures Serve(l, p, tick, w).link == l && Serve(l, p, tick, w).pend == p
  {
  }

  lemma RightServes(l: Link, p: Pending, tick: nat, w: Write, ws: seq<Write>, base: nat, got: set<Write>)
    requires AllGenuine(ws, w.writer) && w.seqNo < |ws| && ws[w.seqNo] == w && Right(l, p, ws, w.writer, base, got)
    ensures var d := Serve(l, p, tick, w); Right(d.link, d.pend, ws, w.writer, base, got + {w})
  {
    var d := Serve(l, p, tick, w);
    ServeHolds(l, p, tick, w, ws, base, got, d);
    forall s | 0 <= s < |ws| && ws[s] in got + {w} && base <= s
      ensures s < NextSeq(d.link) || s in d.pend
    {
      assert GenuineAt(ws, w.writer, s);
    }
  }

  lemma StuckServes(l: Link, p: Pending, tick: nat, w: Write, ws: seq<Write>, got: set<Write>)
    requires AllGenuine(ws, w.writer) && w.seqNo < |ws| && ws[w.seqNo] == w && Stuck(l, p, ws, w.writer, got)
    ensures var d := Serve(l, p, tick, w); Stuck(d.link, d.pend, ws, w.writer, got + {w})
  {
    assert GenuineAt(ws, w.writer, w.seqNo);
    forall s | 0 <= s < |ws| && ws[s] == w ensures s == w.seqNo { assert GenuineAt(ws, w.writer, s); }
  }

  /** One writer's chain and buffer, by how the chain was opened. */
  ghost predicate Stands(l: Link, p: Pending, ws: seq<Write>, wr: string, base: nat, got: set<Write>, right: bool) {
    if right then Right(l, p, ws, wr, base, got) else base == 0 && Stuck(l, p, ws, wr, got)
  }

  lemma ServeKeeps(l: Link, p: Pending, tick: nat, w: Write, ws: seq<Write>, base: nat, got: set<Write>, right: bool)
    requires AllGenuine(ws, w.writer) && Stands(l, p, ws, w.writer, base, got, right)
    requires (w.seqNo < |ws| && ws[w.seqNo] == w) || !VerifyWrite(w)
    ensures var d := Serve(l, p, tick, w);
            Stands(d.link, d.pend, ws, w.writer, base, if VerifyWrite(w) then got + {w} else got, right)
  {
    if !VerifyWrite(w) {
      JunkStays(l, p, tick, w);
    } else if right {
      RightServes(l, p, tick, w, ws, base, got);
    } else {
      StuckServes(l, p, tick, w, ws, got);
    }
  }

  /** Writes of others do not count. */
  lemma OthersPass(l: Link, p: Pending, ws: seq<Write>, wr: string, base: nat, got: set<Write>, more: set<Write>,
                   right: bool)
    requires AllGenuine(ws, wr) && Stands(l, p, ws, wr, base, got, right)
    requires forall s :: 0 <= s < |ws| ==> (ws[s] in got <==> ws[s] in more)
    ensures Stands(l, p, ws, wr, base, more, right)
  {
  }

  // ---------- a run ----------

  ghost predicate AllStand(end: LedgerState, st: LedgerState, truth: Truth, base: map<string, nat>, ws: seq<Write>) {
    && (forall wr :: wr in end.chains <==> wr in st.chains || FirstFrom(ws, wr).Some?)
    && end.pending.Keys == end.chains.Keys
    && forall wr :: wr in end.chains ==>
         Stands(end.chains[wr], end.pending[wr], Of(truth, wr), wr, BaseOf(base, wr), Received(ws),
                OpenedRight(st, truth, ws, wr))
  }

  lemma OfGenuine(truth: Truth, wr: string)
    requires Genuine(truth)
    ensures AllGenuine(Of(truth, wr), wr)
  {
    if wr in truth { GenuineOne(truth, wr); }
  }

  lemma {:induction false} FirstFromNone(ws: seq<Write>, wr: string)
    ensures FirstFrom(ws, wr).None? <==> forall w :: w in ws ==> w.writer != wr
    ensures FirstFrom(ws, wr).Some? ==> FirstFrom(ws, wr).value in ws && FirstFrom(ws, wr).value.writer == wr
    decreases |ws|
  {
    if |ws| > 0 {
      FirstFromNone(ws[..|ws| - 1], wr);
      assert ws == ws[..|ws| - 1] + [ws[|ws| - 1]];
    }
  }

  lemma ReceivedMore(ws: seq<Write>, w: Write)
    ensures Received(ws + [w]) == if VerifyWrite(w) then Received(ws) + {w} else Received(ws)
  {
  }

  /** The chain this write is served to, before it is. */
  lemma DeskStands(end: LedgerState, st: LedgerState, truth: Truth, base: map<string, nat>, ws: seq<Write>, w: Write)
    requires Genuine(truth) && AllStand(end, st, truth, base, ws) && forall wr :: wr in base ==> wr in st.chains
    ensures Stands(ChainFor(end.chains, w), PendingFor(end.pending, w.writer), Of(truth, w.writer), w.writer,
                   BaseOf(base, w.writer), Received(ws), OpenedRight(st, truth, ws + [w], w.writer))
  {
    var wr, more := w.writer, ws + [w];
    assert more[..|more| - 1] == ws && more[|more| - 1] == w;
    if wr !in end.chains {
      FirstFromNone(ws, wr);
      OfGenuine(truth, wr);
      forall s | 0 <= s < |Of(truth, wr)| ensures Of(truth, wr)[s] !in Received(ws) {
        assert GenuineAt(Of(truth, wr), wr, s);
      }
    }
  }

  lemma DeskIs(end: LedgerState, w: Write)
    requires NoDecay(end, w)
    ensures DeskAfter(end, w) == Serve(ChainFor(end.chains, w), PendingFor(end.pending, w.writer), end.tick + 1, w)
  {
  }

  /** The writer served. */
  lemma OwnStands(end: LedgerState, st: LedgerState, truth: Truth, base: map<string, nat>, ws: seq<Write>, w: Write)
    requires Genuine(truth) && AllStand(end, st, truth, base, ws) && forall k :: k in base ==> k in st.chains
    requires (Written(truth, w) || !VerifyWrite(w)) && NoDecay(end, w)
    ensures var d := DeskAfter(end, w);
            Stands(d.link, d.pend, Of(truth, w.writer), w.writer, BaseOf(base, w.writer), Received(ws + [w]),
                   OpenedRight(st, truth, ws + [w], w.writer))
  {
    DeskStands(end, st, truth, base, ws, w);
    OfGenuine(truth, w.writer);
    ReceivedMore(ws, w);
    DeskIs(end, w);
    ServeKeeps(ChainFor(end.chains, w), PendingFor(end.pending, w.writer), end.tick + 1, w, Of(truth, w.writer),
               BaseOf(base, w.writer), Received(ws), OpenedRight(st, truth, ws + [w], w.writer));
  }

  /** Every other writer. */
  lemma OthersStand(l: Link, p: Pending, st: LedgerState, truth: Truth, base: nat, ws: seq<Write>, w: Write, wr: string)
    requires Genuine(truth) && wr != w.writer
    requires Stands(l, p, Of(truth, wr), wr, base, Received(ws), OpenedRight(st, truth, ws, wr))
    ensures Stands(l, p, Of(truth, wr), wr, base, Received(ws + [w]), OpenedRight(st, truth, ws + [w], wr))
  {
    var more := ws + [w];
    assert more[..|more| - 1] == ws && more[|more| - 1] == w;
    ReceivedMore(ws, w);
    OfGenuine(truth, wr);
    forall s | 0 <= s < |Of(truth, wr)| ensures Of(truth, wr)[s] != w { assert GenuineAt(Of(truth, wr), wr, s); }
    OthersPass(l, p, Of(truth, wr), wr, base, Received(ws), Received(more), OpenedRight(st, truth, more, wr));
  }

  lemma ApplyStands(end: LedgerState, st: LedgerState, truth: Truth, base: map<string, nat>, ws: seq<Write>, w: Write)
    requires Genuine(truth) && AllStand(end, st, truth, base, ws) && forall wr :: wr in base ==> wr in st.chains
    requires (Written(truth, w) || !VerifyWrite(w)) && NoDecay(end, w)
    ensures AllStand(Apply(end, w), st, truth, base, ws + [w])
  {
    var more, end' := ws + [w], Apply(end, w);
    assert more[..|more| - 1] == ws && more[|more| - 1] == w;
    forall wr | wr in end'.chains
      ensures Stands(end'.chains[wr], end'.pending[wr], Of(truth, wr), wr, BaseOf(base, wr), Received(more),
                     OpenedRight(st, truth, more, wr))
    {
      if wr == w.writer {
        OwnStands(end, st, truth, base, ws, w);
      } else {
        OthersStand(end.chains[wr], end.pending[wr], st, truth, BaseOf(base, wr), ws, w, wr);
      }
    }
  }

  lemma {:induction false} RunStands(st: LedgerState, truth: Truth, base: map<string, nat>, ws: seq<Write>)
    requires Genuine(truth) && Sane(st, truth, base, {}) && Mixed(truth, ws) && NoDecayAlong(st, ws)
    ensures AllStand(ApplyAll(st, ws), st, truth, base, ws)
    decreases |ws|
  {
    if |ws| == 0 {
      assert Received(ws) == {};
    } else {
      var k := |ws| - 1;
      assert ws == ws[..k] + [ws[k]];
      RunStands(st, truth, base, ws[..k]);
      ApplyStands(ApplyAll(st, ws[..k]), st, truth, base, ws[..k], ws[k]);
    }
  }

  /** Arrival order does not matter, and what does not verify only matters by coming first: a writer's chain
      runs exactly to the first gap in what was received if and only if it was opened on the writer's own
      plot. One opened on another plot stays empty for good. */
  lemma MixedOrder(st: LedgerState, truth: Truth, base: map<string, nat>, ws: seq<Write>, wr: string)
    requires Genuine(truth) && Sane(st, truth, base, {}) && Mixed(truth, ws) && NoDecayAlong(st, ws)
    requires wr in ApplyAll(st, ws).chains
    ensures var end := ApplyAll(st, ws);
            && wr in end.pending
            && (OpenedRight(st, truth, ws, wr) <==>
                 Right(end.chains[wr], end.pending[wr], Of(truth, wr), wr, BaseOf(base, wr), Received(ws)))
            && (!OpenedRight(st, truth, ws, wr) ==> end.chains[wr].writes == [] && HeadId(end.chains[wr]).None?)
  {
    RunStands(st, truth, base, ws);
  }

  function HeadIn(st: LedgerState, wr: string): Option<Head> {
    if wr in HeadsIn(st) then Some(HeadsIn(st)[wr]) else None
  }

  lemma RightHead(st: LedgerState, p: Pending, ws: seq<Write>, wr: string, base: nat, got: set<Write>)
    requires wr in st.chains && Right(st.chains[wr], p, ws, wr, base, got)
    ensures var n := NextSeq(st.chains[wr]); FirstMissing(ws, base, got, n) && HeadIn(st, wr) == HeadAt(ws, n)
  {
    HeldHead(st.chains[wr], ws, wr, base);
  }

  lemma NothingFrom(truth: Truth, ws: seq<Write>, wr: string)
    requires Genuine(truth) && FirstFrom(ws, wr).None?
    ensures FirstMissing(Of(truth, wr), 0, Received(ws), 0)
  {
    FirstFromNone(ws, wr);
    OfGenuine(truth, wr);
    if |Of(truth, wr)| > 0 { assert GenuineAt(Of(truth, wr), wr, 0); }
  }

  /** A writer's head is where what was received first breaks off, chain or no chain. */
  lemma HeadStands(st: LedgerState, truth: Truth, base: map<string, nat>, ws: seq<Write>, wr: string) returns (n: nat)
    requires Genuine(truth) && Sane(st, truth, base, {}) && Mixed(truth, ws) && NoDecayAlong(st, ws)
    requires OpenedRight(st, truth, ws, wr)
    ensures FirstMissing(Of(truth, wr), BaseOf(base, wr), Received(ws), n)
    ensures HeadIn(ApplyAll(st, ws), wr) == HeadAt(Of(truth, wr), n)
  {
    var end := ApplyAll(st, ws);
    RunStands(st, truth, base, ws);
    if wr in end.chains {
      RightHead(end, end.pending[wr], Of(truth, wr), wr, BaseOf(base, wr), Received(ws));
      n := NextSeq(end.chains[wr]);
    } else {
      NothingFrom(truth, ws, wr);
      n := 0;
    }
  }

  /** Where every chain was opened right, the state root depends only on the genuine writes received. */
  lemma MixedRoot(st: LedgerState, truth: Truth, base: map<string, nat>, p: seq<Write>, q: seq<Write>)
    requires Genuine(truth) && Sane(st, truth, base, {}) && Received(p) == Received(q)
    requires Mixed(truth, p) && NoDecayAlong(st, p) && Mixed(truth, q) && NoDecayAlong(st, q)
    requires forall wr :: OpenedRight(st, truth, p, wr) && OpenedRight(st, truth, q, wr)
    ensures HeadsIn(ApplyAll(st, p)) == HeadsIn(ApplyAll(st, q))
  {
    var a, b := ApplyAll(st, p), ApplyAll(st, q);
    forall wr ensures HeadIn(a, wr) == HeadIn(b, wr) {
      var m := HeadStands(st, truth, base, p, wr);
      var n := HeadStands(st, truth, base, q, wr);
      FirstMissingUnique(Of(truth, wr), BaseOf(base, wr), Received(p), m, n);
    }
    SameEverywhere(a, b);
  }

  lemma SameEverywhere(a: LedgerState, b: LedgerState)
    requires forall wr :: HeadIn(a, wr) == HeadIn(b, wr)
    ensures HeadsIn(a) == HeadsIn(b)
  {
    forall wr | wr in HeadsIn(a) || wr in HeadsIn(b)
      ensures wr in HeadsIn(a) && wr in HeadsIn(b) && HeadsIn(a)[wr] == HeadsIn(b)[wr]
    {
      assert HeadIn(a, wr) == HeadIn(b, wr);
    }
  }

  /** For one input: whichever of the two comes first, the ledger has been sent the same writes. */
  lemma ForgedPlotFirst(w: Write, forged: Write)
    requires VerifyWrite(w) && w.seqNo == 0 && w.prev.None?
    requires !VerifyWrite(forged) && forged.writer == w.writer && forged.seqNo == 0 && forged.id != w.id
    requires forged.plotRoot != w.plotRoot
    ensures ApplyAll(EMPTY, [w, forged]).chains[w.writer].writes == [w]
    ensures ApplyAll(EMPTY, [forged, w]).chains[w.writer].writes == []
  {
    ApplyTwo(EMPTY, w, forged);
    ApplyTwo(EMPTY, forged, w);
    var start := Link(w.writer, Some(w.plotRoot), 0, None, []);
    assert Apply(EMPTY, w).chains[w.writer] == Grow(start, w);
    assert Apply(EMPTY, forged).chains[w.writer] == start.(plot := Some(forged.plotRoot));
  }

  lemma ApplyTwo(st: LedgerState, x: Write, y: Write)
    ensures ApplyAll(st, [x, y]) == Apply(Apply(st, x), y)
  {
    assert [x, y][..1] == [x] && [x][..0] == [];
    assert ApplyAll(st, [x]) == Apply(st, x);
  }
}
