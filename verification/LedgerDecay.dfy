/** The buffer forgets: a write that waits ahead of its chain is dropped by the first apply to its writer that comes
    more than 1024 applies after it, and by nothing else (src/ledger/ledger.ts). */
module LedgerDecay {
  import opened Primitives
  import opened Ops
  import opened Writers
  import opened LedgerSpec

  /** Whatever drains, what lies past the end of the chain stays as it is. */
  lemma {:induction false} DrainLeaves(l: Link, p: Pending, applied: seq<Write>, d: Desk)
    requires d == Drain(l, p, applied)
    ensures NextSeq(l) <= NextSeq(d.link) && !d.result.Buffered?
    ensures forall s :: NextSeq(d.link) < s ==> (s in d.pend <==> s in p) && (s in p ==> d.pend[s] == p[s])
    decreases |p|
  {
    var s := NextSeq(l);
    if s in p && AppendResult(l, p[s].w).Linked? {
      DrainLeaves(Grow(l, p[s].w), Without(p, s), applied + [p[s].w], d);
    }
  }

  lemma ServeLeaves(l: Link, p: Pending, tick: nat, w: Write, d: Desk, s: nat)
    requires d == Serve(l, p, tick, w) && NextSeq(d.link) < s
    ensures NextSeq(l) <= NextSeq(d.link)
    ensures s in p ==> s in d.pend && d.pend[s] == p[s]
    ensures s !in p && s in d.pend ==> s == w.seqNo && d.pend[s].tick == tick
    ensures d.result.Buffered? ==> w.seqNo in d.pend && d.pend[w.seqNo].tick == tick
  {
    if w.seqNo == NextSeq(l) && w.seqNo !in p && AppendResult(l, w).Linked? { DrainLeaves(Grow(l, w), p, [w], d); }
  }

  lemma {:induction false} TicksCount(st: LedgerState, ws: seq<Write>)
    ensures ApplyAll(st, ws).tick == st.tick + |ws|
    decreases |ws|
  {
    if |ws| > 0 { TicksCount(st, ws[..|ws| - 1]); }
  }

  /** The write that came in at that tick waits at `s`. */
  predicate WaitsSince(st: LedgerState, wr: string, s: nat, tick: nat) {
    wr in st.pending && s in st.pending[wr] && st.pending[wr][s].tick == tick
  }

  /** No apply to the writer came more than 1024 after that at `i`. */
  predicate Recent(ws: seq<Write>, wr: string, i: nat) {
    forall j :: i < j < |ws| && ws[j].writer == wr ==> j - i <= 1024
  }

  /** Past the end of its chain, it waits exactly if `still`. */
  ghost predicate WaitsIff(end: LedgerState, w: Write, tick: nat, still: bool) {
    && w.writer in end.chains
    && (NextSeq(end.chains[w.writer]) < w.seqNo ==> (WaitsSince(end, w.writer, w.seqNo, tick) <==> still))
  }

  predicate IsBuffered(st: LedgerState, w: Write) {
    DeskAfter(st, w).result.Buffered?
  }

  /** Past the end of its chain, a write that was buffered is still waiting if and only if no apply to its writer
      came more than 1024 applies later. */
  lemma {:induction false} DecaysIff(st: LedgerState, ws: seq<Write>, i: nat)
    requires i < |ws| && IsBuffered(ApplyAll(st, ws[..i]), ws[i])
    ensures WaitsIff(ApplyAll(st, ws), ws[i], st.tick + i + 1, Recent(ws, ws[i].writer, i))
    decreases |ws|
  {
    var before, v := ws[..|ws| - 1], ws[|ws| - 1];
    var was := ApplyAll(st, before);
    TicksCount(st, before);
    if i == |before| {
      StepBuffers(was, v);
    } else {
      assert before[..i] == ws[..i];
      DecaysIff(st, before, i);
      DecayStep(st.tick, was, ws, i);
    }
  }

  lemma DecayStep(start: nat, was: LedgerState, ws: seq<Write>, i: nat)
    requires i + 1 < |ws| && was.tick == start + |ws| - 1
    requires WaitsIff(was, ws[i], start + i + 1, Recent(ws[..|ws| - 1], ws[i].writer, i))
    ensures WaitsIff(Apply(was, ws[|ws| - 1]), ws[i], start + i + 1, Recent(ws, ws[i].writer, i))
  {
    RecentStep(ws, ws[i].writer, i);
    StepDecays(was, ws[|ws| - 1], ws[i], start + i + 1, Recent(ws[..|ws| - 1], ws[i].writer, i));
  }

  lemma RecentStep(ws: seq<Write>, wr: string, i: nat)
    requires i + 1 < |ws|
    ensures Recent(ws, wr, i) <==>
              Recent(ws[..|ws| - 1], wr, i) && (ws[|ws| - 1].writer == wr ==> |ws| - 1 - i <= 1024)
  {
    var before, v := ws[..|ws| - 1], ws[|ws| - 1];
    assert forall j :: 0 <= j < |ws| ==> ws[j] == if j < |before| then before[j] else v;
    if Recent(ws, wr, i) {
      forall j | i < j < |before| && before[j].writer == wr ensures j - i <= 1024 { assert ws[j] == before[j]; }
    }
  }

  lemma StepBuffers(st: LedgerState, w: Write)
    requires IsBuffered(st, w)
    ensures WaitsIff(Apply(st, w), w, st.tick + 1, true)
  {
    var d := DeskAfter(st, w);
    if NextSeq(d.link) < w.seqNo {
      ServeLeaves(ChainFor(st.chains, w), Decayed(PendingFor(st.pending, w.writer), st.tick + 1), st.tick + 1, w, d,
                  w.seqNo);
    }
  }

  lemma StepDecays(st: LedgerState, v: Write, w: Write, tick: nat, still: bool)
    requires tick <= st.tick && WaitsIff(st, w, tick, still)
    ensures WaitsIff(Apply(st, v), w, tick, still && (v.writer == w.writer ==> st.tick + 1 <= tick + 1024))
  {
    if v.writer == w.writer {
      var l, p := ChainFor(st.chains, v), Decayed(PendingFor(st.pending, v.writer), st.tick + 1);
      var d := DeskAfter(st, v);
      ServeLeaves(l, p, st.tick + 1, v, d, if NextSeq(d.link) < w.seqNo then w.seqNo else NextSeq(d.link) + 1);
    }
  }
}
