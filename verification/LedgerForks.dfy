/** The multi-writer ledger under any writes at all, a writer's two at one seq among them: what its chains
    stay, what it reports, and what it does not (apply in src/ledger/ledger.ts). */
module LedgerForks {
  import opened Primitives
  import opened Ops
  import opened Writers
  import opened LedgerSpec
  import opened LedgerPrune

  // ---------- what is held ----------

  /** Everything held was received; what is buffered verified and is filed under its own writer and seq. */
  ghost predicate Sourced(l: Link, p: Pending, got: set<Write>) {
    && (forall w :: w in l.writes ==> w in got)
    && (forall s :: s in p ==> p[s].w in got && VerifyWrite(p[s].w) && p[s].w.writer == l.writer && p[s].w.seqNo == s)
  }

  ghost predicate AllSourced(st: LedgerState, got: set<Write>) {
    && st.chains.Keys == st.pending.Keys
    && forall wr :: wr in st.chains ==> st.chains[wr].writer == wr && Sourced(st.chains[wr], st.pending[wr], got)
  }

  lemma {:induction false} DrainSourced(l: Link, p: Pending, applied: seq<Write>, got: set<Write>)
    requires Sourced(l, p, got)
    ensures var d := Drain(l, p, applied); Sourced(d.link, d.pend, got) && d.link.writer == l.writer
    decreases |p|
  {
    var s := NextSeq(l);
    if s in p && AppendResult(l,
                              p[s].w).Linked? { DrainSourced(Grow(l, p[s].w), Without(p, s), applied + [p[s].w], got); }
  }

  lemma ServeSourced(l: Link, p: Pending, tick: nat, w: Write, got: set<Write>)
    requires Sourced(l, p, got) && l.writer == w.writer
    ensures var d := Serve(l, p, tick, w); Sourced(d.link, d.pend, got + {w}) && d.link.writer == l.writer
  {
    if w.seqNo == NextSeq(l) && AppendResult(l, w).Linked? { DrainSourced(Grow(l, w), p, [w], got + {w}); }
  }

  lemma BeforeSourced(st: LedgerState, w: Write, got: set<Write>)
    requires AllSourced(st, got)
    ensures var l := ChainFor(st.chains, w);
            Sourced(l, Decayed(PendingFor(st.pending, w.writer), st.tick + 1), got) && l.writer == w.writer
  {
    if w.writer in st.chains { assert Sourced(st.chains[w.writer], st.pending[w.writer], got); }
  }

  lemma DeskSourced(st: LedgerState, w: Write, got: set<Write>, d: Desk)
    requires AllSourced(st, got) && d == DeskAfter(st, w)
    ensures Sourced(d.link, d.pend, got + {w}) && d.link.writer == w.writer
  {
    BeforeSourced(st, w, got);
    var l, p := ChainFor(st.chains, w), Decayed(PendingFor(st.pending, w.writer), st.tick + 1);
    assert d == Serve(l, p, st.tick + 1, w);
    ServeSourced(l, p, st.tick + 1, w, got);
  }

  lemma ApplySourced(st: LedgerState, w: Write, got: set<Write>)
    requires AllSourced(st, got)
    ensures AllSourced(Apply(st, w), got + {w})
  {
    var d, end := DeskAfter(st, w), Apply(st, w);
    DeskSourced(st, w, got, d);
    assert end.chains == st.chains[w.writer := d.link] && end.pending == st.pending[w.writer := d.pend];
    forall wr | wr in end.chains
      ensures end.chains[wr].writer == wr && Sourced(end.chains[wr], end.pending[wr], got + {w})
    {
      if wr != w.writer { assert Sourced(st.chains[wr], st.pending[wr], got); }
    }
  }

  /** Whatever arrives, in any order: each chain is a stretch, from the first seq on, of writes received that each
      verify and link onto the one before. */
  lemma {:induction false} ChainsStayWhole(ws: seq<Write>)
    ensures var st := ApplyAll(EMPTY, ws);
            && AllLinear(st) && AllFiled(st) && AllSourced(st, Elements(ws))
            && forall wr :: wr in st.chains ==> st.chains[wr].baseSeq == 0
    decreases |ws|
  {
    if |ws| > 0 {
      var k := |ws| - 1;
      ChainsStayWhole(ws[..k]);
      ApplyKeepsShape(ApplyAll(EMPTY, ws[..k]), ws[k]);
      ApplySourced(ApplyAll(EMPTY, ws[..k]), ws[k], Elements(ws[..k]));
      assert ws == ws[..k] + [ws[k]];
      assert Elements(ws[..k]) + {ws[k]} == Elements(ws);
    }
  }

  // ---------- what is reported ----------

  /** Another write is held, or waits, at this one's seq. */
  predicate Occupied(l: Link, p: Pending, w: Write) {
    w.seqNo >= l.baseSeq && Existing(l, p, w.seqNo).Some? && Existing(l, p, w.seqNo).value.id != w.id
  }

  lemma {:induction false} DrainAnswers(l: Link, p: Pending, applied: seq<Write>)
    ensures var d := Drain(l, p, applied);
            && |l.writes| <= |d.link.writes| && d.link.writes[..|l.writes|] == l.writes && d.link.baseSeq == l.baseSeq
            && (d.result.Took? || d.result.Refused?) && (d.result.Refused? <==> NextSeq(d.link) in p)
            && (d.result.Took? ==> d.result.applied == applied + d.link.writes[|l.writes|..])
    decreases |p|
  {
    var s := NextSeq(l);
    if s in p && AppendResult(l, p[s].w).Linked? {
      DrainAnswers(Grow(l, p[s].w), Without(p, s), applied + [p[s].w]);
      var d := Drain(l, p, applied);
      assert d.link.writes[..|l.writes|] == d.link.writes[..|l.writes| + 1][..|l.writes|];
      assert d.link.writes[|l.writes|..] == [p[s].w] + d.link.writes[|l.writes| + 1..];
    }
  }

  /** A pair at one seq is reported exactly when the first of the two is still there, and it changes nothing. */
  lemma ReportedIff(l: Link, p: Pending, tick: nat, w: Write, got: set<Write>)
    requires Linear(l) && Sourced(l, p, got) && l.writer == w.writer
    ensures var d := Serve(l, p, tick, w);
            && (d.result.Equivocation? <==> Occupied(l, p, w))
            && (d.result.Equivocation? ==>
                  && d.link == l && d.pend == p && d.result.other == w && d.result.held in got
                  && VerifyWrite(d.result.held) && d.result.held.writer == w.writer && d.result.held.seqNo == w.seqNo
                  && d.result.held.id != w.id)
  {
    if w.seqNo == NextSeq(l) && AppendResult(l, w).Linked? { DrainAnswers(Grow(l, w), p, [w]); }
    if Occupied(l, p, w) && w.seqNo < NextSeq(l) { assert FitsAt(l, w.seqNo - l.baseSeq); }
  }

  /** Two ledgers that hold different writes at one seq hold the proof between them: either reports it on hearing
      the other's. */
  lemma SplitIsEvidence(a: LedgerState, b: LedgerState, wr: string, s: nat)
    requires AllLinear(a) && AllLinear(b) && wr in a.chains && wr in b.chains
    requires At(a.chains[wr], s).Some? && At(b.chains[wr], s).Some?
    requires At(a.chains[wr], s).value.id != At(b.chains[wr], s).value.id
    ensures var x, y := At(a.chains[wr], s).value, At(b.chains[wr], s).value;
            && VerifyWrite(x) && VerifyWrite(y) && x.writer == y.writer == wr && x.seqNo == y.seqNo == s
            && DeskAfter(a, y).result == Equivocation(x, y) && DeskAfter(b, x).result == Equivocation(y, x)
            && Apply(a, y).chains == a.chains && Apply(b, x).chains == b.chains
  {
    assert FitsAt(a.chains[wr], s - a.chains[wr].baseSeq) && FitsAt(b.chains[wr], s - b.chains[wr].baseSeq);
  }

  /** Where no writer has two verified writes at one seq, all ledgers hold the same as far as both reach. */
  lemma NoForkNoSplit(p: seq<Write>, q: seq<Write>, wr: string, s: nat)
    requires forall x, y ::
               x in p && y in q && VerifyWrite(x) && VerifyWrite(y) && x.writer == y.writer && x.seqNo == y.seqNo ==>
               x == y
    requires var a, b := ApplyAll(EMPTY, p), ApplyAll(EMPTY, q);
             && wr in a.chains && wr in b.chains && At(a.chains[wr], s).Some? && At(b.chains[wr], s).Some?
    ensures At(ApplyAll(EMPTY, p).chains[wr], s) == At(ApplyAll(EMPTY, q).chains[wr], s)
  {
    var a, b := ApplyAll(EMPTY, p).chains[wr], ApplyAll(EMPTY, q).chains[wr];
    ChainsStayWhole(p);
    ChainsStayWhole(q);
    assert FitsAt(a, s) && FitsAt(b, s);
    assert a.writes[s] in a.writes && b.writes[s] in b.writes;
  }

  // ---------- what is not ----------

  /** A write that links is taken, but the answer says so only if the buffer holds no write at the seq where draining
      ends: one that does not link there is dropped, and its refusal is the answer. */
  lemma TakenIff(l: Link, p: Pending, tick: nat, w: Write)
    requires w.seqNo == NextSeq(l) && AppendResult(l, w).Linked? && w.seqNo !in p
    ensures var d := Serve(l, p, tick, w);
            && At(d.link, w.seqNo) == Some(w) && |l.writes| < |d.link.writes|
            && (d.result.Took? <==> NextSeq(d.link) !in p)
            && (d.result.Took? ==> d.result.applied == d.link.writes[|l.writes|..])
            && (!d.result.Took? ==> d.result.Refused?)
  {
    DrainAnswers(Grow(l, w), p, [w]);
    var d := Serve(l, p, tick, w);
    assert d.link.writes[..|l.writes| + 1] == Grow(l, w).writes;
    assert d.link.writes[|l.writes|] == d.link.writes[..|l.writes| + 1][|l.writes|];
  }

  /** For one input: the second write of a writer's other chain comes first and waits. The first write of this chain is
      then taken, and refused. */
  lemma TakenButRefused(w: Write, other: Write, tick: nat)
    requires VerifyWrite(w) && w.seqNo == 0 && w.prev.None?
    requires VerifyWrite(other) && other.writer == w.writer && other.plotRoot == w.plotRoot && other.seqNo == 1
    requires other.prev != Some(w.id)
    ensures var st := Apply(EMPTY, other);
            && DeskAfter(EMPTY, other).result == Buffered && DeskAfter(st, w).result == Refused(BadPrev)
            && Apply(st, w).chains[w.writer].writes == [w]
  {
    var st := Apply(EMPTY, other);
    var p := map[1 := Waiting(other, 1)];
    assert Decayed(st.pending[w.writer], 2) == p;
    var l := Grow(st.chains[w.writer], w);
    assert NextSeq(l) == 1 && AppendResult(l, other) == BadPrev;
    assert Drain(l, p, [w]) == Desk(l, Without(p, 1), Refused(BadPrev));
  }
}
