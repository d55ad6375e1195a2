/** The multi-writer ledger as a value: out-of-order buffering, draining, decay, and resuming above a
    checkpoint (src/ledger/ledger.ts). */
module LedgerSpec {
  import opened Primitives
  import opened Ops
  import opened Anchors
  import opened Writers

  const PENDING_MAX_AGE: nat := 1024

  /** A verified write ahead of its writer's tip, and the tick it came in at. */
  datatype Waiting = Waiting(w: Write, tick: nat)

  type Pending = map<nat, Waiting>

  datatype LedgerState = LedgerState(chains: map<string, Link>, pending: map<string, Pending>, tick: nat)

  datatype ApplyResult =
    | Took(applied: seq<Write>)
    | Buffered
    | Equivocation(held: Write, other: Write)
    | Refused(why: Appended)

  /** Buffered writes are filed under their own seq. */
  ghost predicate Filed(p: Pending) {
    forall s :: s in p ==> p[s].w.seqNo == s
  }

  ghost predicate EachFiled(pending: map<string, Pending>) {
    forall wr :: wr in pending ==> Filed(pending[wr])
  }

  lemma SetFiled(pending: map<string, Pending>, wr: string, p: Pending)
    requires EachFiled(pending) && Filed(p)
    ensures EachFiled(pending[wr := p])
  {
  }

  function Decayed(p: Pending, tick: nat): Pending {
    map s | s in p && tick <= p[s].tick + PENDING_MAX_AGE :: p[s]
  }

  /** Chain, buffer and answer after one writer's share of an `apply`. */
  datatype Desk = Desk(link: Link, pend: Pending, result: ApplyResult)

  function Drain(l: Link, p: Pending, applied: seq<Write>): Desk
    decreases |p|
  {
    var s := NextSeq(l);
    if s !in p then Desk(l, p, Took(applied))
    else
      var next := p[s].w;
      var rest := Without(p, s);
      var r := AppendResult(l, next);
      if r.Linked? then Drain(Grow(l, next), rest, applied + [next])
      else Desk(l, rest, Refused(r))
  }

  function Without(p: Pending, s: nat): (rest: Pending)
    ensures s in p ==> |rest| < |p|
  {
    var rest := map k | k in p && k != s :: p[k];
    assert rest.Keys == p.Keys - {s} && |rest.Keys| == |rest| && |p.Keys| == |p|;
    rest
  }

  function Existing(l: Link, p: Pending, s: nat): Option<Write> {
    if s < NextSeq(l) then At(l, s) else if s in p then Some(p[s].w) else None
  }

  function Serve(l: Link, p: Pending, tick: nat, w: Write): Desk {
    if w.seqNo < l.baseSeq then Desk(l, p, Took([]))
    else if Existing(l, p, w.seqNo).Some? then
      var held := Existing(l, p, w.seqNo).value;
      Desk(l, p, if held.id == w.id then Took([]) else Equivocation(held, w))
    else if w.seqNo > NextSeq(l) then
      (if VerifyWrite(w) then Desk(l, p[w.seqNo := Waiting(w, tick)], Buffered) else Desk(l, p, Refused(Invalid)))
    else
      var r := AppendResult(l, w);
      if r.Linked? then Drain(Grow(l, w), p, [w]) else Desk(l, p, Refused(r))
  }

  function ChainFor(chains: map<string, Link>, w: Write): Link {
    if w.writer in chains then chains[w.writer] else Link(w.writer, Some(w.plotRoot), 0, None, [])
  }

  function PendingFor(pending: map<string, Pending>, wr: string): Pending {
    if wr in pending then pending[wr] else map[]
  }

  function DeskAfter(st: LedgerState, w: Write): Desk {
    Serve(ChainFor(st.chains, w), Decayed(PendingFor(st.pending, w.writer), st.tick + 1), st.tick + 1, w)
  }

  function Apply(st: LedgerState, w: Write): LedgerState {
    var d := DeskAfter(st, w);
    LedgerState(st.chains[w.writer := d.link], st.pending[w.writer := d.pend], st.tick + 1)
  }

  function ApplyAll(st: LedgerState, ws: seq<Write>): LedgerState
    decreases |ws|
  {
    if |ws| == 0 then st else Apply(ApplyAll(st, ws[..|ws| - 1]), ws[|ws| - 1])
  }

  const EMPTY: LedgerState := LedgerState(map[], map[], 0)

  function HeadsIn(st: LedgerState): Heads {
    map wr | wr in st.chains && HeadId(st.chains[wr]).Some? && 0 < NextSeq(st.chains[wr]) ::
      Head(HeadId(st.chains[wr]).value, NextSeq(st.chains[wr]) - 1)
  }

  /** Every write the ledger holds. */
  ghost function WritesIn(st: LedgerState): set<Write> {
    set wr, w | wr in st.chains && w in st.chains[wr].writes :: w
  }

  // ---------- what every run keeps ----------

  /** The valid linear chain each writer really wrote. */
  type Truth = map<string, seq<Write>>

  ghost predicate GenuineAt(ws: seq<Write>, wr: string, i: nat)
    requires i < |ws|
  {
    && ws[i].writer == wr && ws[i].seqNo == i && VerifyWrite(ws[i]) && ws[i].plotRoot == ws[0].plotRoot
    && ws[i].prev == (if i == 0 then None else Some(ws[i - 1].id))
  }

  ghost predicate AllGenuine(ws: seq<Write>, wr: string) {
    forall i {:trigger GenuineAt(ws, wr, i)} :: 0 <= i < |ws| ==> GenuineAt(ws, wr, i)
  }

  ghost predicate Genuine(truth: Truth) {
    forall wr, i {:trigger GenuineAt(truth[wr], wr, i)} :: wr in truth && 0 <= i < |truth[wr]| ==>
      GenuineAt(truth[wr], wr, i)
  }

  ghost predicate Written(truth: Truth, w: Write) {
    w.writer in truth && w.seqNo < |truth[w.writer]| && truth[w.writer][w.seqNo] == w
  }

  /** A chain holding exactly `ws` from its base up to somewhere. */
  ghost predicate Holds(l: Link, ws: seq<Write>, wr: string, base: nat) {
    && l.writer == wr && l.baseSeq == base && NextSeq(l) <= |ws|
    && (forall i :: 0 <= i < |l.writes| ==> l.writes[i] == ws[base + i])
    && l.baseHead == (if base == 0 then None else Some(ws[base - 1].id))
    && (l.plot.Some? ==> |ws| > 0 ==> l.plot.value == ws[0].plotRoot)
  }

  ghost predicate Ahead(l: Link, p: Pending, ws: seq<Write>) {
    forall s :: s in p ==> NextSeq(l) < s < |ws| && p[s].w == ws[s]
  }

  lemma HeldHead(l: Link, ws: seq<Write>, wr: string, base: nat)
    requires Holds(l, ws, wr, base)
    ensures HeadId(l) == if NextSeq(l) == 0 then None else Some(ws[NextSeq(l) - 1].id)
  {
  }

  /** The next genuine write always links. */
  lemma NextLinks(l: Link, ws: seq<Write>, wr: string, base: nat)
    requires Holds(l, ws, wr, base) && NextSeq(l) < |ws|
    requires GenuineAt(ws, wr, NextSeq(l))
    ensures AppendResult(l, ws[NextSeq(l)]) == Linked && Holds(Grow(l, ws[NextSeq(l)]), ws, wr, base)
  {
    HeldHead(l, ws, wr, base);
  }

  /** Buffered writes at or past the tip, each the true one. */
  ghost predicate Waits(l: Link, p: Pending, ws: seq<Write>) {
    forall s :: s in p ==> NextSeq(l) <= s < |ws| && p[s].w == ws[s]
  }

  /** Draining takes exactly the buffered writes up to the first gap. */
  ghost predicate Drained(l: Link, p: Pending, d: Desk) {
    && NextSeq(l) <= NextSeq(d.link)
    && (forall s :: s in d.pend ==> s in p)
    && (forall s :: NextSeq(l) <= s < NextSeq(d.link) ==> s in p)
    && (forall s :: s in p ==> s < NextSeq(d.link) || s in d.pend)
  }

  lemma {:induction false} DrainHolds(l: Link, p: Pending, applied: seq<Write>, ws: seq<Write>, wr: string, base: nat,
                                      d: Desk)
    requires Holds(l, ws, wr, base) && AllGenuine(ws, wr) && Waits(l, p, ws) && d == Drain(l, p, applied)
    ensures Holds(d.link, ws, wr, base) && Ahead(d.link, d.pend, ws) && Drained(l, p, d)
    decreases |p|
  {
    var s := NextSeq(l);
    if s in p {
      DrainStep(l, p, ws, wr, base);
      DrainHolds(Grow(l, ws[s]), Without(p, s), applied + [ws[s]], ws, wr, base, d);
      DrainedOneMore(l, Grow(l, ws[s]), p, d);
    }
  }

  lemma DrainedOneMore(l: Link, grown: Link, p: Pending, d: Desk)
    requires NextSeq(l) in p && NextSeq(grown) == NextSeq(l) + 1 && Drained(grown, Without(p, NextSeq(l)), d)
    ensures Drained(l, p, d)
  {
    var rest := Without(p, NextSeq(l));
    forall s | NextSeq(l) <= s < NextSeq(d.link) ensures s in p { assert s == NextSeq(l) || s in rest; }
    forall s | s in p ensures s < NextSeq(d.link) || s in d.pend { assert s == NextSeq(l) || s in rest; }
  }

  lemma DrainStep(l: Link, p: Pending, ws: seq<Write>, wr: string, base: nat)
    requires Holds(l, ws, wr, base) && AllGenuine(ws, wr) && Waits(l, p, ws) && NextSeq(l) in p
    ensures var w := ws[NextSeq(l)];
            && p[NextSeq(l)].w == w && AppendResult(l, w) == Linked && Holds(Grow(l, w), ws, wr, base)
            && Waits(Grow(l, w), Without(p, NextSeq(l)), ws) && NextSeq(Grow(l, w)) == NextSeq(l) + 1
  {
    assert GenuineAt(ws, wr, NextSeq(l));
    NextLinks(l, ws, wr, base);
  }

  function BaseOf(base: map<string, nat>, wr: string): nat {
    if wr in base then base[wr] else 0
  }

  /** One writer's chain and buffer: a stretch of the truth from the base, the rest strictly ahead of
      it, and all of it received. */
  ghost predicate SaneAt(l: Link, p: Pending, ws: seq<Write>, wr: string, base: nat, got: set<Write>) {
    && base <= |ws| && Holds(l, ws, wr, base) && Ahead(l, p, ws)
    && (forall s :: base <= s < NextSeq(l) ==> ws[s] in got)
    && (forall s :: s in p ==> ws[s] in got)
  }

  ghost predicate Sane(st: LedgerState, truth: Truth, base: map<string, nat>, got: set<Write>) {
    && st.chains.Keys == st.pending.Keys && st.chains.Keys <= truth.Keys
    && (forall wr :: wr in base ==> wr in st.chains)
    && forall wr :: wr in st.chains ==> SaneAt(st.chains[wr], st.pending[wr], truth[wr], wr, BaseOf(base, wr), got)
  }

  ghost predicate Kept(st: LedgerState, w: Write) {
    && w.writer in st.chains && w.writer in st.pending
    && (w.seqNo < NextSeq(st.chains[w.writer]) || w.seqNo in st.pending[w.writer])
  }

  /** Nothing received was lost. */
  ghost predicate Complete(st: LedgerState, got: set<Write>) {
    forall w :: w in got ==> Kept(st, w)
  }

  /** The next apply for this writer drops no buffered entry. */
  ghost predicate NoDecay(st: LedgerState, w: Write) {
    Decayed(PendingFor(st.pending, w.writer), st.tick + 1) == PendingFor(st.pending, w.writer)
  }

  /** What serving `w` leaves: the chain and buffer stay sane, `w` is kept, and so is all else. */
  ghost predicate Served(d: Desk, l: Link, p: Pending, w: Write, ws: seq<Write>, base: nat, got: set<Write>) {
    && SaneAt(d.link, d.pend, ws, w.writer, base, got + {w}) && NextSeq(l) <= NextSeq(d.link)
    && (w.seqNo < NextSeq(d.link) || w.seqNo in d.pend)
    && (forall s :: s in p ==> s < NextSeq(d.link) || s in d.pend)
  }

  lemma ServeHolds(l: Link, p: Pending, tick: nat, w: Write, ws: seq<Write>, base: nat, got: set<Write>, d: Desk)
    requires d == Serve(l, p, tick, w)
    requires AllGenuine(ws, w.writer)
    requires w.seqNo < |ws| && ws[w.seqNo] == w && SaneAt(l, p, ws, w.writer, base, got)
    ensures Served(d, l, p, w, ws, base, got)
  {
    var next := NextSeq(l);
    if w.seqNo > next && w.seqNo !in p {
      assert GenuineAt(ws, w.writer, w.seqNo);
    } else if w.seqNo == next {
      assert GenuineAt(ws, w.writer, next);
      NextLinks(l, ws, w.writer, base);
      DrainHolds(Grow(l, w), p, [w], ws, w.writer, base, d);
    }
  }

  lemma SaneMore(l: Link, p: Pending, ws: seq<Write>, wr: string, base: nat, got: set<Write>, w: Write)
    requires SaneAt(l, p, ws, wr, base, got)
    ensures SaneAt(l, p, ws, wr, base, got + {w})
  {
  }

  lemma SaneDesk(st: LedgerState, truth: Truth, base: map<string, nat>, got: set<Write>, w: Write)
    requires Genuine(truth) && Written(truth, w) && Sane(st, truth, base, got)
    ensures SaneAt(ChainFor(st.chains, w), Decayed(PendingFor(st.pending, w.writer), st.tick + 1), truth[w.writer],
                   w.writer, BaseOf(base, w.writer), got)
  {
    if w.writer !in st.chains {
      assert GenuineAt(truth[w.writer], w.writer, w.seqNo);
    }
  }

  lemma DeskKeeps(st: LedgerState, truth: Truth, base: map<string, nat>, got: set<Write>, w: Write)
    requires Genuine(truth) && Written(truth, w) && Sane(st, truth, base, got)
    ensures Served(DeskAfter(st, w), ChainFor(st.chains, w), Decayed(PendingFor(st.pending, w.writer), st.tick + 1), w,
                   truth[w.writer], BaseOf(base, w.writer), got)
  {
    SaneDesk(st, truth, base, got, w);
    GenuineOne(truth, w.writer);
    ServeHolds(ChainFor(st.chains, w), Decayed(PendingFor(st.pending, w.writer), st.tick + 1), st.tick + 1, w,
               truth[w.writer], BaseOf(base, w.writer), got, DeskAfter(st, w));
  }

  lemma GenuineOne(truth: Truth, wr: string)
    requires Genuine(truth) && wr in truth
    ensures AllGenuine(truth[wr], wr)
  {
  }

  lemma ApplyKeeps(st: LedgerState, truth: Truth, base: map<string, nat>, got: set<Write>, w: Write)
    requires Genuine(truth) && Written(truth, w) && Sane(st, truth, base, got)
    ensures Sane(Apply(st, w), truth, base, got + {w})
  {
    DeskKeeps(st, truth, base, got, w);
    var st' := Apply(st, w);
    forall wr | wr in st'.chains
      ensures SaneAt(st'.chains[wr], st'.pending[wr], truth[wr], wr, BaseOf(base, wr), got + {w})
    {
      if wr != w.writer { SaneMore(st.chains[wr], st.pending[wr], truth[wr], wr, BaseOf(base, wr), got, w); }
    }
  }

  lemma ApplyLosesNothing(st: LedgerState, truth: Truth, base: map<string, nat>, got: set<Write>, w: Write)
    requires Genuine(truth) && Written(truth, w) && Sane(st, truth, base, got)
    requires Complete(st, got) && NoDecay(st, w)
    ensures Complete(Apply(st, w), got + {w})
  {
    DeskKeeps(st, truth, base, got, w);
    var d := DeskAfter(st, w);
    forall v | v in got + {w} ensures Kept(Apply(st, w), v) {
      if v != w { assert Kept(st, v); }
    }
  }

  ghost predicate NoDecayAlong(st: LedgerState, ws: seq<Write>)
    decreases |ws|
  {
    |ws| == 0 || (NoDecayAlong(st, ws[..|ws| - 1]) && NoDecay(ApplyAll(st, ws[..|ws| - 1]), ws[|ws| - 1]))
  }

  lemma {:induction false} RunKeeps(st: LedgerState, truth: Truth, base: map<string, nat>, ws: seq<Write>)
    requires Genuine(truth) && Sane(st, truth, base, {}) && forall w :: w in ws ==> Written(truth, w)
    ensures Sane(ApplyAll(st, ws), truth, base, Elements(ws))
    ensures NoDecayAlong(st, ws) ==> Complete(ApplyAll(st, ws), Elements(ws))
    ensures forall wr :: wr in ApplyAll(st, ws).chains ==> wr in st.chains || exists w :: w in ws && w.writer == wr
    decreases |ws|
  {
    if |ws| > 0 {
      var k := |ws| - 1;
      assert ws == ws[..k] + [ws[k]];
      RunKeeps(st, truth, base, ws[..k]);
      ApplyKeeps(ApplyAll(st, ws[..k]), truth, base, Elements(ws[..k]), ws[k]);
      if NoDecayAlong(st, ws) {
        ApplyLosesNothing(ApplyAll(st, ws[..k]), truth, base, Elements(ws[..k]), ws[k]);
      }
      assert Elements(ws[..k]) + {ws[k]} == Elements(ws);
    } else {
      assert Elements(ws) == {};
    }
  }

  /** Where a writer's held chain ends: at the first seq from the base up that was not received. */
  ghost predicate FirstMissing(ws: seq<Write>, base: nat, got: set<Write>, n: nat) {
    && base <= n <= |ws| && (n < |ws| ==> ws[n] !in got)
    && forall s :: base <= s < n ==> ws[s] in got
  }

  lemma FirstMissingUnique(ws: seq<Write>, base: nat, got: set<Write>, m: nat, n: nat)
    requires FirstMissing(ws, base, got, m) && FirstMissing(ws, base, got, n)
    ensures m == n
  {
  }

  /** A writer's chain runs exactly to the first gap in what was received, and exactly what was
      received past the gap is buffered. */
  ghost predicate ExactlyReceived(st: LedgerState, wr: string, ws: seq<Write>, base: nat, got: set<Write>)
    requires wr in st.chains
  {
    && wr in st.pending && Holds(st.chains[wr], ws, wr, base) && FirstMissing(ws, base, got, NextSeq(st.chains[wr]))
    && (forall s :: s in st.pending[wr] <==> NextSeq(st.chains[wr]) < s < |ws| && ws[s] in got)
    && (forall s :: s in st.pending[wr] ==> st.pending[wr][s].w == ws[s])
  }

  lemma Exact(st: LedgerState, truth: Truth, base: map<string, nat>, got: set<Write>, wr: string)
    requires Genuine(truth) && Sane(st, truth, base, got) && Complete(st, got) && wr in st.chains
    ensures ExactlyReceived(st, wr, truth[wr], BaseOf(base, wr), got)
  {
    var ws := truth[wr];
    forall s | 0 <= s < |ws| && ws[s] in got
      ensures s < NextSeq(st.chains[wr]) || s in st.pending[wr]
    {
      assert GenuineAt(ws, wr, s);
      assert Kept(st, ws[s]);
    }
  }

  /** Arrival order does not matter: this is the state after any order, with repeats, in which no
      buffered entry decays. */
  lemma ArrivalOrder(st: LedgerState, truth: Truth, base: map<string, nat>, ws: seq<Write>)
    requires Genuine(truth) && Sane(st, truth, base, {}) && forall w :: w in ws ==> Written(truth, w)
    requires NoDecayAlong(st, ws)
    ensures var end := ApplyAll(st, ws);
            && (forall wr :: wr in end.chains <==> wr in st.chains || exists w :: w in ws && w.writer == wr)
            && forall wr :: wr in end.chains ==>
                 wr in truth && ExactlyReceived(end, wr, truth[wr], BaseOf(base, wr), Elements(ws))
  {
    RunKeeps(st, truth, base, ws);
    var end := ApplyAll(st, ws);
    forall wr | wr in st.chains ensures wr in end.chains { ChainsStay(st, ws, wr); }
    forall w | w in ws ensures w.writer in end.chains {
      assert w in Elements(ws) && Kept(end, w);
    }
    forall wr | wr in end.chains ensures ExactlyReceived(end, wr, truth[wr], BaseOf(base, wr), Elements(ws)) {
      Exact(end, truth, base, Elements(ws), wr);
    }
  }

  lemma {:induction false} ChainsStay(st: LedgerState, ws: seq<Write>, wr: string)
    requires wr in st.chains
    ensures wr in ApplyAll(st, ws).chains
    decreases |ws|
  {
    if |ws| > 0 { ChainsStay(st, ws[..|ws| - 1], wr); }
  }

  /** The state root depends only on the set of writes received. */
  lemma RootFromSet(st: LedgerState, truth: Truth, base: map<string, nat>, p: seq<Write>, q: seq<Write>)
    requires Genuine(truth) && Sane(st, truth, base, {}) && Elements(p) == Elements(q)
    requires forall w :: w in p ==> Written(truth, w)
    requires NoDecayAlong(st, p) && NoDecayAlong(st, q)
    ensures HeadsIn(ApplyAll(st, p)) == HeadsIn(ApplyAll(st, q))
  {
    forall w | w in q ensures w in p { assert w in Elements(q); }
    forall w | w in p ensures w in q { assert w in Elements(p); }
    ArrivalOrder(st, truth, base, p);
    ArrivalOrder(st, truth, base, q);
    var a, b := ApplyAll(st, p), ApplyAll(st, q);
    assert Elements(p) == Elements(q);
    forall wr | wr in truth
      ensures exists n :: HeldUpTo(a, truth, wr, n) && HeldUpTo(b, truth, wr, n)
    {
      SameTip(a, b, truth, wr, BaseOf(base, wr), BaseOf(base, wr), Elements(p), Elements(q));
    }
    SameHeads(a, b, truth);
  }

  /** The base a ledger resumed from does not show in where its chain ends. */
  lemma SameTip(a: LedgerState, b: LedgerState, truth: Truth, wr: string, baseA: nat, baseB: nat, gotA: set<Write>,
                gotB: set<Write>)
    requires wr in truth
    requires wr in a.chains ==> ExactlyReceived(a, wr, truth[wr], baseA, gotA)
    requires wr in b.chains ==> ExactlyReceived(b, wr, truth[wr], baseB, gotB)
    requires wr in a.chains <==> wr in b.chains
    requires baseA == baseB && gotA == gotB
    ensures exists n :: HeldUpTo(a, truth, wr, n) && HeldUpTo(b, truth, wr, n)
  {
    if wr in a.chains {
      HeadOfHolds(a, truth, wr, baseA);
      HeadOfHolds(b, truth, wr, baseB);
      FirstMissingUnique(truth[wr], baseA, gotA, NextSeq(a.chains[wr]), NextSeq(b.chains[wr]));
    } else {
      assert HeldUpTo(a, truth, wr, 0) && HeldUpTo(b, truth, wr, 0);
    }
  }

  /** A writer's head, as the truth has it. */
  ghost function HeadAt(ws: seq<Write>, n: nat): Option<Head>
    requires n <= |ws|
  {
    if n == 0 then None else Some(Head(ws[n - 1].id, n - 1))
  }

  ghost predicate HeldUpTo(st: LedgerState, truth: Truth, wr: string, n: nat) {
    && wr in truth && n <= |truth[wr]|
    && (if wr in HeadsIn(st) then Some(HeadsIn(st)[wr]) else None) == HeadAt(truth[wr], n)
  }

  lemma HeadOfHolds(st: LedgerState, truth: Truth, wr: string, base: nat)
    requires wr in truth && wr in st.chains && Holds(st.chains[wr], truth[wr], wr, base)
    ensures HeldUpTo(st, truth, wr, NextSeq(st.chains[wr]))
  {
    HeldHead(st.chains[wr], truth[wr], wr, base);
  }

  lemma SameHeads(a: LedgerState, b: LedgerState, truth: Truth)
    requires a.chains.Keys <= truth.Keys && b.chains.Keys <= truth.Keys
    requires forall wr :: wr in truth ==> exists n :: HeldUpTo(a, truth, wr, n) && HeldUpTo(b, truth, wr, n)
    ensures HeadsIn(a) == HeadsIn(b)
  {
    forall wr | wr in HeadsIn(a) || wr in HeadsIn(b)
      ensures wr in HeadsIn(a) && wr in HeadsIn(b) && HeadsIn(a)[wr] == HeadsIn(b)[wr]
    {
      var n :| HeldUpTo(a, truth, wr, n) && HeldUpTo(b, truth, wr, n);
    }
  }
}
