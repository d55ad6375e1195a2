/** The ledger held in memory (Ledger in src/ledger/ledger.ts). */
module Ledgers {
  import opened Primitives
  import opened Ops
  import opened Anchors
  import opened Writers
  import opened LedgerSpec
  import opened LedgerPrune
  import opened LedgerSeed

  class Ledger {
    const unit: nat
    var chains: map<string, WriterChain>
    var pending: map<string, Pending>
    var tick: nat
    ghost var repr: set<WriterChain>

    ghost predicate Owned()
      reads this`chains, this`repr
    {
      forall wr :: wr in chains ==> chains[wr] in repr && chains[wr].writer == wr && chains[wr].unit == unit
    }

    ghost predicate ChainsValid()
      requires Owned()
      reads this`chains, this`repr, repr
    {
      forall wr :: wr in chains ==> chains[wr].Valid()
    }

    ghost predicate Buffers()
      reads this`chains, this`pending
    {
      chains.Keys == pending.Keys && EachFiled(pending)
    }

    ghost predicate Valid()
      reads this, repr
    {
      Owned() && ChainsValid() && Buffers()
    }

    ghost function Links(): map<string, Link>
      requires Owned()
      reads this`chains, this`repr, repr
    {
      map wr | wr in chains :: chains[wr].Value()
    }

    ghost function State(): LedgerState
      requires Owned()
      reads this, repr
    {
      LedgerState(Links(), pending, tick)
    }

    constructor (unit: nat)
      ensures Valid() && State() == EMPTY && repr == {}
    {
      this.unit := unit;
      chains, pending, tick, repr := map[], map[], 0, {};
    }

    method Install(wr: string, c: WriterChain, ghost next: map<string, Link>)
      requires Owned() && ChainsValid() && c.Valid() && c.writer == wr && c.unit == unit
                 && next == Links()[wr := c.Value()]
      modifies this`chains, this`repr
      ensures Owned() && ChainsValid() && chains == old(chains)[wr := c] && repr == old(repr) + {c} && Links() == next
    {
      SetChain(wr, c, next);
    }

    method SetChain(wr: string, c: WriterChain, ghost next: map<string, Link>)
      requires Owned() && c.writer == wr && c.unit == unit && next == Links()[wr := c.Value()]
      modifies this`chains, this`repr
      ensures Owned() && chains == old(chains)[wr := c] && repr == old(repr) + {c} && Links() == next
    {
      repr := repr + {c};
      chains := chains[wr := c];
    }

    /** The writer's chain and buffer, made on the spot for a writer not seen before. */
    method Open(w: Write) returns (c: WriterChain)
      requires Valid()
      modifies this`chains, this`pending, this`repr
      ensures Valid() && w.writer in chains && chains[w.writer] == c && fresh(repr - old(repr))
      ensures c.Value() == ChainFor(old(Links()), w)
      ensures Links() == old(Links())[w.writer := c.Value()]
      ensures pending == old(pending)[w.writer := PendingFor(old(pending), w.writer)]
    {
      if w.writer in chains {
        c := chains[w.writer];
        SetSame(Links(), w.writer);
        SetSame(pending, w.writer);
      } else {
        c := Create(w.writer, Some(w.plotRoot), 0, None);
        SetFiled(pending, w.writer, map[]);
        SetBuffers(pending[w.writer := map[]]);
      }
    }

    method Create(wr: string, plot: Option<string>, baseSeq: nat, baseHead: Option<Id>) returns (c: WriterChain)
      requires Owned() && ChainsValid()
      modifies this`chains, this`repr
      ensures Owned() && ChainsValid() && chains == old(chains)[wr := c] && fresh(repr - old(repr))
      ensures c.Value() == Link(wr, plot, baseSeq, baseHead, [])
      ensures Links() == old(Links())[wr := c.Value()]
    {
      ghost var links := Links();
      c := new WriterChain(wr, plot, unit, baseSeq, baseHead);
      assert Links() == links;
      Install(wr, c, links[wr := c.Value()]);
    }

    method Tick()
      requires Valid()
      modifies this`tick
      ensures Valid() && Links() == old(Links()) && tick == old(tick) + 1
    {
      tick := tick + 1;
    }

    method SetBuffers(bufs: map<string, Pending>)
      requires Owned() && ChainsValid() && chains.Keys == bufs.Keys && EachFiled(bufs)
      modifies this`pending
      ensures Valid() && Links() == old(Links()) && pending == bufs
    {
      pending := bufs;
    }

    static method DecayBuffer(p: Pending, tick: nat) returns (q: Pending)
      ensures q == Decayed(p, tick)
    {
      q := p;
      var todo := p.Keys;
      while todo != {}
        invariant todo <= p.Keys && q.Keys <= p.Keys
        invariant forall s :: s in p ==> (s in q <==> s in todo || tick <= p[s].tick + PENDING_MAX_AGE)
        invariant forall s :: s in q ==> q[s] == p[s]
        decreases todo
      {
        var s :| s in todo;
        if tick > q[s].tick + PENDING_MAX_AGE { q := q - {s}; }
        todo := todo - {s};
      }
    }

    /** Link everything buffered that the last append unblocked. */
    static method DrainBuffer(c: WriterChain, p0: Pending, first: Write) returns (p: Pending, r: ApplyResult)
      requires c.Valid() && Filed(p0)
      modifies c
      ensures c.Valid() && Filed(p)
      ensures Desk(c.Value(), p, r) == Drain(old(c.Value()), p0, [first])
    {
      p := p0;
      var applied := [first];
      while NextSeq(c.Value()) in p
        invariant c.Valid() && Filed(p)
        invariant Drain(old(c.Value()), p0, [first]) == Drain(c.Value(), p, applied)
        decreases |p|
      {
        var s := NextSeq(c.Value());
        var next := p[s].w;
        p := Without(p, s);
        var rr := c.Append(next);
        if rr != Linked { return p, Refused(rr); }
        applied := applied + [next];
      }
      r := Took(applied);
    }

    static method ServeOn(c: WriterChain, p0: Pending, tick: nat, w: Write) returns (p: Pending, r: ApplyResult)
      requires c.Valid() && Filed(p0)
      modifies c
      ensures c.Valid() && Filed(p)
      ensures Desk(c.Value(), p, r) == Serve(old(c.Value()), p0, tick, w)
    {
      p := p0;
      if w.seqNo < c.baseSeq { return p, Took([]); }
      var next := NextSeq(c.Value());
      var held := if w.seqNo < next then At(c.Value(), w.seqNo) else if w.seqNo in p then Some(p[w.seqNo].w) else None;
      if held.Some? {
        return p, if held.value.id == w.id then Took([]) else Equivocation(held.value, w);
      }
      if w.seqNo > next {
        if !VerifyWrite(w) { return p, Refused(Invalid); }
        return p[w.seqNo := Waiting(w, tick)], Buffered;
      }
      var a := c.Append(w);
      if a != Linked { return p, Refused(a); }
      p, r := DrainBuffer(c, p, w);
    }

    method ServeIn(c: WriterChain, p0: Pending, w: Write, ghost d: Desk) returns (p: Pending, r: ApplyResult)
      requires d == Serve(c.Value(), p0, tick, w)
      requires Owned() && ChainsValid() && w.writer in chains && chains[w.writer] == c && Filed(p0)
      modifies c
      ensures ChainsValid() && Filed(p)
      ensures Links() == old(Links())[w.writer := d.link] && p == d.pend && r == d.result
    {
      p, r := ServeOn(c, p0, tick, w);
    }

    method Step(c: WriterChain, w: Write, p0: Pending, ghost d: Desk) returns (r: ApplyResult)
      requires Valid() && w.writer in chains && chains[w.writer] == c && Filed(p0)
      requires d == Serve(c.Value(), p0, tick, w)
      modifies c, this`pending
      ensures Valid()
      ensures r == d.result && Links() == old(Links())[w.writer := d.link]
                && pending == old(pending)[w.writer := d.pend]
    {
      var p;
      p, r := ServeIn(c, p0, w, d);
      SetFiled(pending, w.writer, p);
      SetBuffers(pending[w.writer := p]);
    }

    /** Append in order, buffer ahead of the tip, expose equivocation. */
    method Apply(w: Write) returns (r: ApplyResult)
      requires Valid()
      modifies this, repr
      ensures Valid() && fresh(repr - old(repr))
      ensures State() == LedgerSpec.Apply(old(State()), w) && r == DeskAfter(old(State()), w).result
    {
      ghost var st := State();
      var c, p := OpenDesk(w, st);
      r := Step(c, w, p, DeskAfter(st, w));
      Settle(st, w, DeskAfter(st, w), Links(), pending, tick);
    }

    /** The writer's chain, and its buffer with the stale entries dropped. */
    method OpenDesk(w: Write, ghost st: LedgerState) returns (c: WriterChain, p: Pending)
      requires Valid() && st == State()
      modifies this`chains, this`pending, this`repr, this`tick
      ensures Valid() && tick == st.tick + 1 && w.writer in chains && chains[w.writer] == c && fresh(repr - old(repr))
                && Filed(p)
      ensures Links() == st.chains[w.writer := ChainFor(st.chains, w)]
      ensures pending == st.pending[w.writer := PendingFor(st.pending, w.writer)]
      ensures DeskAfter(st, w) == Serve(c.Value(), p, tick, w)
    {
      Tick();
      c := Open(w);
      p := DecayBuffer(pending[w.writer], tick);
      DeskFrom(st, w, c.Value(), PendingFor(st.pending, w.writer), tick);
    }

    // ---------- reads ----------

    method IdAt(wr: string, s: int) returns (id: Option<Id>)
      requires Valid()
      ensures id == if wr !in chains then None
                    else if s == chains[wr].baseSeq - 1 then chains[wr].baseHeadId
                    else if s < 0 || At(Links()[wr], s).None? then None
                    else Some(At(Links()[wr], s).value.id)
    {
      if wr !in chains { return None; }
      var c := chains[wr];
      if s == c.baseSeq - 1 { return c.baseHeadId; }
      if s < 0 { return None; }
      var w := c.AtSeq(s);
      id := if w.Some? then Some(w.value.id) else None;
    }

    method WritesFrom(wr: string, fromSeq: nat) returns (ws: seq<Write>)
      requires Valid()
      ensures wr !in chains ==> ws == []
      ensures wr in chains ==> exists k :: 0 <= k <= |chains[wr].writes| && ws == chains[wr].writes[k..]
      ensures wr in chains ==> forall w :: w in ws <==> w in chains[wr].writes && fromSeq <= w.seqNo
    {
      if wr !in chains { return []; }
      var c := chains[wr];
      var skip := if fromSeq < c.baseSeq then 0 else fromSeq - c.baseSeq;
      SeqsOfLinear(c.Value());
      var k := if skip <= |c.writes| then skip else |c.writes|;
      ws := c.writes[k..];
    }

    /** Current head of every writer with a known tip. The state root is a hash of it. */
    method HeadsNow() returns (heads: Heads)
      requires Valid()
      ensures heads == HeadsIn(State())
    {
      HeadsHeld();
      ghost var st := State();
      heads := GatherHeads(HeadsIn(st));
      assert State() == st;
    }

    lemma HeadsHeld()
      requires Valid()
      ensures HeadsIn(State()).Keys <= chains.Keys
      ensures forall wr :: wr in chains ==>
                HeadOf(chains[wr].Value()) == if wr in HeadsIn(State()) then Some(HeadsIn(State())[wr]) else None
    {
      forall wr | wr in chains
        ensures HeadOf(chains[wr].Value()) == if wr in HeadsIn(State()) then Some(HeadsIn(State())[wr]) else None
      {
        TipIs(State(), wr, chains[wr].Value());
      }
    }

    method GatherHeads(ghost all: Heads) returns (heads: Heads)
      requires all.Keys <= chains.Keys
      requires forall wr :: wr in chains ==> HeadOf(chains[wr].Value()) == if wr in all then Some(all[wr]) else None
      ensures heads == all
    {
      heads := map[];
      var todo := chains.Keys;
      while todo != {}
        invariant todo <= chains.Keys
        invariant forall wr :: wr in heads <==> wr in all && wr !in todo
        invariant forall wr :: wr in heads ==> heads[wr] == all[wr]
        decreases todo
      {
        var wr :| wr in todo;
        var h := HeadOf(chains[wr].Value());
        if h.Some? { heads := heads[wr := h.value]; }
        todo := todo - {wr};
      }
    }

    /** Every applied write held, across all writers, each once. */
    method AllWrites() returns (ws: seq<Write>)
      requires Valid()
      ensures Elements(ws) == WritesIn(State())
      ensures forall i, j :: 0 <= i < j < |ws| ==> ws[i] != ws[j]
    {
      ws := Gather();
      forall w ensures w in ws <==> w in WritesIn(State()) {
        InWrites(State(), w);
        forall wr | wr in chains ensures Links()[wr].writes == chains[wr].writes {}
      }
    }

    method Gather() returns (ws: seq<Write>)
      requires Owned() && ChainsValid()
      ensures forall w :: w in ws <==> exists wr :: wr in chains && w in chains[wr].writes
      ensures forall i, j :: 0 <= i < j < |ws| ==> ws[i] != ws[j]
    {
      ws := [];
      var todo := chains.Keys;
      while todo != {}
        invariant todo <= chains.Keys
        invariant forall w :: w in ws ==> w.writer !in todo
        invariant forall w :: w in ws <==> exists wr :: wr in chains && wr !in todo && w in chains[wr].writes
        invariant forall i, j :: 0 <= i < j < |ws| ==> ws[i] != ws[j]
        decreases todo
      {
        var wr :| wr in todo;
        var more := chains[wr].writes;
        LinearDistinct(chains[wr].Value());
        forall w | w in more ensures w.writer == wr { LinearWrite(chains[wr].Value(), w); }
        forall i, j | 0 <= i < |ws| && 0 <= j < |more| ensures ws[i] != more[j] {
          assert ws[i] in ws && more[j] in more;
        }
        ws := ws + more;
        todo := todo - {wr};
      }
    }

    lemma WeightsHeld()
      requires Valid()
      ensures WeightMap(State(), unit).Keys == chains.Keys
      ensures forall wr :: wr in chains ==> WeightMap(State(), unit)[wr] == chains[wr].weight
    {
    }

    method TotalWeight() returns (total: nat)
      requires Valid()
      ensures total == Weight(State(), unit)
    {
      WeightsHeld();
      ghost var st := State();
      total := SumWeights(WeightMap(st, unit));
      assert st == State();
    }

    method SumWeights(ghost all: map<string, nat>) returns (total: nat)
      requires all.Keys == chains.Keys && forall wr :: wr in chains ==> all[wr] == chains[wr].weight
      ensures total == Total(all)
    {
      total := 0;
      var todo := chains.Keys;
      assert all - todo == map[];
      while todo != {}
        invariant todo <= all.Keys && total == Total(all - todo)
        decreases todo
      {
        var wr :| wr in todo;
        TotalNext(all, todo, wr);
        total := total + chains[wr].weight;
        todo := todo - {wr};
      }
      assert all - todo == all;
    }

    // ---------- checkpoints ----------

    /** Resume one writer's chain above a certified head and link its later writes back on. */
    method PruneOne(wr: string, h: Head, ghost want: Link)
      requires Valid() && wr in chains && chains[wr].baseSeq <= h.seqNo && want == PruneLink(chains[wr].Value(), h)
      modifies this`chains, this`repr
      ensures Valid() && fresh(repr - old(repr))
      ensures Links() == old(Links())[wr := want]
    {
      ghost var c := Resume(wr, h, want, Links()[wr := want]);
    }

    method Resume(wr: string, h: Head, ghost want: Link, ghost next: map<string, Link>) returns (ghost c: WriterChain)
      requires Valid() && wr in chains && chains[wr].baseSeq <= h.seqNo && want == PruneLink(chains[wr].Value(), h)
      requires next == Links()[wr := want]
      modifies this`chains, this`repr
      ensures Valid() && fresh(c) && repr == old(repr) + {c} && Links() == next
    {
      ghost var links, valid := Links(), Valid();
      var resumed := Relink(chains[wr], h, want);
      assert Links() == links && Valid() == valid;
      Replace(wr, resumed, next);
      c := resumed;
    }

    method Replace(wr: string, c: WriterChain, ghost next: map<string, Link>)
      requires Valid() && wr in chains && c.Valid() && c.writer == wr && c.unit == unit
                 && next == Links()[wr := c.Value()]
      modifies this`chains, this`repr
      ensures Valid() && repr == old(repr) + {c} && Links() == next
    {
      ghost var keys := chains.Keys;
      Install(wr, c, next);
      assert chains.Keys == keys;
    }

    method Relink(c: WriterChain, h: Head, ghost want: Link) returns (resumed: WriterChain)
      requires c.Valid() && c.unit == unit && c.baseSeq <= h.seqNo && want == PruneLink(c.Value(), h)
      ensures resumed.Valid() && fresh(resumed) && resumed.unit == unit && resumed.writer == c.writer
      ensures resumed.Value() == want
    {
      var keep := Later(c.writes, h.seqNo);
      resumed := new WriterChain(c.writer, None, unit, h.seqNo + 1, Some(h.id));
      ghost var start := resumed.Value();
      for n := 0 to |keep|
        invariant fresh(resumed) && resumed.Valid() && resumed.Value() == AppendEach(start, keep[..n])
      {
        assert keep[..n + 1][..n] == keep[..n];
        var r := resumed.Append(keep[n]);
      }
      assert keep[..|keep|] == keep;
    }

    static method Later(ws: seq<Write>, s: nat) returns (keep: seq<Write>)
      ensures keep == KeepAbove(ws, s)
    {
      keep := [];
      for n := 0 to |ws|
        invariant keep == KeepAbove(ws[..n], s)
      {
        assert ws[..n + 1][..n] == ws[..n];
        if ws[n].seqNo > s { keep := keep + [ws[n]]; }
      }
      assert ws[..|ws|] == ws;
    }

    /** Drop history below a finalized checkpoint. */
    method PruneBelow(heads: Heads)
      requires Valid()
      modifies this`chains, this`repr
      ensures Valid() && fresh(repr - old(repr)) && tick == old(tick) && pending == old(pending)
      ensures State() == Prune(old(State()), heads)
    {
      var todo := heads.Keys;
      ghost var links := Links();
      while todo != {}
        invariant todo <= heads.Keys && Valid() && fresh(repr - old(repr))
        invariant Links() == PruneSome(links, heads, heads.Keys - todo)
        decreases todo
      {
        var wr :| wr in todo;
        assert heads.Keys - (todo - {wr}) == heads.Keys - todo + {wr};
        PruneNext(wr, heads, links, heads.Keys - todo);
        todo := todo - {wr};
      }
      assert heads.Keys - todo == heads.Keys;
    }

    method PruneNext(wr: string, heads: Heads, ghost links: map<string, Link>, ghost done: set<string>)
      requires Valid() && wr in heads && done <= heads.Keys && wr !in done && Links() == PruneSome(links, heads, done)
      modifies this`chains, this`repr
      ensures Valid() && fresh(repr - old(repr)) && Links() == PruneSome(links, heads, done + {wr})
    {
      PruneSomeMore(links, heads, done, wr);
      if wr in chains && heads[wr].seqNo < chains[wr].baseSeq {
        SetSame(Links(), wr);
      } else if wr in chains {
        PruneOne(wr, heads[wr], PruneLink(links[wr], heads[wr]));
      }
    }

    method SeedOne(wr: string, h: Head)
      requires Valid()
      modifies this`chains, this`repr, this`pending
      ensures Valid() && fresh(repr - old(repr)) && tick == old(tick)
      ensures Links() == old(Links())[wr := Link(wr, None, h.seqNo + 1, Some(h.id), [])]
      ensures pending == old(pending)[wr := map[]]
    {
      var c := Create(wr, None, h.seqNo + 1, Some(h.id));
      SetFiled(pending, wr, map[]);
      SetBuffers(pending[wr := map[]]);
    }

    method SeedNext(wr: string, h: Head, ghost links0: map<string, Link>, ghost links: map<string, Link>,
                    ghost bufs0: map<string, Pending>, ghost bufs: map<string, Pending>, ghost done: set<string>)
      requires Valid() && wr in links && wr in bufs && bufs[wr] == map[]
      requires links[wr] == Link(wr, None, h.seqNo + 1, Some(h.id), [])
      requires Links() == Put(links0, links, done) && pending == Put(bufs0, bufs, done)
      modifies this`chains, this`repr, this`pending
      ensures Valid() && fresh(repr - old(repr))
      ensures Links() == Put(links0, links, done + {wr}) && pending == Put(bufs0, bufs, done + {wr})
    {
      PutMore(links0, links, done, wr);
      PutMore(bufs0, bufs, done, wr);
      SeedOne(wr, h);
    }

    /** Start every certified writer above its checkpoint head. */
    method SeedCheckpoint(heads: Heads)
      requires Valid()
      modifies this`chains, this`repr, this`pending
      ensures Valid() && fresh(repr - old(repr))
      ensures State() == Seed(old(State()), heads)
    {
      SeedEach(heads, SeedLinks(heads), SeedBuffers(heads));
    }

    method SeedEach(heads: Heads, ghost links: map<string, Link>, ghost bufs: map<string, Pending>)
      requires Valid() && links.Keys == bufs.Keys == heads.Keys
      requires forall wr :: wr in heads ==> links[wr] == Link(wr, None, heads[wr].seqNo + 1, Some(heads[wr].id), [])
      requires forall wr :: wr in heads ==> bufs[wr] == map[]
      modifies this`chains, this`repr, this`pending
      ensures Valid() && fresh(repr - old(repr))
      ensures Links() == old(Links()) + links && pending == old(pending) + bufs
    {
      PutNone(Links(), links);
      PutNone(pending, bufs);
      PutAll(Links(), links, heads.Keys);
      PutAll(pending, bufs, heads.Keys);
      SeedAll(heads, Links(), links, pending, bufs);
    }

    method SeedAll(heads: Heads, ghost links0: map<string, Link>, ghost links: map<string, Link>,
                   ghost bufs0: map<string, Pending>, ghost bufs: map<string, Pending>)
      requires Valid() && links.Keys == bufs.Keys == heads.Keys
      requires forall wr :: wr in heads ==> links[wr] == Link(wr, None, heads[wr].seqNo + 1, Some(heads[wr].id), [])
      requires forall wr :: wr in heads ==> bufs[wr] == map[]
      requires Links() == Put(links0, links, {}) && pending == Put(bufs0, bufs, {})
      modifies this`chains, this`repr, this`pending
      ensures Valid() && fresh(repr - old(repr))
      ensures Links() == Put(links0, links, heads.Keys) && pending == Put(bufs0, bufs, heads.Keys)
    {
      var todo := heads.Keys;
      ghost var done := {};
      while todo != {}
        invariant todo !! done && todo + done == heads.Keys && Valid() && fresh(repr - old(repr))
        invariant Links() == Put(links0, links, done) && pending == Put(bufs0, bufs, done)
        decreases todo
      {
        var wr :| wr in todo;
        SeedNext(wr, heads[wr], links0, links, bufs0, bufs, done);
        todo, done := todo - {wr}, done + {wr};
      }
      assert done == heads.Keys;
    }
  }

  lemma DeskFrom(st: LedgerState, w: Write, l: Link, p: Pending, tick: nat)
    requires l == ChainFor(st.chains, w) && p == PendingFor(st.pending, w.writer) && tick == st.tick + 1
    ensures DeskAfter(st, w) == Serve(l, Decayed(p, tick), tick, w)
  {
  }

  lemma Settle(st: LedgerState, w: Write, d: Desk, links: map<string, Link>, bufs: map<string, Pending>, tick: nat)
    requires d == DeskAfter(st, w) && tick == st.tick + 1
    requires links == st.chains[w.writer := ChainFor(st.chains, w)][w.writer := d.link]
    requires bufs == st.pending[w.writer := PendingFor(st.pending, w.writer)][w.writer := d.pend]
    ensures LedgerState(links, bufs, tick) == LedgerSpec.Apply(st, w)
  {
    UpdateTwice(st.chains, w.writer, ChainFor(st.chains, w), d.link);
    UpdateTwice(st.pending, w.writer, PendingFor(st.pending, w.writer), d.pend);
  }

  /** A chain's head: its last write, or the checkpoint head it resumed above. */
  function HeadOf(l: Link): Option<Head> {
    if |l.writes| > 0 then Some(Head(l.writes[|l.writes| - 1].id, l.writes[|l.writes| - 1].seqNo))
    else if l.baseHead.Some? && l.baseSeq > 0 then Some(Head(l.baseHead.value, l.baseSeq - 1))
    else None
  }

  lemma TipIs(st: LedgerState, wr: string, l: Link)
    requires wr in st.chains && st.chains[wr] == l && Linear(l)
    ensures HeadOf(l) == if wr in HeadsIn(st) then Some(HeadsIn(st)[wr]) else None
  {
    SeqsOfLinear(l);
  }

  lemma InWrites(st: LedgerState, w: Write)
    ensures w in WritesIn(st) <==> exists wr :: wr in st.chains && w in st.chains[wr].writes
  {
  }

  ghost function PruneSome(links: map<string, Link>, heads: Heads, done: set<string>): map<string, Link>
    requires done <= heads.Keys
  {
    map wr | wr in links :: if wr in done then PruneLink(links[wr], heads[wr]) else links[wr]
  }

  lemma PruneSomeMore(links: map<string, Link>, heads: Heads, done: set<string>, wr: string)
    requires done + {wr} <= heads.Keys && wr !in done
    ensures PruneSome(links, heads, done + {wr}) ==
            if wr in links
            then PruneSome(links, heads, done)[wr := PruneLink(PruneSome(links, heads, done)[wr], heads[wr])]
            else PruneSome(links, heads, done)
    ensures PruneSome(links, heads, done).Keys == links.Keys
  {
  }

  ghost function Put<K, V>(m: map<K, V>, n: map<K, V>, done: set<K>): map<K, V> {
    m + map k | k in n && k in done :: n[k]
  }

  lemma PutMore<K, V>(m: map<K, V>, n: map<K, V>, done: set<K>, k: K)
    requires k in n
    ensures Put(m, n, done + {k}) == Put(m, n, done)[k := n[k]]
  {
  }

  lemma PutNone<K, V>(m: map<K, V>, n: map<K, V>)
    ensures Put(m, n, {}) == m
  {
    assert Put(m, n, {}).Keys == m.Keys;
  }

  lemma PutAll<K, V>(m: map<K, V>, n: map<K, V>, done: set<K>)
    requires done == n.Keys
    ensures Put(m, n, done) == m + n
  {
    assert (map k | k in n && k in done :: n[k]) == n;
  }
}
