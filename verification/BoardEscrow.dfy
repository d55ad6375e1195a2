/** Capacity that never comes back: a match dropped in escrow while its offer is still listed
    (advance in src/market/fold.ts), and when nothing of the kind happens. */
module BoardEscrow {
  import opened Primitives
  import opened Ops
  import opened Board
  import opened BoardLaws
  import opened Ordering

  /** Moving to height `h` drops an escrow match of this offer. */
  ghost predicate PrunesEscrow(v: View, oid: Id, h: nat) {
    exists id :: id in v.matches && v.matches[id].status == Escrow && v.matches[id].pruneAt <= h
        && v.matches[id].offerId == oid
  }

  /** Some stop of the run does. */
  ghost predicate EscrowPruned(v: View, cs: seq<Certified>, now: nat, oid: Id)
    decreases |cs|
  {
    if |cs| == 0 then PrunesEscrow(v, oid, now)
    else PrunesEscrow(v, oid, cs[0].h) || EscrowPruned(FoldStep(v, cs[0]), cs[1..], now, oid)
  }

  lemma DroppedIff(v: View, oid: Id, h: nat)
    ensures Total(DroppedFills(v.matches, oid, h)) > 0 <==> PrunesEscrow(v, oid, h)
  {
    var fills := DroppedFills(v.matches, oid, h);
    TotalPositive(fills);
    if PrunesEscrow(v, oid, h) {
      var id :| id in v.matches && v.matches[id].status == Escrow && v.matches[id].pruneAt <= h
          && v.matches[id].offerId == oid;
      assert id in fills;
    } else {
      assert fills == map[];
    }
  }

  ghost function DroppedOf(b: Books, oid: Id): nat {
    if oid in b.dropped then b.dropped[oid] else 0
  }

  lemma StopDrops(b: Books, h: nat, oid: Id)
    requires Balanced(b)
    ensures DroppedOf(b, oid) <= DroppedOf(AdvanceBooks(b, h), oid)
    ensures DroppedOf(b, oid) == DroppedOf(AdvanceBooks(b, h), oid) <==> !PrunesEscrow(b.view, oid, h)
  {
    DroppedIff(b.view, oid, h);
    if oid !in b.dropped {
      forall id | id in b.view.matches ensures b.view.matches[id].offerId != oid { assert MatchSound(b, id); }
    }
  }

  /** Nothing of an offer is ever dropped exactly when no stop of the run prunes one of its matches in
      escrow. */
  lemma {:induction false} RunDrops(b: Books, cs: seq<Certified>, now: nat, oid: Id)
    requires Balanced(b) && DistinctIds(cs)
    requires forall i :: 0 <= i < |cs| ==> cs[i].w.id !in b.seen
    ensures var end := AdvanceBooks(Account(b, cs), now);
            && DroppedOf(b, oid) <= DroppedOf(end, oid)
            && (DroppedOf(b, oid) == DroppedOf(end, oid) <==> !EscrowPruned(b.view, cs, now, oid))
    decreases |cs|
  {
    if |cs| == 0 {
      StopDrops(b, now, oid);
    } else {
      var c := cs[0];
      StopDrops(b, c.h, oid);
      EnterKeepsBalance(b, c.w, c.h);
      assert DroppedOf(Enter(b, c.w, c.h), oid) == DroppedOf(AdvanceBooks(b, c.h), oid);
      RunDrops(Enter(b, c.w, c.h), cs[1..], now, oid);
    }
  }

  /** Remaining capacity plus live fills make up what an offer gave if and only if the run never
      dropped one of its matches in escrow. */
  lemma PlainCapacityIff(cs: seq<Certified>, now: nat, oid: Id)
    requires DistinctIds(cs)
    requires oid in Advanced(Fold(EMPTY_VIEW, cs), now).offers
    ensures var v := Advanced(Fold(EMPTY_VIEW, cs), now);
            v.offers[oid].remaining + Total(HeldFills(v.matches, oid)) == v.offers[oid].give.amount
            <==> !EscrowPruned(EMPTY_VIEW, cs, now, oid)
  {
    CapacityConserved(cs, now, oid);
    RunDrops(Opening(), cs, now, oid);
  }

  // ---------- a run that drops one ----------

  const GIVE := Leg(Bitcoin, 100_000)
  const WANT := Leg(Litecoin, 1_000_000)

  function Hex(c: char): string {
    seq(64, _ => c)
  }

  function Proof(chain: Chain, amount: pos): FundsProof {
    FundsProof(chain, "mainnet", Hex('5'), [Utxo(Hex('6'), 0, amount)], Hex('7') + Hex('8'))
  }

  /** A long-lived offer, a take of part of it, and both proofs: each writer's first and second write, certified
      one after the other. */
  function OfferWrite(): Stamped {
    Stamped(Write(Hex('1'), "maker", 0, None, "", 1, Fields(OfferPost(GIVE, WANT, 1000, 2880)), true), Some(1))
  }

  function TakeWrite(): Stamped {
    Stamped(Write(Hex('2'), "taker", 0, None, "", 2, Fields(OfferTake(Hex('1'), 40_000, Hex('a'), Hex('b'))), true),
            Some(2))
  }

  function MakerProof(): Stamped {
    Stamped(Write(Hex('3'), "maker", 1, Some(Hex('1')), "", 3,
                  Fields(SwapProof(Hex('2'), Some(Hex('c')), Proof(Bitcoin, 40_000))), true), Some(3))
  }

  function TakerProof(): Stamped {
    Stamped(Write(Hex('4'), "taker", 1, Some(Hex('2')), "", 4,
                  Fields(SwapProof(Hex('2'), None, Proof(Litecoin, 400_000))), true), Some(4))
  }

  function EscrowWrites(): seq<Stamped> {
    [OfferWrite(), TakeWrite(), MakerProof(), TakerProof()]
  }

  function Listed(remaining: nat): Offer {
    Offer(Hex('1'), "maker", GIVE, WANT, 1000, remaining, 1, 2881)
  }

  function Open(): Match {
    Match(Hex('2'), Hex('1'), "maker", "taker", 0, Bitcoin, 40_000, 72, Litecoin, 400_000, 576, Hex('a'), Hex('b'),
          None, AwaitingProofs, 2, 12, 2202, None, None, None, None, None)
  }

  function HalfProved(): Match {
    Open().(makerProof := Some(Proof(Bitcoin, 40_000)), makerKey := Some(Hex('c')))
  }

  function Proved(): Match {
    HalfProved().(takerProof := Some(Proof(Litecoin, 400_000)), status := Escrow)
  }

  function Shown(remaining: nat, m: Match): View {
    View(map[Hex('1') := Listed(remaining)], map[Hex('2') := m])
  }

  lemma HexIs(c: char, d: char)
    requires '0' <= c <= '9' || 'a' <= c <= 'f'
    ensures IsHex(Hex(c), 64) && (Hex(c) == Hex(d) <==> c == d)
  {
    assert Hex(c)[0] == c && Hex(d)[0] == d;
  }

  /** Before any deadline nothing is due. */
  lemma NothingDue(v: View, h: nat)
    requires forall oid :: oid in v.offers ==> h < v.offers[oid].expiresAt
    requires forall id :: id in v.matches ==> h <= v.matches[id].proofDeadline < v.matches[id].pruneAt
    ensures Advanced(v, h) == v
  {
    forall oid | oid in v.offers ensures GiveBack(v.offers[oid], v.matches, v.matches.Keys, oid, h) == v.offers[oid] {
      assert LapsingFills(v.matches, v.matches.Keys, oid, h) == map[];
    }
    assert Advanced(v, h).offers == v.offers && Advanced(v, h).matches == v.matches;
  }

  lemma PostStep()
    ensures FoldStep(EMPTY_VIEW, Certified(OfferWrite().w, 1)) == View(map[Hex('1') := Listed(100_000)], map[])
  {
    NothingDue(EMPTY_VIEW, 1);
  }

  lemma TakeStep()
    ensures FoldStep(View(map[Hex('1') := Listed(100_000)], map[]), Certified(TakeWrite().w, 2)) ==
              Shown(60_000, Open())
  {
    NothingDue(View(map[Hex('1') := Listed(100_000)], map[]), 2);
    TakeParses();
    TakeApplies(View(map[Hex('1') := Listed(100_000)], map[]), TakeWrite().w);
  }

  lemma TakeParses()
    ensures ParseOp(TakeWrite().w.payload) == Some(OfferTake(Hex('1'), 40_000, Hex('a'), Hex('b')))
  {
    HexIs('1', '1');
    HexIs('a', 'a');
    HexIs('b', 'b');
  }

  lemma TakeApplies(v: View, w: Write)
    requires v == View(map[Hex('1') := Listed(100_000)], map[])
    requires w.id == Hex('2') && w.writer == "taker" && w.seqNo == 0
    ensures OpOutcome(v, w, OfferTake(Hex('1'), 40_000, Hex('a'), Hex('b')), 2) == Applied(Shown(60_000, Open()))
  {
    LifetimeOutlivesProofs(Litecoin);
  }

  lemma ProofParses(chain: Chain, amount: pos)
    requires amount <= MaxMoney(chain)
    ensures ProofShape(Proof(chain, amount))
  {
    HexIs('5', '5');
    HexIs('6', '6');
  }

  lemma MakerStep()
    ensures FoldStep(Shown(60_000, Open()), Certified(MakerProof().w, 3)) == Shown(60_000, HalfProved())
  {
    NothingDue(Shown(60_000, Open()), 3);
    ProofParses(Bitcoin, 40_000);
    HexIs('2', '2');
    HexIs('c', 'b');
    assert ParseOp(MakerProof().w.payload) == Some(SwapProof(Hex('2'), Some(Hex('c')), Proof(Bitcoin, 40_000)));
    MakerApplies(Shown(60_000, Open()), MakerProof().w);
  }

  lemma MakerApplies(v: View, w: Write)
    requires v == Shown(60_000, Open()) && w.writer == "maker"
    ensures OpOutcome(v, w, SwapProof(Hex('2'), Some(Hex('c')), Proof(Bitcoin, 40_000)), 3) ==
              Applied(Shown(60_000, HalfProved()))
  {
    HexIs('c', 'b');
  }

  lemma TakerStep()
    ensures FoldStep(Shown(60_000, HalfProved()), Certified(TakerProof().w, 4)) == Shown(60_000, Proved())
  {
    NothingDue(Shown(60_000, HalfProved()), 4);
    TakerParses();
    TakerApplies(Shown(60_000, HalfProved()), TakerProof().w);
  }

  lemma TakerParses()
    ensures ParseOp(TakerProof().w.payload) == Some(SwapProof(Hex('2'), None, Proof(Litecoin, 400_000)))
  {
    ProofParses(Litecoin, 400_000);
    HexIs('2', '2');
  }

  lemma TakerApplies(v: View, w: Write)
    requires v == Shown(60_000, HalfProved()) && w.writer == "taker"
    ensures OpOutcome(v, w, SwapProof(Hex('2'), None, Proof(Litecoin, 400_000)), 4) == Applied(Shown(60_000, Proved()))
  {
  }

  lemma FourSteps(v0: View, v1: View, v2: View, v3: View, v4: View, cs: seq<Certified>)
    requires |cs| == 4 && FoldStep(v0, cs[0]) == v1 && FoldStep(v1, cs[1]) == v2
    requires FoldStep(v2, cs[2]) == v3 && FoldStep(v3, cs[3]) == v4
    ensures Fold(v0, cs) == v4
  {
    assert cs[1..][1..] == cs[2..] && cs[2..][1..] == cs[3..] && cs[3..][1..] == [];
    assert Fold(v3, cs[3..]) == Fold(v4, []);
    assert Fold(v2, cs[2..]) == Fold(v3, cs[3..]);
    assert Fold(v1, cs[1..]) == Fold(v2, cs[2..]);
  }

  lemma RunIs(now: nat, cs: seq<Certified>)
    requires 4 <= now && cs == Certify(now, EscrowWrites())
    ensures |cs| == 4 && cs[0] == Certified(OfferWrite().w, 1) && cs[1] == Certified(TakeWrite().w, 2)
    ensures cs[2] == Certified(MakerProof().w, 3) && cs[3] == Certified(TakerProof().w, 4)
  {
  }

  lemma RunEnds(now: nat, cs: seq<Certified>)
    requires 4 <= now && cs == Certify(now, EscrowWrites())
    ensures Fold(EMPTY_VIEW, cs) == Shown(60_000, Proved())
  {
    RunIs(now, cs);
    PostStep();
    TakeStep();
    MakerStep();
    TakerStep();
    FourSteps(EMPTY_VIEW, View(map[Hex('1') := Listed(100_000)], map[]), Shown(60_000, Open()),
              Shown(60_000, HalfProved()), Shown(60_000, Proved()), cs);
  }

  /** What one writer wrote first, and what it wrote second; and the order they are folded in. */
  lemma RunInOrder(now: nat)
    requires 4 <= now
    ensures InOrder(now, EscrowWrites()) && Slots(Elements(EscrowWrites()))
  {
    var q := EscrowWrites();
    forall x, y | x in Elements(q) && y in Elements(q) && SameSlot(x.w, y.w) ensures x == y {
      assert x in q && y in q;
    }
  }

  lemma RunOrdered(now: nat)
    requires 4 <= now && Slots(Elements(EscrowWrites()))
    ensures Ordered(now, Elements(EscrowWrites())) == EscrowWrites()
  {
    RunInOrder(now);
    OrderUnique(now, Elements(EscrowWrites()), EscrowWrites(), Ordered(now, Elements(EscrowWrites())));
  }

  lemma LastStop()
    ensures Advanced(Shown(60_000, Proved()), 2202) == View(map[Hex('1') := Listed(60_000)], map[])
  {
    var end := Shown(60_000, Proved());
    assert LapsingFills(end.matches, end.matches.Keys, Hex('1'), 2202) == map[];
    assert Advanced(end, 2202).offers == map[Hex('1') := Listed(60_000)];
    assert Advanced(end, 2202).matches == map[];
  }

  /** The offer outlives the match. On the board the fold gives these writes once the match is pruned,
      40 000 of the 100 000 given are neither listed, nor held by a match, nor given back. */
  lemma EscrowLeavesGap()
    ensures var q, oid := EscrowWrites(), Hex('1');
            && (forall i :: 0 <= i < |q| ==> VerifyWrite(q[i].w) && ParseOp(q[i].w.payload).Some?)
            && InOrder(2202, q) && Slots(Elements(q))
            && var v := Advanced(Fold(EMPTY_VIEW, Certify(2202, Ordered(2202, Elements(q)))), 2202);
               && oid in v.offers
               && v.offers[oid].remaining + Total(HeldFills(v.matches, oid)) + 40_000 == v.offers[oid].give.amount
  {
    RunInOrder(2202);
    RunOrdered(2202);
    RunEnds(2202, Certify(2202, EscrowWrites()));
    LastStop();
    RunParses();
    Gap(Advanced(Shown(60_000, Proved()), 2202));
  }

  lemma Gap(v: View)
    requires v == View(map[Hex('1') := Listed(60_000)], map[])
    ensures Hex('1') in v.offers
    ensures v.offers[Hex('1')].remaining + Total(HeldFills(v.matches, Hex('1'))) + 40_000 ==
              v.offers[Hex('1')].give.amount
  {
    assert HeldFills(v.matches, Hex('1')) == map[];
  }

  lemma RunParses()
    ensures var q := EscrowWrites();
            forall i :: 0 <= i < |q| ==> VerifyWrite(q[i].w) && ParseOp(q[i].w.payload).Some?
  {
    HexIs('1', '1');
    HexIs('2', '2');
    HexIs('a', 'a');
    HexIs('b', 'b');
    HexIs('c', 'c');
    ProofParses(Bitcoin, 40_000);
    ProofParses(Litecoin, 400_000);
  }
}
