/** Laws of the fold: advancing in pieces, folding in pieces, and what the fold conserves. */
module BoardLaws {
  import opened Primitives
  import opened Ops
  import opened Board

  // ---------- advancing in two steps ----------

  /** Awaiting matches that a stop at `a` drops before the deadline that falls before `b`. */
  predicate LostBetween(m: Match, a: nat, b: nat) {
    m.status == AwaitingProofs && m.pruneAt <= a <= m.proofDeadline < b
  }

  ghost function LostFills(ms: map<Id, Match>, oid: Id, a: nat, b: nat): map<Id, nat> {
    map id | id in ms && LostBetween(ms[id], a, b) && ms[id].offerId == oid :: ms[id].makerAmount
  }

  lemma LapseCases(m: Match, a: nat, b: nat)
    requires a <= b
    ensures Lapses(m, b) <==> Lapses(m, a) || (a < m.pruneAt && Lapses(Lapsed(m, a), b)) || LostBetween(m, a, b)
    ensures Lapses(m, a) ==> !Lapses(Lapsed(m, a), b)
    ensures LostBetween(m, a, b) ==> !Lapses(m, a) && m.pruneAt <= a
    ensures Lapsed(m, a).makerAmount == m.makerAmount && Lapsed(m, a).offerId == m.offerId
  {
  }

  lemma SplitFills(v: View, oid: Id, a: nat, b: nat)
    requires a <= b
    ensures var ms' := Advanced(v, a).matches;
            Total(LapsingFills(v.matches, v.matches.Keys, oid, b)) ==
            Total(LapsingFills(v.matches, v.matches.Keys, oid, a)) +
            Total(LapsingFills(ms', ms'.Keys, oid, b)) + Total(LostFills(v.matches, oid, a, b))
  {
    var ms' := Advanced(v, a).matches;
    var early := LapsingFills(v.matches, v.matches.Keys, oid, a);
    var late := LapsingFills(ms', ms'.Keys, oid, b);
    var lost := LostFills(v.matches, oid, a, b);
    var all := LapsingFills(v.matches, v.matches.Keys, oid, b);
    forall id
      ensures id in early + late + lost <==> id in all
      ensures id in all ==> (early + late + lost)[id] == all[id]
      ensures !(id in early && id in late) && !(id in early && id in lost) && !(id in late && id in lost)
    {
      if id in v.matches {
        LapseCases(v.matches[id], a, b);
        assert id in ms' ==> ms'[id] == Lapsed(v.matches[id], a);
      }
    }
    assert early + late + lost == all;
    TotalCover(all, early, late, lost);
  }

  lemma AdvancedMatches(v: View, a: nat, b: nat)
    requires a <= b
    ensures Advanced(Advanced(v, a), b).matches == Advanced(v, b).matches
  {
    var twice, once := Advanced(Advanced(v, a), b).matches, Advanced(v, b).matches;
    assert twice.Keys == once.Keys;
    forall id | id in once
      ensures twice[id] == once[id]
    {
    }
  }

  lemma AdvancedOffer(v: View, a: nat, b: nat, oid: Id)
    requires a <= b && oid in v.offers && b < v.offers[oid].expiresAt
    ensures oid in Advanced(v, b).offers && oid in Advanced(Advanced(v, a), b).offers
    ensures Advanced(Advanced(v, a), b).offers[oid] == Advanced(v, b).offers[oid] <==>
              LostFills(v.matches, oid, a, b) == map[]
  {
    SplitFills(v, oid, a, b);
    TotalPositive(LostFills(v.matches, oid, a, b));
  }

  /** A match that a stop at `a` loses although its offer is still listed at `b`. */
  predicate Costs(v: View, id: Id, a: nat, b: nat)
    requires id in v.matches
  {
    var m := v.matches[id];
    LostBetween(m, a, b) && m.offerId in v.offers && b < v.offers[m.offerId].expiresAt
  }

  ghost predicate StopIsFree(v: View, a: nat, b: nat) {
    forall id :: id in v.matches ==> !Costs(v, id, a, b)
  }

  lemma FreeStop(v: View, a: nat, b: nat)
    requires a <= b && StopIsFree(v, a, b)
    ensures Advanced(Advanced(v, a), b).offers == Advanced(v, b).offers
  {
    var twice, once := Advanced(Advanced(v, a), b).offers, Advanced(v, b).offers;
    forall oid
      ensures oid in twice <==> oid in once
      ensures oid in once ==> twice[oid] == once[oid]
    {
      if oid in v.offers && b < v.offers[oid].expiresAt {
        AdvancedOffer(v, a, b, oid);
        forall id | id in v.matches ensures id !in LostFills(v.matches, oid, a, b) { assert !Costs(v, id, a, b); }
        assert LostFills(v.matches, oid, a, b) == map[];
      }
    }
  }

  /** Stopping at `a` on the way to `b` changes nothing exactly when every match the stop loses
      belongs to an offer that is gone by `b`. */
  lemma AdvanceSplitsExactly(v: View, a: nat, b: nat)
    requires a <= b
    ensures Advanced(Advanced(v, a), b) == Advanced(v, b) <==> StopIsFree(v, a, b)
  {
    AdvancedMatches(v, a, b);
    if StopIsFree(v, a, b) {
      FreeStop(v, a, b);
    } else {
      var id :| id in v.matches && Costs(v, id, a, b);
      var oid := v.matches[id].offerId;
      AdvancedOffer(v, a, b, oid);
      assert id in LostFills(v.matches, oid, a, b);
    }
  }

  /** Every match outlives its proof deadline: what the fold relies on and never states. */
  ghost predicate Timely(v: View) {
    forall id :: id in v.matches ==> v.matches[id].proofDeadline < v.matches[id].pruneAt
  }

  lemma AdvanceComposes(v: View, a: nat, b: nat)
    requires Timely(v) && a <= b
    ensures Advanced(Advanced(v, a), b) == Advanced(v, b)
  {
    AdvanceSplitsExactly(v, a, b);
  }

  lemma LifetimeOutlivesProofs(c: Chain)
    ensures MatchLifetime(c) == 2200 && PROOF_WINDOW < MatchLifetime(c)
  {
  }

  lemma TimelyKept(v: View, w: Write, h: nat)
    requires Timely(v)
    ensures Timely(Advanced(v, h)) && Timely(ApplyWrite(v, w, h))
  {
    LifetimeOutlivesProofs(Bitcoin);
    LifetimeOutlivesProofs(Litecoin);
  }

  // ---------- folding ----------

  /** A write and the height that certifies it. */
  datatype Certified = Certified(w: Write, h: nat)

  ghost function FoldStep(v: View, c: Certified): View {
    ApplyWrite(Advanced(v, c.h), c.w, c.h)
  }

  ghost function Fold(v: View, cs: seq<Certified>): View
    decreases |cs|
  {
    if |cs| == 0 then v else Fold(FoldStep(v, cs[0]), cs[1..])
  }

  lemma {:induction false} FoldConcat(v: View, a: seq<Certified>, b: seq<Certified>)
    ensures Fold(v, a + b) == Fold(Fold(v, a), b)
    decreases |a|
  {
    if a == [] {
      assert a + b == b;
    } else {
      assert (a + b)[1..] == a[1..] + b;
      FoldConcat(FoldStep(v, a[0]), a[1..], b);
    }
  }

  lemma {:induction false} FoldTimely(v: View, cs: seq<Certified>)
    requires Timely(v)
    ensures Timely(Fold(v, cs))
    decreases |cs|
  {
    if cs != [] {
      TimelyKept(v, cs[0].w, cs[0].h);
      TimelyKept(Advanced(v, cs[0].h), cs[0].w, cs[0].h);
      FoldTimely(FoldStep(v, cs[0]), cs[1..]);
    }
  }

  /** Folding what `low` certifies, closing the books at height `c`, and folding `high` on top
      reaches the state of the single pass. */
  lemma FoldSplits(v: View, low: seq<Certified>, high: seq<Certified>, c: nat, now: nat)
    requires Timely(v) && c <= now
    requires forall i :: 0 <= i < |high| ==> c <= high[i].h
    ensures Advanced(Fold(Advanced(Fold(v, low), c), high), now) == Advanced(Fold(v, low + high), now)
  {
    FoldConcat(v, low, high);
    FoldTimely(v, low);
    var mid := Fold(v, low);
    if high == [] {
      AdvanceComposes(mid, c, now);
    } else {
      AdvanceComposes(mid, c, high[0].h);
      assert FoldStep(Advanced(mid, c), high[0]) == FoldStep(mid, high[0]);
    }
  }

  // ---------- conservation of offer capacity ----------

  /** Fills reserved against `oid` by matches that are still on the board and not cancelled. */
  ghost function HeldFills(ms: map<Id, Match>, oid: Id): map<Id, nat> {
    map id | id in ms && ms[id].status != Cancelled && ms[id].offerId == oid :: ms[id].makerAmount
  }

  /** Fills of matches that reach `pruneAt` in escrow: they leave the board without giving back. */
  ghost function DroppedFills(ms: map<Id, Match>, oid: Id, h: nat): map<Id, nat> {
    map id | id in ms && ms[id].status == Escrow && ms[id].pruneAt <= h && ms[id].offerId == oid :: ms[id].makerAmount
  }

  /** The board with the history needed to account for it: ids used so far, and per offer id the
      fills dropped in escrow. */
  datatype Books = Books(view: View, seen: set<Id>, dropped: map<Id, nat>)

  ghost function Opening(): Books {
    Books(EMPTY_VIEW, {}, map[])
  }

  ghost function AdvanceBooks(b: Books, h: nat): Books {
    b.(view := Advanced(b.view, h),
       dropped := map oid | oid in b.dropped :: b.dropped[oid] + Total(DroppedFills(b.view.matches, oid, h)))
  }

  ghost function Enter(b: Books, w: Write, h: nat): Books {
    var b1 := AdvanceBooks(b, h);
    Record(b1, ApplyWrite(b1.view, w, h), w.id)
  }

  ghost predicate OfferSound(o: Offer) {
    && Dust(o.give.chain) <= o.minFill
    && Dust(o.want.chain) <= ProRata(o.give, o.want, o.minFill)
  }

  ghost predicate OfferBalanced(b: Books, oid: Id)
    requires oid in b.view.offers
  {
    var o := b.view.offers[oid];
    && oid in b.dropped && o.id == oid && OfferSound(o)
    && o.remaining + Total(HeldFills(b.view.matches, oid)) + b.dropped[oid] == o.give.amount
  }

  ghost predicate PricedBy(m: Match, offers: map<Id, Offer>) {
    m.offerId in offers ==> m.takerAmount == ProRata(offers[m.offerId].give, offers[m.offerId].want, m.makerAmount)
  }

  ghost predicate MatchSound(b: Books, id: Id)
    requires id in b.view.matches
  {
    var m := b.view.matches[id];
    && id in b.seen && m.offerId in b.seen
    && m.proofDeadline < m.pruneAt
    && Dust(m.makerChain) <= m.makerAmount && Dust(m.takerChain) <= m.takerAmount
    && PricedBy(m, b.view.offers)
  }

  ghost predicate Balanced(b: Books) {
    && b.dropped.Keys == b.seen
    && (forall oid :: oid in b.view.offers ==> OfferBalanced(b, oid))
    && (forall id :: id in b.view.matches ==> MatchSound(b, id))
  }

  lemma AdvanceMovesFills(v: View, oid: Id, h: nat)
    requires Timely(v)
    ensures Total(HeldFills(v.matches, oid)) ==
            Total(HeldFills(Advanced(v, h).matches, oid)) +
            Total(LapsingFills(v.matches, v.matches.Keys, oid, h)) + Total(DroppedFills(v.matches, oid, h))
  {
    var ms' := Advanced(v, h).matches;
    var all := HeldFills(v.matches, oid);
    var kept := HeldFills(ms', oid);
    var back := LapsingFills(v.matches, v.matches.Keys, oid, h);
    var gone := DroppedFills(v.matches, oid, h);
    forall id
      ensures id in kept + back + gone <==> id in all
      ensures id in all ==> (kept + back + gone)[id] == all[id]
      ensures !(id in kept && id in back) && !(id in kept && id in gone) && !(id in back && id in gone)
    {
      assert id in ms' ==> ms'[id] == Lapsed(v.matches[id], h);
    }
    assert kept + back + gone == all;
    TotalCover(all, kept, back, gone);
  }

  lemma AdvanceKeepsBalance(b: Books, h: nat)
    requires Balanced(b)
    ensures Balanced(AdvanceBooks(b, h))
  {
    var b' := AdvanceBooks(b, h);
    assert Timely(b.view) by {
      forall id | id in b.view.matches ensures b.view.matches[id].proofDeadline < b.view.matches[id].pruneAt {
        assert MatchSound(b, id);
      }
    }
    forall oid | oid in b'.view.offers
      ensures OfferBalanced(b', oid)
    {
      assert OfferBalanced(b, oid);
      AdvanceMovesFills(b.view, oid, h);
    }
    forall id | id in b'.view.matches
      ensures MatchSound(b', id)
    {
      assert MatchSound(b, id);
    }
  }

  lemma ProRataMonotone(give: Leg, want: Leg, f: nat, g: nat)
    requires f <= g
    ensures ProRata(give, want, f) <= ProRata(give, want, g)
  {
    var d := give.amount;
    assert f * want.amount <= g * want.amount;
    DivMonotone(f * want.amount, g * want.amount, d);
  }

  lemma DivMonotone(x: nat, y: nat, d: pos)
    requires x <= y
    ensures x / d <= y / d
  {
    if x / d > y / d {
      assert d * (x / d) >= d * (y / d + 1) by {
        ProductOrder(y / d + 1, x / d, d);
      }
    }
  }

  /** For an offer the fold lists, a fill at or above the minimum never makes a dust leg. */
  lemma TakeNeverDust(v: View, w: Write, op: Op, h: nat)
    requires op.OfferTake?
    requires op.offerId in v.offers ==> OfferSound(v.offers[op.offerId])
    ensures TakeOffer(v, w, op, h) != Rejected(DustLeg)
  {
    if op.offerId in v.offers && op.fill >= v.offers[op.offerId].minFill {
      var o := v.offers[op.offerId];
      ProRataMonotone(o.give, o.want, o.minFill, op.fill);
    }
  }

  ghost function Share(ms: map<Id, Match>, id: Id, oid: Id): nat {
    if id in ms && ms[id].status != Cancelled && ms[id].offerId == oid then ms[id].makerAmount else 0
  }

  /** Writing one match changes an offer's held total by that match's own share. */
  lemma HeldPut(ms: map<Id, Match>, mid: Id, m: Match, oid: Id)
    ensures Total(HeldFills(ms[mid := m], oid)) + Share(ms, mid, oid) ==
            Total(HeldFills(ms, oid)) + Share(ms[mid := m], mid, oid)
  {
    HeldWithout(ms, mid, oid);
    HeldWithout(ms[mid := m], mid, oid);
    HeldRest(ms, mid, m, oid);
  }

  lemma HeldRest(ms: map<Id, Match>, mid: Id, m: Match, oid: Id)
    ensures HeldFills(ms[mid := m], oid) - {mid} == HeldFills(ms, oid) - {mid}
  {
  }

  lemma HeldWithout(ms: map<Id, Match>, mid: Id, oid: Id)
    ensures Total(HeldFills(ms, oid)) == Share(ms, mid, oid) + Total(HeldFills(ms, oid) - {mid})
  {
    if mid in HeldFills(ms, oid) {
      TotalRemove(HeldFills(ms, oid), mid);
    } else {
      assert HeldFills(ms, oid) - {mid} == HeldFills(ms, oid);
    }
  }

  ghost function Record(b: Books, v: View, wid: Id): Books {
    Books(v, b.seen + {wid}, b.dropped[wid := 0])
  }

  /** A write that replaces or adds one match keeps the books balanced when what it adds to the
      match's share it takes from the offer's remaining capacity. */
  lemma PutKeepsBalance(b: Books, wid: Id, mid: Id, m: Match, offers: map<Id, Offer>)
    requires Balanced(b) && wid !in b.seen && (mid in b.view.matches || mid == wid)
    requires offers.Keys == b.view.offers.Keys
    requires var ms := b.view.matches;
             forall oid :: oid in offers ==>
               && offers[oid] == b.view.offers[oid].(remaining := offers[oid].remaining)
               && offers[oid].remaining + Share(ms[mid := m], mid, oid) ==
                   b.view.offers[oid].remaining + Share(ms, mid, oid)
    requires m.offerId in b.seen && m.proofDeadline < m.pruneAt
    requires Dust(m.makerChain) <= m.makerAmount && Dust(m.takerChain) <= m.takerAmount && PricedBy(m, offers)
    ensures Balanced(Record(b, View(offers, b.view.matches[mid := m]), wid))
  {
    var b' := Record(b, View(offers, b.view.matches[mid := m]), wid);
    forall oid | oid in offers
      ensures OfferBalanced(b', oid)
    {
      assert OfferBalanced(b, oid);
      HeldPut(b.view.matches, mid, m, oid);
    }
    forall id | id in b'.view.matches
      ensures MatchSound(b', id)
    {
      if id != mid { assert MatchSound(b, id); }
      if mid in b.view.matches { assert MatchSound(b, mid); }
    }
  }

  /** A new match that reserves its fill from a listed offer. */
  lemma ReserveKeepsBalance(b: Books, wid: Id, oid: Id, m: Match)
    requires Balanced(b) && wid !in b.seen && oid in b.view.offers
    requires m.offerId == oid && m.status != Cancelled && m.proofDeadline < m.pruneAt
    requires var o := b.view.offers[oid];
             && m.makerAmount <= o.remaining && m.takerAmount == ProRata(o.give, o.want, m.makerAmount)
             && Dust(m.makerChain) <= m.makerAmount && Dust(m.takerChain) <= m.takerAmount
    ensures var o := b.view.offers[oid];
            var v := View(b.view.offers[oid := o.(remaining := o.remaining - m.makerAmount)], b.view.matches[wid := m]);
            Balanced(Record(b, v, wid))
  {
    var o := b.view.offers[oid];
    var offers := b.view.offers[oid := o.(remaining := o.remaining - m.makerAmount)];
    assert OfferBalanced(b, oid);
    forall id | id in b.view.matches ensures id in b.seen { assert MatchSound(b, id); }
    PutKeepsBalance(b, wid, wid, m, offers);
  }

  lemma TakeApplied(v: View, w: Write, op: Op, h: nat)
    requires op.OfferTake? && TakeOffer(v, w, op, h).Applied?
    ensures op.offerId in v.offers
    ensures var o := v.offers[op.offerId];
            var m := NewMatch(o, w, op.fill, op.hash, op.takerKey, h);
            && op.fill <= o.remaining && Dust(m.makerChain) <= op.fill && Dust(m.takerChain) <= m.takerAmount
            && m.proofDeadline < m.pruneAt
            && TakeOffer(v, w, op, h).view ==
                 View(v.offers[op.offerId := o.(remaining := o.remaining - op.fill)], v.matches[w.id := m])
  {
    LifetimeOutlivesProofs(v.offers[op.offerId].want.chain);
  }

  lemma TakeKeepsBalance(b: Books, w: Write, op: Op, h: nat)
    requires Balanced(b) && w.id !in b.seen && op.OfferTake?
    requires TakeOffer(b.view, w, op, h).Applied?
    ensures Balanced(Record(b, TakeOffer(b.view, w, op, h).view, w.id))
  {
    TakeApplied(b.view, w, op, h);
    var o := b.view.offers[op.offerId];
    var m := NewMatch(o, w, op.fill, op.hash, op.takerKey, h);
    assert o.id == op.offerId by { assert OfferBalanced(b, op.offerId); }
    ReserveKeepsBalance(b, w.id, op.offerId, m);
  }

  lemma AbortKeepsBalance(b: Books, w: Write, mid: Id, h: nat)
    requires Balanced(b) && w.id !in b.seen
    requires AbortMatch(b.view, w, mid, h).Applied?
    ensures Balanced(Record(b, AbortMatch(b.view, w, mid, h).view, w.id))
  {
    var m := b.view.matches[mid];
    assert MatchSound(b, mid);
    PutKeepsBalance(b, w.id, mid, m.(status := Cancelled, cancelled := Some(Cancellation(h, Aborted))),
                    Restore(b.view.offers, m));
  }

  /** A match that changes without being cancelled, revived or repriced. */
  lemma TouchKeepsBalance(b: Books, wid: Id, mid: Id, m: Match)
    requires Balanced(b) && wid !in b.seen && mid in b.view.matches
    requires var m0 := b.view.matches[mid];
             && m.offerId == m0.offerId && m.makerAmount == m0.makerAmount && m.takerAmount == m0.takerAmount
             && m.makerChain == m0.makerChain && m.takerChain == m0.takerChain
             && m.proofDeadline == m0.proofDeadline && m.pruneAt == m0.pruneAt
             && (m.status == Cancelled <==> m0.status == Cancelled)
    ensures Balanced(Record(b, b.view.(matches := b.view.matches[mid := m]), wid))
  {
    assert MatchSound(b, mid);
    PutKeepsBalance(b, wid, mid, m, b.view.offers);
  }

  lemma OffersKeepBalance(b: Books, wid: Id, offers: map<Id, Offer>)
    requires Balanced(b) && wid !in b.seen
    requires forall oid :: oid in offers && oid != wid ==> oid in b.view.offers && offers[oid] == b.view.offers[oid]
    requires wid in offers ==>
               offers[wid].id == wid && OfferSound(offers[wid]) && offers[wid].remaining == offers[wid].give.amount
    ensures Balanced(Record(b, b.view.(offers := offers), wid))
  {
    var b' := Record(b, b.view.(offers := offers), wid);
    forall oid | oid in offers
      ensures OfferBalanced(b', oid)
    {
      if oid == wid {
        forall id | id in b.view.matches ensures b.view.matches[id].offerId != wid { assert MatchSound(b, id); }
        assert HeldFills(b.view.matches, oid) == map[];
      } else {
        assert OfferBalanced(b, oid);
      }
    }
    forall id | id in b.view.matches
      ensures MatchSound(b', id)
    {
      assert MatchSound(b, id);
    }
  }

  lemma OutcomeKeepsBalance(b: Books, w: Write, op: Op, h: nat)
    requires Balanced(b) && w.id !in b.seen && OpOutcome(b.view, w, op, h).Applied?
    ensures Balanced(Record(b, OpOutcome(b.view, w, op, h).view, w.id))
  {
    var v := OpOutcome(b.view, w, op, h).view;
    match op {
      case OfferPost(_, _, _, _) => OffersKeepBalance(b, w.id, v.offers);
      case OfferCancel(_) => OffersKeepBalance(b, w.id, v.offers);
      case OfferTake(_, _, _, _) => TakeKeepsBalance(b, w, op, h);
      case SwapProof(mid, _, _) => TouchKeepsBalance(b, w.id, mid, v.matches[mid]);
      case SwapLocked(mid, _, _) => TouchKeepsBalance(b, w.id, mid, v.matches[mid]);
      case SwapAbort(mid) => AbortKeepsBalance(b, w, mid, h);
    }
  }

  lemma EnterKeepsBalance(b: Books, w: Write, h: nat)
    requires Balanced(b) && w.id !in b.seen
    ensures Balanced(Enter(b, w, h))
  {
    AdvanceKeepsBalance(b, h);
    var b1 := AdvanceBooks(b, h);
    var op := ParseOp(w.payload);
    if op.Some? && OpOutcome(b1.view, w, op.value, h).Applied? {
      OutcomeKeepsBalance(b1, w, op.value, h);
    } else {
      OffersKeepBalance(b1, w.id, b1.view.offers);
    }
  }

  ghost function Account(b: Books, cs: seq<Certified>): Books
    decreases |cs|
  {
    if |cs| == 0 then b else Account(Enter(b, cs[0].w, cs[0].h), cs[1..])
  }

  ghost predicate DistinctIds(cs: seq<Certified>) {
    forall i, j :: 0 <= i < j < |cs| ==> cs[i].w.id != cs[j].w.id
  }

  lemma {:induction false} AccountBalances(b: Books, cs: seq<Certified>)
    requires Balanced(b) && DistinctIds(cs)
    requires forall i :: 0 <= i < |cs| ==> cs[i].w.id !in b.seen
    ensures Balanced(Account(b, cs)) && Account(b, cs).view == Fold(b.view, cs)
    decreases |cs|
  {
    if cs != [] {
      EnterKeepsBalance(b, cs[0].w, cs[0].h);
      AccountBalances(Enter(b, cs[0].w, cs[0].h), cs[1..]);
    }
  }

  /** Over every run with distinct write ids, and at every later height: what an offer still lists,
      what its live matches hold and what was dropped in escrow add up to what it gave. */
  lemma CapacityConserved(cs: seq<Certified>, now: nat, oid: Id)
    requires DistinctIds(cs)
    requires oid in Advanced(Fold(EMPTY_VIEW, cs), now).offers
    ensures var v := Advanced(Fold(EMPTY_VIEW, cs), now);
            var books := AdvanceBooks(Account(Opening(), cs), now);
            && books.view == v && oid in books.dropped
            && v.offers[oid].remaining + Total(HeldFills(v.matches, oid)) + books.dropped[oid] ==
                v.offers[oid].give.amount
  {
    AccountBalances(Opening(), cs);
    AdvanceKeepsBalance(Account(Opening(), cs), now);
    assert OfferBalanced(AdvanceBooks(Account(Opening(), cs), now), oid);
  }

  // ---------- pro-rata bounds ----------

  ghost function WantLegs(fills: map<Id, nat>, give: Leg, want: Leg): map<Id, nat> {
    map id | id in fills :: ProRata(give, want, fills[id])
  }

  lemma FloorAdds(x: nat, y: nat, d: pos)
    ensures x / d + y / d <= (x + y) / d <= x / d + y / d + 1
  {
    var q, r := x / d, x % d;
    var p, s := y / d, y % d;
    assert x + y == (q + p) * d + (r + s);
    DivOf((q + p), r + s, d);
  }

  lemma DivOf(q: nat, r: nat, d: pos)
    requires r < 2 * d
    ensures q <= (q * d + r) / d <= q + 1
  {
    var n := q * d + r;
    var z, t := n / d, n % d;
    assert n == z * d + t && 0 <= t < d;
    if z < q { ProductOrder(z + 1, q, d); }
    if z > q + 1 { ProductOrder(q + 2, z, d); }
  }

  /** Splitting a fill into n parts loses at most n - 1 units of the other leg and never gains. */
  lemma ProRataAdds(give: Leg, want: Leg, a: nat, b: nat)
    ensures ProRata(give, want, a) + ProRata(give, want, b) <= ProRata(give, want, a + b)
    ensures ProRata(give, want, a + b) <= ProRata(give, want, a) + ProRata(give, want, b) + 1
  {
    FloorAdds(a * want.amount, b * want.amount, give.amount);
    assert (a + b) * want.amount == a * want.amount + b * want.amount;
  }

  lemma WantLegsRemove(fills: map<Id, nat>, give: Leg, want: Leg, k: Id)
    requires k in fills
    ensures Total(WantLegs(fills, give, want)) ==
              ProRata(give, want, fills[k]) + Total(WantLegs(fills - {k}, give, want))
    ensures Total(fills) == fills[k] + Total(fills - {k}) && |fills| == |fills - {k}| + 1
  {
    TotalRemove(fills, k);
    TotalRemove(WantLegs(fills, give, want), k);
    WantLegsRest(fills, give, want, k);
  }

  lemma WantLegsRest(fills: map<Id, nat>, give: Leg, want: Leg, k: Id)
    requires k in fills
    ensures WantLegs(fills, give, want) - {k} == WantLegs(fills - {k}, give, want)
    ensures |fills| == |fills - {k}| + 1
  {
    assert fills.Keys == (fills - {k}).Keys + {k};
  }

  lemma ProRataNothing(give: Leg, want: Leg)
    ensures ProRata(give, want, 0) == 0
  {
  }

  lemma {:induction false} ProRataSums(fills: map<Id, nat>, give: Leg, want: Leg)
    ensures Total(WantLegs(fills, give, want)) <= ProRata(give, want, Total(fills))
    ensures fills != map[] ==>
              ProRata(give, want, Total(fills)) <= Total(WantLegs(fills, give, want)) + |fills| - 1
    decreases fills
  {
    if fills != map[] {
      var k :| k in fills;
      ProRataSums(fills - {k}, give, want);
      WantLegsRemove(fills, give, want, k);
      ProRataAdds(give, want, fills[k], Total(fills - {k}));
      ProRataNothing(give, want);
    } else {
      assert WantLegs(fills, give, want) == map[];
    }
  }

  lemma ProRataWhole(give: Leg, want: Leg)
    ensures ProRata(give, want, give.amount) == want.amount
  {
    DivExact(want.amount, give.amount);
  }

  lemma DivExact(q: nat, d: pos)
    ensures d * q / d == q
  {
    var z, t := d * q / d, d * q % d;
    assert d * (q - z) == t;
    if q - z >= 1 { ProductOrder(1, q - z, d); }
    if q - z <= -1 { ProductOrder(q - z, -1, d); }
  }

  /** Fills of one offer never oblige takers to more than the wanted leg; filling it exactly in n
      parts falls short by at most n - 1 units. */
  lemma OfferNeverOversold(fills: map<Id, nat>, give: Leg, want: Leg)
    requires Total(fills) <= give.amount
    ensures Total(WantLegs(fills, give, want)) <= want.amount
    ensures Total(fills) == give.amount ==> want.amount <= Total(WantLegs(fills, give, want)) + |fills| - 1
  {
    ProRataSums(fills, give, want);
    ProRataMonotone(give, want, Total(fills), give.amount);
    ProRataWhole(give, want);
    assert fills == map[] ==> Total(fills) == 0;
  }

  ghost function HeldWants(ms: map<Id, Match>, oid: Id): map<Id, nat> {
    map id | id in ms && ms[id].status != Cancelled && ms[id].offerId == oid :: ms[id].takerAmount
  }

  lemma BalancedNeverOversells(b: Books, oid: Id)
    requires Balanced(b) && oid in b.view.offers
    ensures Total(HeldWants(b.view.matches, oid)) <= b.view.offers[oid].want.amount
  {
    var o := b.view.offers[oid];
    var fills := HeldFills(b.view.matches, oid);
    assert OfferBalanced(b, oid);
    OfferNeverOversold(fills, o.give, o.want);
    var legs, wants := WantLegs(fills, o.give, o.want), HeldWants(b.view.matches, oid);
    forall id | id in wants ensures id in legs && wants[id] == legs[id] { WantIsLeg(b, oid, id); }
    assert legs.Keys == wants.Keys;
    assert legs == wants;
  }

  lemma WantIsLeg(b: Books, oid: Id, id: Id)
    requires Balanced(b) && oid in b.view.offers && id in HeldWants(b.view.matches, oid)
    ensures var o := b.view.offers[oid];
            var legs := WantLegs(HeldFills(b.view.matches, oid), o.give, o.want);
            id in legs && HeldWants(b.view.matches, oid)[id] == legs[id]
  {
    assert MatchSound(b, id);
  }

  /** On every reachable board the takers of a listed offer together owe at most its wanted leg, and
      no leg of any match is dust. */
  lemma BoardNeverOversells(cs: seq<Certified>, now: nat)
    requires DistinctIds(cs)
    ensures var v := Advanced(Fold(EMPTY_VIEW, cs), now);
            && (forall oid :: oid in v.offers ==> Total(HeldWants(v.matches, oid)) <= v.offers[oid].want.amount)
            && (forall id :: id in v.matches ==>
                  && Dust(v.matches[id].makerChain) <= v.matches[id].makerAmount
                  && Dust(v.matches[id].takerChain) <= v.matches[id].takerAmount)
  {
    AccountBalances(Opening(), cs);
    var b := AdvanceBooks(Account(Opening(), cs), now);
    AdvanceKeepsBalance(Account(Opening(), cs), now);
    assert b.view == Advanced(Fold(EMPTY_VIEW, cs), now);
    forall oid | oid in b.view.offers { BalancedNeverOversells(b, oid); }
    forall id | id in b.view.matches
      ensures Dust(b.view.matches[id].makerChain) <= b.view.matches[id].makerAmount
      ensures Dust(b.view.matches[id].takerChain) <= b.view.matches[id].takerAmount
    {
      assert MatchSound(b, id);
    }
  }
}
