/** Who may change what on the board, and what is true of every match and offer it ever shows
    (applyOp and advance in src/market/fold.ts). */
module BoardRules {
  import opened Primitives
  import opened Ops
  import opened Board
  import opened BoardLaws
  import opened Anchors
  import opened Ordering

  // ---------- what a write can do to a match ----------

  /** What is agreed with the take, and nothing later touches. */
  predicate SameTerms(m: Match, n: Match) {
    && n.id == m.id && n.offerId == m.offerId && n.maker == m.maker && n.taker == m.taker && n.takeSeq == m.takeSeq
    && n.makerChain == m.makerChain && n.makerAmount == m.makerAmount && n.makerRefundBlocks == m.makerRefundBlocks
    && n.takerChain == m.takerChain && n.takerAmount == m.takerAmount && n.takerRefundBlocks == m.takerRefundBlocks
    && n.hash == m.hash && n.takerKey == m.takerKey
    && n.takenAt == m.takenAt && n.proofDeadline == m.proofDeadline && n.pruneAt == m.pruneAt
  }

  predicate ProvesMaker(m: Match, id: Id, w: Write, h: nat) {
    match ParseOp(w.payload)
    case Some(SwapProof(mid, key, proof)) =>
      && mid == id && w.writer == m.maker && m.status == AwaitingProofs && h <= m.proofDeadline && m.makerProof.None?
      && key.Some? && key.value != m.takerKey && proof.chain == m.makerChain
    case _ => false
  }

  predicate ProvesTaker(m: Match, id: Id, w: Write, h: nat) {
    match ParseOp(w.payload)
    case Some(SwapProof(mid, key, proof)) =>
      && mid == id && w.writer == m.taker != m.maker && m.status == AwaitingProofs && h <= m.proofDeadline
      && m.takerProof.None? && key.None? && proof.chain == m.takerChain
    case _ => false
  }

  predicate LocksMaker(m: Match, id: Id, w: Write) {
    match ParseOp(w.payload)
    case Some(SwapLocked(mid, _, _)) => mid == id && w.writer == m.maker && m.status == Escrow && m.makerLock.None?
    case _ => false
  }

  predicate LocksTaker(m: Match, id: Id, w: Write) {
    match ParseOp(w.payload)
    case Some(SwapLocked(mid, _, _)) =>
      mid == id && w.writer == m.taker != m.maker && m.status == Escrow && m.takerLock.None?
    case _ => false
  }

  predicate Aborts(m: Match, id: Id, w: Write) {
    && ParseOp(w.payload) == Some(SwapAbort(id)) && w.writer == m.maker
    && m.status != Cancelled && m.makerLock.None?
  }

  /** Field by field: who put it there, when, and that it was not there before. Nothing else changes. */
  ghost predicate Moves(m: Match, n: Match, id: Id, w: Write, h: nat) {
    && SameTerms(m, n)
    && n.makerProof == (if ProvesMaker(m, id, w, h) then Some(ParseOp(w.payload).value.proof) else m.makerProof)
    && n.makerKey == (if ProvesMaker(m, id, w, h) then ParseOp(w.payload).value.makerKey else m.makerKey)
    && n.takerProof == (if ProvesTaker(m, id, w, h) then Some(ParseOp(w.payload).value.proof) else m.takerProof)
    && n.makerLock == (if LocksMaker(m, id, w) then HintOf(w, h) else m.makerLock)
    && n.takerLock == (if LocksTaker(m, id, w) then HintOf(w, h) else m.takerLock)
    && n.cancelled == (if Aborts(m, id, w) then Some(Cancellation(h, Aborted)) else m.cancelled)
    && n.status ==
         if Aborts(m, id, w) then Cancelled
         else if (ProvesMaker(m, id, w, h) || ProvesTaker(m, id, w, h)) && n.makerProof.Some? && n.takerProof.Some?
         then Escrow
         else m.status
  }

  function HintOf(w: Write, h: nat): Option<LockHint> {
    match ParseOp(w.payload)
    case Some(SwapLocked(_, txid, vout)) => Some(LockHint(txid, vout, h))
    case _ => None
  }

  lemma ProofMoves(v: View, w: Write, op: Op, h: nat, id: Id)
    requires op.SwapProof? && ParseOp(w.payload) == Some(op) && id in v.matches
    ensures var n := ApplyWrite(v, w, h); id in n.matches && Moves(v.matches[id], n.matches[id], id, w, h)
  {
    if id != op.matchId {
      assert ApplyWrite(v, w, h).matches[id] == v.matches[id];
    } else if w.writer == v.matches[id].maker {
      MakerProofMoves(v, w, op, h);
    } else {
      TakerProofMoves(v, w, op, h);
    }
  }

  lemma MakerProofMoves(v: View, w: Write, op: Op, h: nat)
    requires op.SwapProof? && ParseOp(w.payload) == Some(op) && op.matchId in v.matches
    requires w.writer == v.matches[op.matchId].maker
    ensures var n := ApplyWrite(v, w, h);
            op.matchId in n.matches && Moves(v.matches[op.matchId], n.matches[op.matchId], op.matchId, w, h)
  {
  }

  lemma TakerProofMoves(v: View, w: Write, op: Op, h: nat)
    requires op.SwapProof? && ParseOp(w.payload) == Some(op) && op.matchId in v.matches
    requires w.writer != v.matches[op.matchId].maker
    ensures var n := ApplyWrite(v, w, h);
            op.matchId in n.matches && Moves(v.matches[op.matchId], n.matches[op.matchId], op.matchId, w, h)
  {
  }

  lemma LockMoves(v: View, w: Write, op: Op, h: nat, id: Id)
    requires op.SwapLocked? && ParseOp(w.payload) == Some(op) && id in v.matches
    ensures var n := ApplyWrite(v, w, h); id in n.matches && Moves(v.matches[id], n.matches[id], id, w, h)
  {
  }

  lemma AbortMoves(v: View, w: Write, op: Op, h: nat, id: Id)
    requires op.SwapAbort? && ParseOp(w.payload) == Some(op) && id in v.matches
    ensures var n := ApplyWrite(v, w, h); id in n.matches && Moves(v.matches[id], n.matches[id], id, w, h)
  {
  }

  lemma OtherMoves(v: View, w: Write, h: nat, id: Id)
    requires id in v.matches
    requires ParseOp(w.payload).Some? ==>
               var op := ParseOp(w.payload).value; op.OfferPost? || op.OfferCancel? || op.OfferTake?
    ensures var n := ApplyWrite(v, w, h); id in n.matches && n.matches[id] == v.matches[id]
  {
  }

  /** A write takes no match off the board. It changes one only as its maker or its taker, and then only what is that
      party's to put there: its proof while proofs are awaited, its lock in escrow, neither twice, and for the maker
      an abort before its lock. */
  lemma WriteMoves(v: View, w: Write, h: nat, id: Id)
    requires id in v.matches
    ensures var n := ApplyWrite(v, w, h); id in n.matches && Moves(v.matches[id], n.matches[id], id, w, h)
    ensures ApplyWrite(v, w, h).matches[id] != v.matches[id] ==>
              w.writer == v.matches[id].maker || w.writer == v.matches[id].taker
  {
    var op := ParseOp(w.payload);
    if op.Some? && op.value.SwapProof? { ProofMoves(v, w, op.value, h, id); }
    else if op.Some? && op.value.SwapLocked? { LockMoves(v, w, op.value, h, id); }
    else if op.Some? && op.value.SwapAbort? { AbortMoves(v, w, op.value, h, id); }
    else { OtherMoves(v, w, h, id); }
  }

  // ---------- what a write can do to an offer ----------

  /** A take of this offer that nothing forbids. */
  ghost predicate Matches(v: View, oid: Id, w: Write) {
    && oid in v.offers
    && match ParseOp(w.payload)
       case Some(OfferTake(of, fill, hash, _)) =>
         var o := v.offers[oid];
         && of == oid && o.maker != w.writer && o.minFill <= fill <= o.remaining
         && Dust(o.give.chain) <= fill && Dust(o.want.chain) <= ProRata(o.give, o.want, fill)
         && w.id !in v.matches && forall id :: id in v.matches ==> v.matches[id].hash != hash
       case _ => false
  }

  predicate Withdraws(o: Offer, oid: Id, w: Write) {
    ParseOp(w.payload) == Some(OfferCancel(oid)) && w.writer == o.maker
  }

  /** An abort that gives this offer its fill back. */
  predicate GivesBack(v: View, oid: Id, w: Write) {
    match ParseOp(w.payload)
    case Some(SwapAbort(id)) => id in v.matches && v.matches[id].offerId == oid && Aborts(v.matches[id], id, w)
    case _ => false
  }

  /** An offer leaves the board by its maker's word only; a take reserves its fill and the abort of a match returns
      it; nothing else about it ever changes. */
  lemma WriteMovesOffer(v: View, w: Write, h: nat, oid: Id)
    requires oid in v.offers
    requires ParseOp(w.payload).Some? && ParseOp(w.payload).value.OfferPost? ==> w.id != oid
    ensures var n, o := ApplyWrite(v, w, h), v.offers[oid];
            && (oid in n.offers <==> !Withdraws(o, oid, w))
            && (oid in n.offers ==>
                  n.offers[oid] == o.(remaining := n.offers[oid].remaining)
                  && n.offers[oid].remaining ==
                       o.remaining
                       - (if Matches(v, oid, w) then ParseOp(w.payload).value.fill as int else 0)
                       + if GivesBack(v, oid, w) then v.matches[ParseOp(w.payload).value.matchId].makerAmount else 0)
  {
  }

  /** A post the board lists: no leg below dust, nor any leg its minimum fill allows, under an id not in use. */
  ghost predicate Lists(v: View, w: Write) {
    match ParseOp(w.payload)
    case Some(OfferPost(give, want, minFill, _)) =>
      && Dust(give.chain) <= give.amount && Dust(want.chain) <= want.amount && Dust(give.chain) <= minFill
      && Dust(want.chain) <= ProRata(give, want, minFill) && w.id !in v.offers
    case _ => false
  }

  /** New on the board is exactly what the write's own post or take puts there, under its id, with its writer for maker
      or taker. */
  lemma WriteAdds(v: View, w: Write, h: nat)
    ensures var n := ApplyWrite(v, w, h);
            && (forall oid :: oid in n.offers && oid !in v.offers ==> oid == w.id && Lists(v, w))
            && (Lists(v, w) ==> w.id in n.offers && Posted(n.offers[w.id], ParseOp(w.payload).value, w, h))
            && (forall id :: id in n.matches && id !in v.matches ==>
                  id == w.id && exists oid :: Matches(v, oid, w))
            && (forall oid :: Matches(v, oid, w) ==>
                  w.id in n.matches && Struck(n.matches[w.id], v.offers[oid], ParseOp(w.payload).value, w, h))
  {
    WriteAddsOffers(v, w, h);
    WriteAddsMatches(v, w, h);
  }

  lemma WriteAddsOffers(v: View, w: Write, h: nat)
    ensures var n := ApplyWrite(v, w, h);
            && (forall oid :: oid in n.offers && oid !in v.offers ==> oid == w.id && Lists(v, w))
            && (Lists(v, w) ==> w.id in n.offers && Posted(n.offers[w.id], ParseOp(w.payload).value, w, h))
  {
  }

  lemma WriteAddsMatches(v: View, w: Write, h: nat)
    ensures var n := ApplyWrite(v, w, h);
            && (forall id :: id in n.matches && id !in v.matches ==>
                  id == w.id && exists oid :: Matches(v, oid, w))
            && (forall oid :: Matches(v, oid, w) ==>
                  w.id in n.matches && Struck(n.matches[w.id], v.offers[oid], ParseOp(w.payload).value, w, h))
  {
    var op := ParseOp(w.payload);
    if op.Some? && op.value.OfferTake? {
      if w.id in ApplyWrite(v, w, h).matches && w.id !in v.matches { assert Matches(v, op.value.offerId, w); }
    }
  }

  /** What a post lists. */
  predicate Posted(o: Offer, op: Op, w: Write, h: nat)
    requires op.OfferPost?
  {
    && o.id == w.id && o.maker == w.writer && o.give == op.give && o.want == op.want && o.minFill == op.minFill
    && o.remaining == op.give.amount && o.postedAt == h && o.expiresAt == h + op.expiresIn
  }

  /** What a take strikes: the offer's terms at the offer's price, twelve hours of blocks for the maker's refund and
      twenty-four for the taker's, ten anchors to prove and 2200 on the board. */
  predicate Struck(m: Match, o: Offer, op: Op, w: Write, h: nat)
    requires op.OfferTake?
  {
    && m.id == w.id && m.offerId == o.id && m.maker == o.maker && m.taker == w.writer && m.takeSeq == w.seqNo
    && m.makerChain == o.give.chain && m.makerAmount == op.fill && m.takerChain == o.want.chain
    && m.takerAmount == ProRata(o.give, o.want, op.fill) && m.hash == op.hash && m.takerKey == op.takerKey
    && m.makerRefundBlocks * BlockSeconds(m.makerChain) == 12 * 3600
    && m.takerRefundBlocks * BlockSeconds(m.takerChain) == 24 * 3600
    && m.takenAt == h && m.proofDeadline == h + 10 && m.pruneAt == h + 2200
    && m.status == AwaitingProofs && m.makerKey.None? && m.makerProof.None? && m.takerProof.None?
    && m.makerLock.None? && m.takerLock.None? && m.cancelled.None?
  }

  // ---------- what time does ----------

  /** A match is taken off at `pruneAt`; until then it changes only if its proofs are still awaited past the last height
      for them, and then to cancelled. An offer goes when it expires. */
  lemma TimeMoves(v: View, h: nat)
    ensures var n := Advanced(v, h);
            && (forall id :: id in n.matches <==> id in v.matches && h < v.matches[id].pruneAt)
            && (forall id :: id in n.matches ==>
                  n.matches[id] ==
                    var m := v.matches[id];
                    if m.status == AwaitingProofs && m.proofDeadline < h
                    then m.(status := Cancelled, cancelled := Some(Cancellation(m.proofDeadline + 1, NoProof)))
                    else m)
            && (forall oid :: oid in n.offers <==> oid in v.offers && h < v.offers[oid].expiresAt)
            && (forall oid :: oid in n.offers ==> n.offers[oid] == v.offers[oid].(remaining := n.offers[oid].remaining))
  {
  }

  // ---------- every board there is ----------

  /** A proof of funds names 1 to 32 outputs, none of them twice. */
  predicate CountsOnce(p: FundsProof) {
    && 1 <= |p.utxos| <= 32
    && forall i, j :: 0 <= i < j < |p.utxos| ==>
         p.utxos[i].txid != p.utxos[j].txid || p.utxos[i].vout != p.utxos[j].vout
  }

  /** What is true of every match the board shows. */
  predicate Regular(m: Match, id: Id) {
    && m.id == id && m.maker != m.taker && m.proofDeadline == m.takenAt + 10 && m.pruneAt == m.takenAt + 2200
    && (m.makerProof.Some? <==> m.makerKey.Some?)
    && (m.makerProof.Some? ==> m.makerProof.value.chain == m.makerChain && m.makerKey.value != m.takerKey)
    && (m.takerProof.Some? ==> m.takerProof.value.chain == m.takerChain)
    && (m.makerProof.Some? ==> CountsOnce(m.makerProof.value))
        && (m.takerProof.Some? ==> CountsOnce(m.takerProof.value))
    && IsHex(m.hash, 64) && IsHex(m.takerKey, 64) && (m.makerKey.Some? ==> IsHex(m.makerKey.value, 64))
    && (m.status == AwaitingProofs ==> !(m.makerProof.Some? && m.takerProof.Some?))
    && (m.status == Escrow ==> m.makerProof.Some? && m.takerProof.Some?)
    && (m.status == Cancelled <==> m.cancelled.Some?) && (m.status == Cancelled ==> m.makerLock.None?)
    && (m.makerLock.Some? || m.takerLock.Some? ==> m.makerProof.Some? && m.takerProof.Some?)
  }

  predicate Listed(o: Offer, oid: Id) {
    && o.id == oid && o.give.chain != o.want.chain && o.minFill <= o.give.amount
    && o.give.amount <= MaxMoney(o.give.chain) && o.want.amount <= MaxMoney(o.want.chain)
    && o.postedAt < o.expiresAt <= o.postedAt + 2880
  }

  ghost predicate Orderly(v: View) {
    && (forall id :: id in v.matches ==> Regular(v.matches[id], id))
    && (forall id, k :: id in v.matches && k in v.matches && v.matches[id].hash == v.matches[k].hash ==> id == k)
    && (forall oid :: oid in v.offers ==> Listed(v.offers[oid], oid))
  }

  lemma TimeKeeps(v: View, h: nat)
    requires Orderly(v)
    ensures Orderly(Advanced(v, h))
  {
    TimeMoves(v, h);
    var n := Advanced(v, h);
    forall id | id in n.matches ensures Regular(n.matches[id], id) && n.matches[id].hash == v.matches[id].hash {
      assert Regular(v.matches[id], id);
    }
    forall oid | oid in n.offers ensures Listed(n.offers[oid], oid) { assert Listed(v.offers[oid], oid); }
  }

  lemma MoveKeeps(m: Match, n: Match, id: Id, w: Write, h: nat)
    requires Regular(m, id) && Moves(m, n, id, w, h)
    ensures Regular(n, id) && n.hash == m.hash
  {
  }

  lemma StruckIsRegular(m: Match, o: Offer, op: Op, w: Write, h: nat)
    requires op.OfferTake? && Struck(m, o, op, w, h) && o.maker != w.writer && ParseOp(w.payload) == Some(op)
    ensures Regular(m, w.id) && m.hash == op.hash
  {
  }

  lemma WriteKeepsMatches(v: View, w: Write, h: nat, id: Id)
    requires Orderly(v) && id in ApplyWrite(v, w, h).matches
    ensures Regular(ApplyWrite(v, w, h).matches[id], id)
    ensures id in v.matches ==> ApplyWrite(v, w, h).matches[id].hash == v.matches[id].hash
    ensures id !in v.matches ==> forall k :: k in v.matches ==>
              v.matches[k].hash != ApplyWrite(v, w, h).matches[id].hash
    ensures id !in v.matches ==> id == w.id
  {
    if id in v.matches {
      WriteMoves(v, w, h, id);
      MoveKeeps(v.matches[id], ApplyWrite(v, w, h).matches[id], id, w, h);
    } else {
      WriteAdds(v, w, h);
      var oid :| Matches(v, oid, w);
      StruckIsRegular(ApplyWrite(v, w, h).matches[id], v.offers[oid], ParseOp(w.payload).value, w, h);
    }
  }

  lemma WriteKeepsOffers(v: View, w: Write, h: nat, oid: Id)
    requires Orderly(v) && oid in ApplyWrite(v, w, h).offers
    ensures Listed(ApplyWrite(v, w, h).offers[oid], oid)
  {
    WriteAdds(v, w, h);
    if oid in v.offers {
      if !(ParseOp(w.payload).Some? && ParseOp(w.payload).value.OfferPost? && w.id == oid) {
        WriteMovesOffer(v, w, h, oid);
      }
      assert Listed(v.offers[oid], oid);
    }
  }

  lemma WriteKeeps(v: View, w: Write, h: nat)
    requires Orderly(v)
    ensures Orderly(ApplyWrite(v, w, h))
  {
    var n := ApplyWrite(v, w, h);
    forall id | id in n.matches ensures Regular(n.matches[id], id) { WriteKeepsMatches(v, w, h, id); }
    forall id, k | id in n.matches && k in n.matches && n.matches[id].hash == n.matches[k].hash ensures id == k {
      WriteKeepsMatches(v, w, h, id);
      WriteKeepsMatches(v, w, h, k);
    }
    forall oid | oid in n.offers ensures Listed(n.offers[oid], oid) { WriteKeepsOffers(v, w, h, oid); }
  }

  /** On every board a fold can reach: no one deals with itself, no two matches share a hash, escrow means both proofs
      on the right chains and two different keys, and a match its maker locked for is never cancelled. */
  lemma {:induction false} BoardsAreOrderly(v: View, cs: seq<Certified>, now: nat)
    requires Orderly(v)
    ensures Orderly(Advanced(Fold(v, cs), now))
    decreases |cs|
  {
    if |cs| == 0 {
      TimeKeeps(v, now);
    } else {
      TimeKeeps(v, cs[0].h);
      WriteKeeps(Advanced(v, cs[0].h), cs[0].w, cs[0].h);
      BoardsAreOrderly(FoldStep(v, cs[0]), cs[1..], now);
    }
  }

  lemma EmptyIsOrderly()
    ensures Orderly(EMPTY_VIEW)
  {
  }

  /** The board an anchor commits to is the board at its height: whatever was due by then has happened. */
  lemma ShownIsCurrent(ws: set<Write>, chain: seq<Anchor>, heads: Heads, base: View)
    requires |chain| > 0 && OneSlotEach(ws)
    ensures var v, now := ViewAt(ws, chain, heads, base), chain[|chain| - 1].height;
            && (forall id :: id in v.matches ==>
                  && now < v.matches[id].pruneAt
                  && (v.matches[id].status == AwaitingProofs ==> now <= v.matches[id].proofDeadline))
            && (forall oid :: oid in v.offers ==> now < v.offers[oid].expiresAt)
            && (Orderly(base) ==> Orderly(v))
  {
    var now := chain[|chain| - 1].height;
    var cs := Certify(now, Ordered(now, StampedSet(ws, chain, heads)));
    TimeMoves(Fold(base, cs), now);
    if Orderly(base) { BoardsAreOrderly(base, cs, now); }
  }

  // ---------- once the maker has locked ----------

  /** In escrow with the maker's lock on record, its fill held. */
  ghost predicate HeldLocked(v: View, id: Id, m: Match) {
    && id in v.matches && SameTerms(m, v.matches[id]) && v.matches[id].status == Escrow
    && m.makerLock.Some? && v.matches[id].makerLock == m.makerLock
    && v.matches[id].makerKey == m.makerKey
  }

  lemma StepHoldsLocked(v: View, c: Certified, id: Id, m: Match)
    requires HeldLocked(v, id, m) && c.h < m.pruneAt
    ensures HeldLocked(FoldStep(v, c), id, m)
  {
    TimeMoves(v, c.h);
    WriteMoves(Advanced(v, c.h), c.w, c.h, id);
  }

  /** Whatever is written, until it is pruned it stays in escrow, and its fill with it. */
  lemma {:induction false} LockedStays(v: View, cs: seq<Certified>, now: nat, id: Id, m: Match)
    requires HeldLocked(v, id, m) && now < m.pruneAt && forall i :: 0 <= i < |cs| ==> cs[i].h < m.pruneAt
    ensures var n := Advanced(Fold(v, cs), now);
            && HeldLocked(n, id, m)
            && id in HeldFills(n.matches, m.offerId) && HeldFills(n.matches, m.offerId)[id] == m.makerAmount
    decreases |cs|
  {
    if |cs| == 0 {
      TimeMoves(v, now);
    } else {
      StepHoldsLocked(v, cs[0], id, m);
      LockedStays(FoldStep(v, cs[0]), cs[1..], now, id, m);
    }
  }

  /** A proof at the last height for it is taken, */
  lemma LastProofHeight(v: View, id: Id, w: Write)
    requires Orderly(v) && id in v.matches && ProvesMaker(v.matches[id], id, w, v.matches[id].takenAt + 10)
    ensures var n := FoldStep(v, Certified(w, v.matches[id].takenAt + 10));
            id in n.matches && n.matches[id].makerProof.Some?
  {
    var h := v.matches[id].takenAt + 10;
    assert Regular(v.matches[id], id);
    TimeMoves(v, h);
    WriteMoves(Advanced(v, h), w, h, id);
  }

  /** and one anchor later there is no match to prove. */
  lemma ProofTooLate(v: View, id: Id, w: Write)
    requires Orderly(v) && id in v.matches && v.matches[id].status == AwaitingProofs
    ensures var n := FoldStep(v, Certified(w, v.matches[id].takenAt + 11));
            && id in n.matches && n.matches[id].status == Cancelled
            && n.matches[id].makerProof == v.matches[id].makerProof
                && n.matches[id].takerProof == v.matches[id].takerProof
  {
    var h := v.matches[id].takenAt + 11;
    assert Regular(v.matches[id], id);
    TimeMoves(v, h);
    WriteMoves(Advanced(v, h), w, h, id);
  }
}
