/** The order board: its state, its height-timed transitions and its operations
    (src/market/state.ts, src/market/fold.ts). */
module Board {
  import opened Primitives
  import opened Ops

  datatype Offer = Offer(
    id: Id, maker: string, give: Leg, want: Leg, minFill: pos,
    remaining: nat, postedAt: nat, expiresAt: nat)

  datatype MatchStatus = AwaitingProofs | Escrow | Cancelled

  datatype LockHint = LockHint(txid: string, vout: nat, at: nat)

  datatype CancelReason = NoProof | Aborted

  datatype Cancellation = Cancellation(at: nat, reason: CancelReason)

  datatype Match = Match(
    id: Id, offerId: Id, maker: string, taker: string, takeSeq: nat,
    makerChain: Chain, makerAmount: pos, makerRefundBlocks: nat,
    takerChain: Chain, takerAmount: nat, takerRefundBlocks: nat,
    hash: string, takerKey: string, makerKey: Option<string>,
    status: MatchStatus, takenAt: nat, proofDeadline: nat, pruneAt: nat,
    makerProof: Option<FundsProof>, takerProof: Option<FundsProof>,
    makerLock: Option<LockHint>, takerLock: Option<LockHint>,
    cancelled: Option<Cancellation>)

  datatype View = View(offers: map<Id, Offer>, matches: map<Id, Match>)

  const EMPTY_VIEW := View(map[], map[])

  // ---------- protocol constants ----------

  const ANCHOR_SECONDS: pos := 60
  const PROOF_WINDOW: nat := 10
  const TAKER_LOCK_WINDOW: nat := 30
  const PRUNE_MARGIN: nat := 720

  datatype SwapRole = Initiator | Counterparty

  function BlockSeconds(c: Chain): pos {
    match c
    case Bitcoin => 600
    case Litecoin => 150
  }

  function DefaultRefundBlocks(c: Chain, role: SwapRole): nat {
    CeilDiv((if role == Initiator then 24 else 12) * 3600, BlockSeconds(c))
  }

  function RefundAnchors(c: Chain, role: SwapRole): nat {
    CeilDiv(DefaultRefundBlocks(c, role) * BlockSeconds(c), ANCHOR_SECONDS)
  }

  function MatchLifetime(takerChain: Chain): nat {
    PROOF_WINDOW + TAKER_LOCK_WINDOW + RefundAnchors(takerChain, Initiator) + PRUNE_MARGIN
  }

  /** Pay-to-Taproot dust: a 43-byte output and a 67-byte input at the chain's dust relay fee. */
  function Dust(c: Chain): nat {
    (43 + 67) * (match c case Bitcoin => 3000 case Litecoin => 30_000) / 1000
  }

  function ProRata(give: Leg, want: Leg, fill: nat): nat {
    fill * want.amount / give.amount
  }

  // ---------- advance ----------

  predicate Lapses(m: Match, h: nat) {
    m.status == AwaitingProofs && m.proofDeadline < h
  }

  function Lapsed(m: Match, h: nat): Match {
    if Lapses(m, h)
    then m.(status := Cancelled, cancelled := Some(Cancellation(m.proofDeadline + 1, NoProof)))
    else m
  }

  /** Fills that matches in `ids` give back to offer `oid` by height `h`. */
  ghost function LapsingFills(ms: map<Id, Match>, ids: set<Id>, oid: Id, h: nat): map<Id, nat> {
    map id | id in ids && id in ms && Lapses(ms[id], h) && ms[id].offerId == oid :: ms[id].makerAmount
  }

  ghost function GiveBack(o: Offer, ms: map<Id, Match>, ids: set<Id>, oid: Id, h: nat): Offer {
    o.(remaining := o.remaining + Total(LapsingFills(ms, ids, oid, h)))
  }

  /** The matches once those in `done` have been swept at height `h`. */
  lemma AdvancedInParts(v: View, h: nat)
    ensures var swept := SweptOffers(v, v.matches.Keys, h);
            Advanced(v, h) == View(map oid | oid in swept && h < swept[oid].expiresAt :: swept[oid],
                                   SweptMatches(v, v.matches.Keys, h))
  {
  }

  ghost function SweptMatches(v: View, done: set<Id>, h: nat): map<Id, Match> {
    map id | id in v.matches && (id in done ==> h < v.matches[id].pruneAt) ::
      if id in done then Lapsed(v.matches[id], h) else v.matches[id]
  }

  ghost function SweptOffers(v: View, done: set<Id>, h: nat): map<Id, Offer> {
    map oid | oid in v.offers :: GiveBack(v.offers[oid], v.matches, done, oid, h)
  }

  /** The state at height `h`: every deadline at or before it has fired. */
  ghost function Advanced(v: View, h: nat): View {
    View(map oid | oid in v.offers && h < v.offers[oid].expiresAt ::
           GiveBack(v.offers[oid], v.matches, v.matches.Keys, oid, h),
         map id | id in v.matches && h < v.matches[id].pruneAt :: Lapsed(v.matches[id], h))
  }

  // ---------- operations ----------

  datatype Reject =
    | LegBelowDust | MinFillAllowsDust | DuplicateOffer | NoSuchOffer | NotTheMaker | OwnOffer
    | BelowMinimum | OverCapacity | DustLeg | DuplicateMatch | HashUsed | NoSuchMatch
    | NotAwaitingProofs | ProofRepeated | MakerKeyMissing | MakerKeyIsTakerKey | WrongChain
    | MakerKeyFromTaker | NotAParty | NotInEscrow | LockRepeated | AlreadyCancelled | MakerLocked

  datatype Outcome = Applied(view: View) | Rejected(reason: Reject)

  function Restore(offers: map<Id, Offer>, m: Match): map<Id, Offer> {
    if m.offerId in offers
    then offers[m.offerId := offers[m.offerId].(remaining := offers[m.offerId].remaining + m.makerAmount)]
    else offers
  }

  function NewMatch(o: Offer, w: Write, fill: pos, hash: string, takerKey: string, h: nat): Match {
    Match(w.id, o.id, o.maker, w.writer, w.seqNo,
          o.give.chain, fill, DefaultRefundBlocks(o.give.chain, Counterparty),
          o.want.chain, ProRata(o.give, o.want, fill), DefaultRefundBlocks(o.want.chain, Initiator),
          hash, takerKey, None, AwaitingProofs, h, h + PROOF_WINDOW, h + MatchLifetime(o.want.chain),
          None, None, None, None, None)
  }

  function PostOffer(v: View, w: Write, op: Op, h: nat): Outcome
    requires op.OfferPost?
  {
    if op.give.amount < Dust(op.give.chain) || op.want.amount < Dust(op.want.chain) then Rejected(LegBelowDust)
    else if op.minFill < Dust(op.give.chain) || ProRata(op.give, op.want, op.minFill) < Dust(op.want.chain)
    then Rejected(MinFillAllowsDust)
    else if w.id in v.offers then Rejected(DuplicateOffer)
    else Applied(v.(offers := v.offers[w.id :=
                    Offer(w.id, w.writer, op.give, op.want, op.minFill, op.give.amount, h, h + op.expiresIn)]))
  }

  function CancelOffer(v: View, w: Write, oid: Id): Outcome {
    if oid !in v.offers then Rejected(NoSuchOffer)
    else if v.offers[oid].maker != w.writer then Rejected(NotTheMaker)
    else Applied(v.(offers := v.offers - {oid}))
  }

  function TakeOffer(v: View, w: Write, op: Op, h: nat): Outcome
    requires op.OfferTake?
  {
    if op.offerId !in v.offers then Rejected(NoSuchOffer)
    else
      var o := v.offers[op.offerId];
      if o.maker == w.writer then Rejected(OwnOffer)
      else if op.fill < o.minFill then Rejected(BelowMinimum)
      else if op.fill > o.remaining then Rejected(OverCapacity)
      else if op.fill < Dust(o.give.chain) || ProRata(o.give, o.want, op.fill) < Dust(o.want.chain)
          then Rejected(DustLeg)
      else if w.id in v.matches then Rejected(DuplicateMatch)
      else if exists id :: id in v.matches && v.matches[id].hash == op.hash then Rejected(HashUsed)
      else Applied(View(v.offers[op.offerId := o.(remaining := o.remaining - op.fill)],
                        v.matches[w.id := NewMatch(o, w, op.fill, op.hash, op.takerKey, h)]))
  }

  function Escrowed(m: Match): Match {
    if m.makerProof.Some? && m.takerProof.Some? then m.(status := Escrow) else m
  }

  function PostProof(v: View, w: Write, op: Op, h: nat): Outcome
    requires op.SwapProof?
  {
    if op.matchId !in v.matches then Rejected(NoSuchMatch)
    else
      var m := v.matches[op.matchId];
      if m.status != AwaitingProofs || h > m.proofDeadline then Rejected(NotAwaitingProofs)
      else if w.writer == m.maker then
        if m.makerProof.Some? then Rejected(ProofRepeated)
        else if op.makerKey.None? then Rejected(MakerKeyMissing)
        else if op.makerKey.value == m.takerKey then Rejected(MakerKeyIsTakerKey)
        else if op.proof.chain != m.makerChain then Rejected(WrongChain)
        else Applied(v.(matches := v.matches[op.matchId :=
                        Escrowed(m.(makerProof := Some(op.proof), makerKey := op.makerKey))]))
      else if w.writer == m.taker then
        if m.takerProof.Some? then Rejected(ProofRepeated)
        else if op.makerKey.Some? then Rejected(MakerKeyFromTaker)
        else if op.proof.chain != m.takerChain then Rejected(WrongChain)
        else Applied(v.(matches := v.matches[op.matchId := Escrowed(m.(takerProof := Some(op.proof)))]))
      else Rejected(NotAParty)
  }

  function RecordLock(v: View, w: Write, op: Op, h: nat): Outcome
    requires op.SwapLocked?
  {
    if op.matchId !in v.matches then Rejected(NoSuchMatch)
    else
      var m := v.matches[op.matchId];
      var hint := Some(LockHint(op.txid, op.vout, h));
      if m.status != Escrow then Rejected(NotInEscrow)
      else if w.writer == m.maker then
        if m.makerLock.Some? then Rejected(LockRepeated)
        else Applied(v.(matches := v.matches[op.matchId := m.(makerLock := hint)]))
      else if w.writer == m.taker then
        if m.takerLock.Some? then Rejected(LockRepeated)
        else Applied(v.(matches := v.matches[op.matchId := m.(takerLock := hint)]))
      else Rejected(NotAParty)
  }

  function AbortMatch(v: View, w: Write, mid: Id, h: nat): Outcome {
    if mid !in v.matches then Rejected(NoSuchMatch)
    else
      var m := v.matches[mid];
      if w.writer != m.maker then Rejected(NotTheMaker)
      else if m.status == Cancelled then Rejected(AlreadyCancelled)
      else if m.makerLock.Some? then Rejected(MakerLocked)
      else Applied(View(Restore(v.offers, m),
                        v.matches[mid := m.(status := Cancelled, cancelled := Some(Cancellation(h, Aborted)))]))
  }

  function OpOutcome(v: View, w: Write, op: Op, h: nat): Outcome {
    match op
    case OfferPost(_, _, _, _) => PostOffer(v, w, op, h)
    case OfferCancel(oid) => CancelOffer(v, w, oid)
    case OfferTake(_, _, _, _) => TakeOffer(v, w, op, h)
    case SwapProof(_, _, _) => PostProof(v, w, op, h)
    case SwapLocked(_, _, _) => RecordLock(v, w, op, h)
    case SwapAbort(mid) => AbortMatch(v, w, mid, h)
  }

  /** What one write does to the board: a payload that does not parse or is rejected does nothing. */
  function ApplyWrite(v: View, w: Write, h: nat): View {
    match ParseOp(w.payload)
    case None => v
    case Some(op) =>
      match OpOutcome(v, w, op, h)
      case Applied(v') => v'
      case Rejected(_) => v
  }

  // ---------- the mutable board the fold works on ----------

  class LiveBoard {
    var offers: map<Id, Offer>
    var matches: map<Id, Match>

    function Now(): View
      reads this
    {
      View(offers, matches)
    }

    constructor (base: View)
      ensures Now() == base
    {
      offers, matches := base.offers, base.matches;
    }

    method RestoreCapacity(m: Match)
      modifies this`offers
      ensures offers == Restore(old(offers), m)
    {
      if m.offerId in offers {
        var o := offers[m.offerId];
        offers := offers[m.offerId := o.(remaining := o.remaining + m.makerAmount)];
      }
    }

    method Advance(h: nat)
      modifies this
      ensures Now() == Advanced(old(Now()), h)
    {
      ghost var v := Now();
      SweepMatches(h);
      DropExpiredOffers(h);
      AdvancedInParts(v, h);
    }

    method SweepOne(id: Id, h: nat)
      requires id in matches
      modifies this
      ensures var m := old(matches)[id];
              && offers == (if Lapses(m, h) then Restore(old(offers), m) else old(offers))
              && matches == if m.pruneAt <= h then old(matches) - {id} else old(matches)[id := Lapsed(m, h)]
    {
      var m := matches[id];
      if m.status == AwaitingProofs && m.proofDeadline < h {
        m := m.(status := Cancelled, cancelled := Some(Cancellation(m.proofDeadline + 1, NoProof)));
        matches := matches[id := m];
        RestoreCapacity(m);
      }
      if m.pruneAt <= h {
        matches := matches - {id};
      }
    }

    /** The Map is changed while it is iterated; the result does not depend on the order. */
    method SweepMatches(h: nat)
      modifies this
      ensures matches == SweptMatches(old(Now()), old(matches).Keys, h)
      ensures offers == SweptOffers(old(Now()), old(matches).Keys, h)
    {
      ghost var v := Now();
      ghost var done := {};
      var todo := matches.Keys;
      assert offers == SweptOffers(v, {}, h) by { SweptNothing(v, h); }
      while todo != {}
        invariant todo !! done && todo + done == v.matches.Keys
        invariant matches == SweptMatches(v, done, h) && offers == SweptOffers(v, done, h)
        decreases todo
      {
        var id :| id in todo;
        SweepOffersStep(v, done, id, h);
        SweepMatchesStep(v, done, id, h);
        SweepOne(id, h);
        todo, done := todo - {id}, done + {id};
      }
      assert done == v.matches.Keys;
    }

    method DropExpiredOffers(h: nat)
      modifies this`offers
      ensures offers == map oid | oid in old(offers) && h < old(offers)[oid].expiresAt :: old(offers)[oid]
    {
      ghost var full := offers;
      var left := offers.Keys;
      while left != {}
        invariant left <= full.Keys
        invariant offers == map oid | oid in full && (oid in left || h < full[oid].expiresAt) :: full[oid]
        decreases left
      {
        var oid :| oid in left;
        if offers[oid].expiresAt <= h {
          offers := offers - {oid};
        }
        left := left - {oid};
      }
    }

    method HashInUse(hash: string) returns (used: bool)
      ensures used <==> exists id :: id in matches && matches[id].hash == hash
    {
      var todo := matches.Keys;
      used := false;
      while todo != {} && !used
        invariant todo <= matches.Keys
        invariant used ==> exists id :: id in matches && matches[id].hash == hash
        invariant !used ==> forall id :: id in matches && id !in todo ==> matches[id].hash != hash
        decreases |todo|, !used
      {
        var id :| id in todo;
        used := matches[id].hash == hash;
        todo := todo - {id};
      }
    }

    method ApplyOp(w: Write, op: Op, h: nat) returns (err: Option<Reject>)
      modifies this
      ensures match OpOutcome(old(Now()), w, op, h)
              case Applied(v) => err == None && Now() == v
              case Rejected(r) => err == Some(r) && Now() == old(Now())
    {
      match op {
        case OfferPost(give, want, minFill, expiresIn) =>
          if give.amount < Dust(give.chain) || want.amount < Dust(want.chain) { return Some(LegBelowDust); }
          if minFill < Dust(give.chain) || ProRata(give, want, minFill) < Dust(want.chain) {
            return Some(MinFillAllowsDust);
          }
          if w.id in offers { return Some(DuplicateOffer); }
          offers := offers[w.id := Offer(w.id, w.writer, give, want, minFill, give.amount, h, h + expiresIn)];
        case OfferCancel(oid) =>
          if oid !in offers { return Some(NoSuchOffer); }
          if offers[oid].maker != w.writer { return Some(NotTheMaker); }
          offers := offers - {oid};
        case OfferTake(oid, fill, hash, takerKey) =>
          err := Take(w, op, h);
          return;
        case SwapProof(mid, makerKey, proof) =>
          err := Prove(w, op, h);
          return;
        case SwapLocked(mid, txid, vout) =>
          if mid !in matches { return Some(NoSuchMatch); }
          var m := matches[mid];
          if m.status != Escrow { return Some(NotInEscrow); }
          var hint := LockHint(txid, vout, h);
          if w.writer == m.maker {
            if m.makerLock.Some? { return Some(LockRepeated); }
            matches := matches[mid := m.(makerLock := Some(hint))];
          } else if w.writer == m.taker {
            if m.takerLock.Some? { return Some(LockRepeated); }
            matches := matches[mid := m.(takerLock := Some(hint))];
          } else {
            return Some(NotAParty);
          }
        case SwapAbort(mid) =>
          if mid !in matches { return Some(NoSuchMatch); }
          var m := matches[mid];
          if w.writer != m.maker { return Some(NotTheMaker); }
          if m.status == Cancelled { return Some(AlreadyCancelled); }
          if m.makerLock.Some? { return Some(MakerLocked); }
          matches := matches[mid := m.(status := Cancelled, cancelled := Some(Cancellation(h, Aborted)))];
          RestoreCapacity(m);
      }
      err := None;
    }

    method Take(w: Write, op: Op, h: nat) returns (err: Option<Reject>)
      requires op.OfferTake?
      modifies this
      ensures match TakeOffer(old(Now()), w, op, h)
              case Applied(v) => err == None && Now() == v
              case Rejected(r) => err == Some(r) && Now() == old(Now())
    {
      if op.offerId !in offers { return Some(NoSuchOffer); }
      var o := offers[op.offerId];
      if o.maker == w.writer { return Some(OwnOffer); }
      if op.fill < o.minFill { return Some(BelowMinimum); }
      if op.fill > o.remaining { return Some(OverCapacity); }
      var takerAmount := ProRata(o.give, o.want, op.fill);
      if op.fill < Dust(o.give.chain) || takerAmount < Dust(o.want.chain) { return Some(DustLeg); }
      if w.id in matches { return Some(DuplicateMatch); }
      var used := HashInUse(op.hash);
      if used { return Some(HashUsed); }
      offers := offers[op.offerId := o.(remaining := o.remaining - op.fill)];
      matches := matches[w.id := NewMatch(o, w, op.fill, op.hash, op.takerKey, h)];
      err := None;
    }

    method Prove(w: Write, op: Op, h: nat) returns (err: Option<Reject>)
      requires op.SwapProof?
      modifies this
      ensures match PostProof(old(Now()), w, op, h)
              case Applied(v) => err == None && Now() == v
              case Rejected(r) => err == Some(r) && Now() == old(Now())
    {
      if op.matchId !in matches { return Some(NoSuchMatch); }
      var m := matches[op.matchId];
      if m.status != AwaitingProofs || h > m.proofDeadline { return Some(NotAwaitingProofs); }
      if w.writer == m.maker {
        if m.makerProof.Some? { return Some(ProofRepeated); }
        if op.makerKey.None? { return Some(MakerKeyMissing); }
        if op.makerKey.value == m.takerKey { return Some(MakerKeyIsTakerKey); }
        if op.proof.chain != m.makerChain { return Some(WrongChain); }
        m := m.(makerProof := Some(op.proof), makerKey := op.makerKey);
      } else if w.writer == m.taker {
        if m.takerProof.Some? { return Some(ProofRepeated); }
        if op.makerKey.Some? { return Some(MakerKeyFromTaker); }
        if op.proof.chain != m.takerChain { return Some(WrongChain); }
        m := m.(takerProof := Some(op.proof));
      } else {
        return Some(NotAParty);
      }
      if m.makerProof.Some? && m.takerProof.Some? {
        m := m.(status := Escrow);
      }
      matches := matches[op.matchId := m];
      err := None;
    }
  }

  lemma SweptNothing(v: View, h: nat)
    ensures SweptMatches(v, {}, h) == v.matches && SweptOffers(v, {}, h) == v.offers
  {
    forall oid | oid in v.offers
      ensures GiveBack(v.offers[oid], v.matches, {}, oid, h) == v.offers[oid]
    {
      assert LapsingFills(v.matches, {}, oid, h) == map[];
    }
  }

  lemma GiveBackStep(o: Offer, ms: map<Id, Match>, done: set<Id>, id: Id, oid: Id, h: nat)
    requires id in ms && id !in done
    ensures GiveBack(o, ms, done + {id}, oid, h) ==
            var before := GiveBack(o, ms, done, oid, h);
            if Lapses(ms[id], h) && ms[id].offerId == oid
            then before.(remaining := before.remaining + ms[id].makerAmount) else before
  {
    LapsingFillsStep(ms, done, id, oid, h);
  }

  lemma SweepOffersStep(v: View, done: set<Id>, id: Id, h: nat)
    requires id in v.matches && id !in done
    ensures var m := v.matches[id];
            SweptOffers(v, done + {id}, h) ==
            if Lapses(m, h) then Restore(SweptOffers(v, done, h), m) else SweptOffers(v, done, h)
  {
    var m := v.matches[id];
    var before, after := SweptOffers(v, done, h), SweptOffers(v, done + {id}, h);
    forall oid | oid in v.offers
      ensures after[oid] == if Lapses(m, h) && m.offerId == oid
                            then before[oid].(remaining := before[oid].remaining + m.makerAmount) else before[oid]
    {
      GiveBackStep(v.offers[oid], v.matches, done, id, oid, h);
    }
    RestoreOne(before, after, m, Lapses(m, h));
  }

  lemma RestoreOne(before: map<Id, Offer>, after: map<Id, Offer>, m: Match, lapses: bool)
    requires before.Keys == after.Keys
    requires forall oid :: oid in before ==>
      after[oid] ==
        if lapses && m.offerId == oid then before[oid].(remaining := before[oid].remaining + m.makerAmount)
        else before[oid]
    ensures after == if lapses then Restore(before, m) else before
  {
    var want := if lapses then Restore(before, m) else before;
    assert after.Keys == want.Keys;
  }

  lemma SweepMatchesStep(v: View, done: set<Id>, id: Id, h: nat)
    requires id in v.matches && id !in done
    ensures var m := v.matches[id];
            var before := SweptMatches(v, done, h);
            SweptMatches(v, done + {id}, h) == if m.pruneAt <= h then before - {id} else before[id := Lapsed(m, h)]
  {
    var m := v.matches[id];
    var before := SweptMatches(v, done, h);
    var after := SweptMatches(v, done + {id}, h);
    var want := if m.pruneAt <= h then before - {id} else before[id := Lapsed(m, h)];
    assert after.Keys == want.Keys;
    forall k | k in after
      ensures after[k] == want[k]
    {
    }
  }

  lemma LapsingFillsStep(ms: map<Id, Match>, ids: set<Id>, id: Id, oid: Id, h: nat)
    requires id in ms && id !in ids
    ensures Total(LapsingFills(ms, ids + {id}, oid, h)) ==
            Total(LapsingFills(ms, ids, oid, h)) +
            if Lapses(ms[id], h) && ms[id].offerId == oid then ms[id].makerAmount else 0
  {
    var before := LapsingFills(ms, ids, oid, h);
    if Lapses(ms[id], h) && ms[id].offerId == oid {
      TotalAdd(before, id, ms[id].makerAmount);
      assert LapsingFills(ms, ids + {id}, oid, h) == before[id := ms[id].makerAmount];
    } else {
      assert LapsingFills(ms, ids + {id}, oid, h) == before;
    }
  }
}
