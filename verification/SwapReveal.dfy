/** The taker's side of a swap against a counterparty that picks every move: when its secret comes out,
    and what it has in hand when the maker can use it (src/swap/engine.ts, stepTaker). */
module SwapReveal {
  import opened Primitives
  import opened Ops
  import opened Board
  import opened SwapTypes
  import opened Runs

  /** An output paying the maker's HTLC, in a block. */
  datatype Coin = Coin(value: nat, height: nat, fate: Fate)

  /** The taker's claim: of which output, decided at which height, last sent at which. */
  datatype Reveal = Reveal(at: Outpoint, seen: nat, sent: nat)

  /** The maker's chain, the taker's claim, and the taker's own lock on the other chain. */
  datatype Swap = Swap(tip: nat, coins: map<Outpoint, Coin>, shown: Option<Reveal>, takerLock: Fate)

  datatype Event =
    | Block
    | Appears(at: Outpoint, value: nat)
    | Decides(at: Outpoint, seen: nat)
    | Resends
    | ClaimMined
    | MakerRefunds(at: Outpoint)
    | MakerTakes
    | TakerRefunds

  function AsOut(at: Outpoint, c: Coin): HtlcOut {
    HtlcOut(at, c.value, Some(c.height), if c.fate == Unspent then None else Some(Spend("", None, [])))
  }

  predicate Pending(w: Swap) {
    w.shown.Some? && w.shown.value.at in w.coins && w.coins[w.shown.value.at].fate == Unspent
  }

  /** What the taker's safety margin is counted from: the height it decided at, or the height it last
      sent its claim at, when it sends it again only up to so many confirmations of the maker's lock. */
  datatype Timing = FromDecision | FromLastSend(limit: nat)

  /** The height by which the network mines a claim. */
  function MinedBy(t: Terms, w: Swap, timing: Timing): nat
    requires w.shown.Some?
  {
    (if timing.FromDecision? then w.shown.value.seen else w.shown.value.sent) + ClaimSafetyBlocks(t.makerRefundBlocks)
  }

  predicate Can(t: Terms, p: Policy, timing: Timing, w: Swap, e: Event) {
    match e
    case Block => Pending(w) ==> w.tip < MinedBy(t, w, timing)
    case Appears(at, _) => at !in w.coins
    case Decides(at, seen) =>
      && w.shown.None? && at in w.coins && w.coins[at].value == t.makerAmount
      && w.coins[at].height <= seen <= w.tip <= seen + ClaimSafetyBlocks(t.makerRefundBlocks)
      && TakerMayClaim(t, p, AsOut(at, w.coins[at]), seen)
    case Resends =>
      && Pending(w)
      && (timing.FromLastSend? ==> ConfsOf(Some(w.coins[w.shown.value.at].height), w.tip) <= timing.limit)
    case ClaimMined => Pending(w)
    case MakerRefunds(at) =>
      at in w.coins && w.coins[at].fate == Unspent && w.coins[at].height + t.makerRefundBlocks <= w.tip
    case MakerTakes => w.shown.Some? && w.takerLock == Unspent
    case TakerRefunds => w.takerLock == Unspent
  }

  function After(w: Swap, e: Event): Swap {
    match e
    case Block => w.(tip := w.tip + 1)
    case Appears(at, v) => w.(coins := w.coins[at := Coin(v, w.tip, Unspent)])
    case Decides(at, seen) => w.(shown := Some(Reveal(at, seen, seen)))
    case Resends => if w.shown.Some? then w.(shown := Some(w.shown.value.(sent := w.tip))) else w
    case ClaimMined =>
      if Pending(w) then w.(coins := w.coins[w.shown.value.at := w.coins[w.shown.value.at].(fate := Claimed)]) else w
    case MakerRefunds(at) => if at in w.coins then w.(coins := w.coins[at := w.coins[at].(fate := Refunded)]) else w
    case MakerTakes => w.(takerLock := Claimed)
    case TakerRefunds => w.(takerLock := Refunded)
  }

  function Rules(t: Terms, p: Policy, timing: Timing): Machine<Swap, Event> {
    Machine((w, e) => Can(t, p, timing, w, e), (w, e) => After(w, e))
  }

  predicate Start(w: Swap) {
    w.shown.None? && w.takerLock == Unspent && w.coins == map[]
  }

  /** What the taker has in hand once its secret is out: an output of exactly what it is owed, its own
      or with a refund that is not valid yet and will not be before the claim is mined. */
  predicate InHand(t: Terms, timing: Timing, w: Swap) {
    w.shown.Some? ==>
      && w.shown.value.at in w.coins
      && var c := w.coins[w.shown.value.at];
         && c.value == t.makerAmount && c.height <= w.tip
         && (c.fate == Claimed
             || (c.fate == Unspent && w.tip <= MinedBy(t, w, timing) && BeatsRefund(t, c, MinedBy(t, w, timing))))
  }

  predicate Kept(t: Terms, timing: Timing, w: Swap) {
    InHand(t, timing, w) && (w.takerLock == Claimed ==> w.shown.Some?)
  }

  /** Mined at `k`, before the maker's refund can be. */
  predicate BeatsRefund(t: Terms, c: Coin, k: int) {
    k < c.height + t.makerRefundBlocks
  }

  /** A claim sent at height `sent` and mined within the margin always beats the refund exactly when the
      test made before the first broadcast holds there. */
  lemma SendIsSafeIff(t: Terms, c: Coin, sent: nat)
    requires c.height <= sent
    ensures (forall k :: sent <= k <= sent + ClaimSafetyBlocks(t.makerRefundBlocks) ==> BeatsRefund(t, c, k))
            <==> ConfsOf(Some(c.height), sent) + ClaimSafetyBlocks(t.makerRefundBlocks) <= t.makerRefundBlocks
  {
    var last := sent + ClaimSafetyBlocks(t.makerRefundBlocks);
    assert BeatsRefund(t, c, last) <==> last < c.height + t.makerRefundBlocks;
  }

  /** The margin is counted from the decision, or the limit on sending again respects it. */
  predicate Heeds(t: Terms, timing: Timing) {
    timing.FromDecision? || timing.limit + ClaimSafetyBlocks(t.makerRefundBlocks) <= t.makerRefundBlocks
  }

  lemma StepKeeps(t: Terms, p: Policy, timing: Timing, w: Swap, e: Event)
    requires Kept(t, timing, w) && Can(t, p, timing, w, e) && Heeds(t, timing)
    ensures Kept(t, timing, After(w, e))
  {
    if e.Resends? { SendIsSafeIff(t, w.coins[w.shown.value.at], w.tip); }
  }

  /** The maker's claim of the taker's lock means the taker has revealed its secret for an output of
      exactly makerAmount that the maker has not got back, and cannot before the claim is mined. */
  predicate Paid(t: Terms, end: Swap) {
    end.takerLock == Claimed ==>
      && end.shown.Some? && end.shown.value.at in end.coins
      && var c := end.coins[end.shown.value.at];
         c.value == t.makerAmount && c.fate != Refunded
             && (c.fate == Unspent ==> end.tip < c.height + t.makerRefundBlocks)
  }

  /** Whatever the maker does. */
  ghost predicate TakerPaid(t: Terms, p: Policy, timing: Timing) {
    forall w, es :: Start(w) && Possible(Rules(t, p, timing), w, es) ==> Paid(t, Run(Rules(t, p, timing), w, es))
  }

  /** Taker-side atomicity: a claim mined within the margin of its decision, or sent again only while the
      window test still holds, leaves the taker paid in every run. */
  lemma TakerSafe(t: Terms, p: Policy, timing: Timing)
    requires Heeds(t, timing)
    ensures TakerPaid(t, p, timing)
  {
    var m := Rules(t, p, timing);
    forall w, es | Start(w) && Possible(m, w, es) ensures Paid(t, Run(m, w, es)) {
      forall v, e | Kept(t, timing, v) && m.can(v, e) ensures Kept(t, timing, m.after(v, e)) {
        StepKeeps(t, p, timing, v, e);
      }
      Invariant(m, v => Kept(t, timing, v), w, es);
    }
  }

  // ---------- a claim that is sent again too late ----------

  const LOCK := Outpoint("", 0)

  /** Some number of confirmations both suffices and leaves the margin. */
  predicate CanClaim(t: Terms, p: Policy) {
    var last := t.makerRefundBlocks - ClaimSafetyBlocks(t.makerRefundBlocks);
    1 <= last && Confirmations(p, t.makerChain) <= last
  }

  lemma {:induction false} Blocks(t: Terms, p: Policy, timing: Timing, w: Swap, n: nat) returns (es: seq<Event>)
    requires Pending(w) ==> w.tip + n <= MinedBy(t, w, timing)
    ensures Leads(Rules(t, p, timing), w, es, w.(tip := w.tip + n))
    decreases n
  {
    es := [];
    if n > 0 {
      es := Blocks(t, p, timing, w, n - 1);
      NextStep(Rules(t, p, timing), w, es, w.(tip := w.tip + n - 1), Block);
      es := es + [Block];
    }
  }

  function With(t: Terms, tip: nat, fate: Fate, shown: Option<Reveal>, mine: Fate): Swap {
    Swap(tip, map[LOCK := Coin(t.makerAmount, 0, fate)], shown, mine)
  }

  /** Decided on the last height that leaves the margin. */
  lemma DecidesLate(t: Terms, p: Policy, timing: Timing, seen: nat) returns (es: seq<Event>)
    requires CanClaim(t, p) && seen + 1 + ClaimSafetyBlocks(t.makerRefundBlocks) == t.makerRefundBlocks
    ensures Leads(Rules(t, p, timing), Swap(0, map[], None, Unspent), es,
                  With(t, seen, Unspent, Some(Reveal(LOCK, seen, seen)), Unspent))
  {
    var m, w := Rules(t, p, timing), Swap(0, map[], None, Unspent);
    OneStep(m, w, Appears(LOCK, t.makerAmount));
    var there := With(t, 0, Unspent, None, Unspent);
    var blocks := Blocks(t, p, timing, there, seen);
    LeadsOn(m, w, [Appears(LOCK, t.makerAmount)], there, blocks, there.(tip := seen));
    es := [Appears(LOCK, t.makerAmount)] + blocks;
    NextStep(m, w, es, there.(tip := seen), Decides(LOCK, seen));
    es := es + [Decides(LOCK, seen)];
  }

  /** Sent again one block later, mined a margin after that at best; by then the maker has its refund. */
  lemma SendsTooLate(t: Terms, p: Policy, limit: nat, seen: nat) returns (es: seq<Event>)
    requires CanClaim(t, p) && seen + 1 + ClaimSafetyBlocks(t.makerRefundBlocks) == t.makerRefundBlocks
               && seen + 2 <= limit
    ensures Leads(Rules(t, p, FromLastSend(limit)), With(t, seen, Unspent, Some(Reveal(LOCK, seen, seen)), Unspent), es,
                  With(t, t.makerRefundBlocks, Refunded, Some(Reveal(LOCK, seen, seen + 1)), Claimed))
  {
    var m := Rules(t, p, FromLastSend(limit));
    var w := With(t, seen, Unspent, Some(Reveal(LOCK, seen, seen)), Unspent);
    var sent := With(t, seen + 1, Unspent, Some(Reveal(LOCK, seen, seen + 1)), Unspent);
    var late := sent.(tip := t.makerRefundBlocks);
    OneStep(m, w, Block);
    NextStep(m, w, [Block], w.(tip := seen + 1), Resends);
    es := [Block] + [Resends];
    var blocks := Blocks(t, p, FromLastSend(limit), sent, ClaimSafetyBlocks(t.makerRefundBlocks));
    LeadsOn(m, w, es, sent, blocks, late);
    es := es + blocks;
    NextStep(m, w, es, late, MakerRefunds(LOCK));
    es := es + [MakerRefunds(LOCK)];
    var refunded := With(t, t.makerRefundBlocks, Refunded, Some(Reveal(LOCK, seen, seen + 1)), Unspent);
    assert After(late, MakerRefunds(LOCK)).coins == refunded.coins;
    NextStep(m, w, es, refunded, MakerTakes);
    es := es + [MakerTakes];
  }

  /** For any terms under which a claim can be decided at all: sent again once past the window test, and
      mined within the margin of that, it can lose the taker both. */
  lemma LateResendCheats(t: Terms, p: Policy, limit: nat)
    requires CanClaim(t, p) && t.makerRefundBlocks < limit + ClaimSafetyBlocks(t.makerRefundBlocks)
    ensures !TakerPaid(t, p, FromLastSend(limit))
  {
    var seen: nat := t.makerRefundBlocks - ClaimSafetyBlocks(t.makerRefundBlocks) - 1;
    var first := DecidesLate(t, p, FromLastSend(limit), seen);
    var rest := SendsTooLate(t, p, limit, seen);
    var mid := With(t, seen, Unspent, Some(Reveal(LOCK, seen, seen)), Unspent);
    var end := With(t, t.makerRefundBlocks, Refunded, Some(Reveal(LOCK, seen, seen + 1)), Claimed);
    LeadsOn(Rules(t, p, FromLastSend(limit)), Swap(0, map[], None, Unspent), first, mid, rest, end);
    assert Start(Swap(0, map[], None, Unspent)) && !Paid(t, end);
  }

  /** Counted from the last send, the margin protects the taker in every run if and only if claims are
      sent again only while the window test still holds. */
  lemma ResendSafeIff(t: Terms, p: Policy, limit: nat)
    requires CanClaim(t, p)
    ensures TakerPaid(t, p, FromLastSend(limit))
            <==> limit + ClaimSafetyBlocks(t.makerRefundBlocks) <= t.makerRefundBlocks
  {
    if limit + ClaimSafetyBlocks(t.makerRefundBlocks) <= t.makerRefundBlocks {
      TakerSafe(t, p, FromLastSend(limit));
    } else {
      LateResendCheats(t, p, limit);
    }
  }
}
