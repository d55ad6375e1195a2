/** The engine against the transition systems its safety is proved in: a tick is a move of theirs, and any
    sequence of ticks and of what else can happen is one of their runs. */
module SwapLink {
  import opened Primitives
  import opened Ops
  import opened Board
  import opened SwapTypes
  import opened SwapEngine
  import opened Runs
  import SwapRace
  import SwapReveal

  // ---------- maker ----------

  /** The maker's scan of the taker's HTLC shows the race as it stood at a height at most `allowed` old: an
      output that is still there and of the agreed amount is the taker's lock. */
  predicate ShowsTaker(s: SwapRace.Setting, allowed: int, w: SwapRace.Race, scan: Scan) {
    && 0 <= w.now - SwapRace.TakerBlock(s, scan.tip) <= allowed
    && forall o :: o in scan.outs && o.value == s.t.takerAmount && o.spend.None? ==>
         o == s.takerLock && w.takerLock == Unspent
  }

  /** The maker's scan of its own HTLC shows what became of its lock, and nothing of the agreed amount before
      there is one. */
  predicate ShowsOwn(s: SwapRace.Setting, lock: Option<Outpoint>, refund: Option<string>, w: SwapRace.Race,
                     scan: Scan) {
    if lock.None? then forall o :: o in scan.outs ==> o.value != s.t.makerAmount
    else
      var out := FindOut(scan.outs, lock.value);
      && (CounterClaim(out, refund).Some? ==> w.makerLock == Claimed)
      && (out.Some? && out.value.height.Some? ==>
          w.lockHeight == out.value.height && out.value.height.value <= scan.tip)
  }

  /** What a tick reads is true of the race. A funding that throws has sent nothing: SwapFunding is about one
      that has. */
  predicate TrueToRace(s: SwapRace.Setting, allowed: int, lock: Option<Outpoint>, refund: Option<string>,
                       w: SwapRace.Race, k: Tick) {
    ShowsTaker(s, allowed, w, k.theirs) && ShowsTaker(s, allowed, w, k.again) && ShowsOwn(s, lock, refund, w, k.mine)
  }

  /** The height the maker decided to lock on. */
  function DecidedOn(s: SwapRace.Setting, allowed: int, w: SwapRace.Race, k: Tick): SwapRace.Event {
    SwapRace.Decide(if SwapRace.Can(s, allowed, w, SwapRace.Decide(k.theirs.tip)) then k.theirs.tip else k.again.tip)
  }

  /** A funding is a Decide of the race, a claim comes only after the taker's, and a refund can be mined in any
      block from the next on. */
  method MakerTick(side: Side, s: SwapRace.Setting, allowed: int, w: SwapRace.Race, k: Tick)
    returns (posts: seq<Action>, funds: seq<Action>, claims: seq<Action>, refunds: seq<Action>)
    requires TrueToRace(s, allowed, side.myLock, side.refund, w, k) && (side.myLock.None? <==> w.decision.None?)
    modifies side
    ensures funds == [Fund(s.t.makerAmount)] ==>
              old(side.myLock).None? && SwapRace.Can(s, allowed, w, DecidedOn(s, allowed, w, k))
    ensures side.myLock ==
              if old(side.myLock).None? && funds == [Fund(s.t.makerAmount)] then k.funded else old(side.myLock)
    ensures old(side.myLock).Some? && (exists o, secret :: Claim(o, secret) in claims) ==> w.makerLock == Claimed
    ensures old(side.myLock).Some? && 1 <= s.t.makerRefundBlocks && (exists o :: Refund(o) in refunds) ==>
              RefundPasses(s, allowed, w, k.mine.tip)
  {
    posts, funds, claims, refunds := side.StepMaker(s.t, s.p, k);
    if funds == [Fund(s.t.makerAmount)] {
      ghost var scan := TakerScan(s.t, k, old(side.theirProof));
      ghost var o :| Picked(scan.outs, s.t.takerAmount, true, Some(o)) && MakerMayLock(s.t, s.p, o, scan.tip);
      assert ShowsTaker(s, allowed, w, scan) && o == s.takerLock;
      assert SwapRace.Can(s, allowed, w, SwapRace.Decide(scan.tip));
    }
    ghost var out := if old(side.myLock).Some? then FindOut(k.mine.outs, old(side.myLock).value) else None;
    if out.Some? && out.value.height.Some? && out.value.spend.None? {
      RefundIsMature(out.value, k.mine.tip, s.t.makerRefundBlocks);
    }
  }

  /** Unless the lock is spent first, the refund can be in any block above that height. */
  ghost predicate RefundPasses(s: SwapRace.Setting, allowed: int, w: SwapRace.Race, tip: nat) {
    w.lockHeight.Some? &&
    (w.makerLock == Unspent ==>
       forall n {:trigger SwapRace.MakerBlock(s, n)} :: tip < n ==>
         SwapRace.Can(s, allowed, w.(now := SwapRace.MakerBlock(s, n)), SwapRace.MakerRefunds(n)))
  }

  /** A lock with as many confirmations as its timelock can be refunded in the next block, and no sooner. */
  lemma RefundIsMature(o: HtlcOut, tip: nat, blocks: nat)
    requires o.height.Some? && o.height.value <= tip && o.spend.None?
    ensures RefundOpen(o, tip, blocks) <==> o.height.value + blocks <= tip + 1
  {
  }

  // ---------- a run of the maker's engine ----------

  /** What else happens, or a tick of the engine. */
  datatype MakerMove = Elsewhere(e: SwapRace.Event) | Ticks(k: Tick)

  /** Any sequence of ticks, among anything the counterparty, the networks and the clock can do, is a run of the
      race. What cannot happen when its turn comes, and a tick that reads what is not so, is passed over. */
  method DriveMaker(side: Side, s: SwapRace.Setting, allowed: int, w0: SwapRace.Race, moves: seq<MakerMove>)
    returns (w: SwapRace.Race, ghost es: seq<SwapRace.Event>)
    requires SwapRace.Start(w0) && side.myLock.None?
    modifies side
    ensures Leads(SwapRace.Rules(s, allowed), w0, es, w) && (side.myLock.None? <==> w.decision.None?)
    ensures allowed < s.p.windowMarginSecs ==> !SwapRace.Cheated(w)
  {
    w, es := w0, [];
    for i := 0 to |moves|
      invariant Leads(SwapRace.Rules(s, allowed), w0, es, w) && (side.myLock.None? <==> w.decision.None?)
    {
      match moves[i]
      case Elsewhere(e) =>
        if !e.Decide? && SwapRace.Can(s, allowed, w, e) {
          NextStep(SwapRace.Rules(s, allowed), w0, es, w, e);
          w, es := SwapRace.After(s, w, e), es + [e];
        }
      case Ticks(k) =>
        if TrueToRace(s, allowed, side.myLock, side.refund, w, k) {
          var was := side.myLock;
          var posts, funds, claims, refunds := MakerTick(side, s, allowed, w, k);
          if was.None? && side.myLock.Some? {
            var e := DecidedOn(s, allowed, w, k);
            NextStep(SwapRace.Rules(s, allowed), w0, es, w, e);
            w, es := SwapRace.After(s, w, e), es + [e];
          }
        }
    }
    if allowed < s.p.windowMarginSecs { SwapRace.MakerSafe(s, allowed, w0, es); }
  }

  // ---------- taker ----------

  /** The taker's scan of the maker's HTLC shows outputs the chain has, at a height the safety margin still
      covers, and what became of the one it claimed. */
  predicate ShowsMaker(t: Terms, w: SwapReveal.Swap, scan: Scan) {
    && scan.tip <= w.tip <= scan.tip + ClaimSafetyBlocks(t.makerRefundBlocks)
    && forall o :: o in scan.outs && o.spend.None? ==>
         if o.height.Some?
         then && o.height.value <= scan.tip && o.at in w.coins
              && w.coins[o.at] == SwapReveal.Coin(o.value, o.height.value, Unspent)
         else w.shown.None? || w.shown.value.at != o.at
  }

  /** A claim is a Decides of the reveal, for exactly what is owed, and is sent again only while it is pending. */
  method TakerTick(side: Side, t: Terms, p: Policy, w: SwapReveal.Swap, k: Tick)
    returns (posts: seq<Action>, funds: seq<Action>, claims: seq<Action>, refunds: seq<Action>)
    requires ShowsMaker(t, w, k.later) && Knows(side, w)
    modifies side
    ensures claims == [] || claims[0].Claim? || claims[0].Resend?
    ensures claims != [] ==> SwapReveal.Can(t, p, SwapReveal.FromDecision, w, Sent(claims[0], k))
    ensures Knows(side, if claims == [] then w else SwapReveal.After(w, Sent(claims[0], k)))
  {
    posts, funds, claims, refunds := side.StepTaker(t, p, k);
  }

  function Sent(a: Action, k: Tick): SwapReveal.Event {
    if a.Claim? then SwapReveal.Decides(a.at, k.later.tip) else SwapReveal.Resends
  }

  /** The engine's claim is the one that is out. */
  ghost predicate Knows(side: Side, w: SwapReveal.Swap)
    reads side
  {
    && side.ClaimWithLock() && (side.claim.Some? <==> w.shown.Some?)
    && (w.shown.Some? ==> side.theirLock == Some(w.shown.value.at))
  }

  // ---------- a run of the taker's engine ----------

  datatype TakerMove = Around(e: SwapReveal.Event) | TakerTicks(k: Tick)

  /** Any sequence of ticks, among anything the maker and the networks can do, is a run of the reveal. */
  method DriveTaker(side: Side, t: Terms, p: Policy, w0: SwapReveal.Swap, moves: seq<TakerMove>)
    returns (w: SwapReveal.Swap, ghost es: seq<SwapReveal.Event>)
    requires SwapReveal.Start(w0) && side.claim.None? && side.theirLock.None?
    modifies side
    ensures Leads(SwapReveal.Rules(t, p, SwapReveal.FromDecision), w0, es, w) && Knows(side, w)
    ensures SwapReveal.Paid(t, w)
  {
    ghost var m := SwapReveal.Rules(t, p, SwapReveal.FromDecision);
    w, es := w0, [];
    for i := 0 to |moves|
      invariant Leads(m, w0, es, w) && Knows(side, w)
    {
      match moves[i]
      case Around(e) =>
        if !e.Decides? && !e.Resends? && SwapReveal.Can(t, p, SwapReveal.FromDecision, w, e) {
          NextStep(m, w0, es, w, e);
          w, es := SwapReveal.After(w, e), es + [e];
        }
      case TakerTicks(k) =>
        if ShowsMaker(t, w, k.later) {
          var posts, funds, claims, refunds := TakerTick(side, t, p, w, k);
          if claims != [] {
            var e := Sent(claims[0], k);
            NextStep(m, w0, es, w, e);
            w, es := SwapReveal.After(w, e), es + [e];
          }
        }
    }
    SwapReveal.TakerSafe(t, p, SwapReveal.FromDecision);
  }

  // ---------- what a funding rests on ----------

  /** A tick on which the taker, its keys in order, has the maker's proof of funds before it and gets a verdict. */
  predicate Judged(k: Tick) {
    k.keyOk && k.m.Some? && k.m.value.makerProof.Some? && k.verdict.Some?
  }

  /** The first verdict among the first n ticks. */
  function FirstVerdict(ticks: seq<Tick>, n: nat): Option<bool>
    requires n <= |ticks|
  {
    if n == 0 then None
    else if FirstVerdict(ticks, n - 1).Some? then FirstVerdict(ticks, n - 1)
    else if Judged(ticks[n - 1]) then ticks[n - 1].verdict else None
  }

  lemma {:induction false} FirstVerdictIs(ticks: seq<Tick>, n: nat)
    requires n <= |ticks|
    ensures FirstVerdict(ticks, n).None? ==> forall j :: 0 <= j < n ==> !Judged(ticks[j])
    ensures FirstVerdict(ticks, n).Some? ==>
              exists i :: && 0 <= i < n && Judged(ticks[i]) && ticks[i].verdict == FirstVerdict(ticks, n)
                          && forall j :: 0 <= j < i ==> !Judged(ticks[j])
  {
    if n > 0 { FirstVerdictIs(ticks, n - 1); }
  }

  /** The board has the match in escrow, with the margin to go until the maker may give up, and nothing of the
      amount is on the chain. */
  predicate InTime(t: Terms, p: Policy, k: Tick) {
    && k.m.Some? && k.m.value.status == MatchStatus.Escrow
    && k.h.Some? && k.h.value < t.pruneAt && k.h.value + p.lockMarginAnchors <= t.proofDeadline + TAKER_LOCK_WINDOW
    && forall o :: o in k.mine.outs ==> o.value != t.takerAmount
  }

  /** In any sequence of ticks from the start, the taker funds only after the first verdict it got on the maker's
      proof of funds, only if that one was good, and only in time. */
  method FundsBehindProof(side: Side, t: Terms, p: Policy, ticks: seq<Tick>) returns (log: seq<seq<Action>>)
    requires side.stage == Proofs && side.myLock.None? && side.theirProof.None?
    modifies side
    ensures |log| == |ticks|
    ensures forall n :: 0 <= n < |log| && log[n] != [] ==>
              exists i :: && 0 <= i <= n && Judged(ticks[i]) && ticks[i].verdict == Some(true)
                          && forall j :: 0 <= j < i ==> !Judged(ticks[j])
    ensures forall n :: 0 <= n < |log| && log[n] != [] ==> InTime(t, p, ticks[n])
  {
    log := [];
    for n := 0 to |ticks|
      invariant |log| == n
      invariant side.Over() || side.myLock.Some? || side.theirProof == FirstVerdict(ticks, n)
      invariant forall i :: 0 <= i < n && log[i] != [] ==>
                  FirstVerdict(ticks, i + 1) == Some(true) && InTime(t, p, ticks[i])
    {
      var posts, funds, claims, refunds := side.StepTaker(t, p, ticks[n]);
      log := log + [funds];
    }
    forall n | 0 <= n < |log| && log[n] != []
      ensures exists i :: && 0 <= i <= n && Judged(ticks[i]) && ticks[i].verdict == Some(true)
                          && forall j :: 0 <= j < i ==> !Judged(ticks[j])
    {
      FirstVerdictIs(ticks, n + 1);
    }
  }
}
