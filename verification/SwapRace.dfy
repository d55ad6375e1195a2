/** The maker's side of a swap against a counterparty that picks every moment: two chains at target
    spacing, and delays that are counted wherever the honest engine or the network is late
    (src/swap/engine.ts, stepMaker). */
module SwapRace {
  import opened Primitives
  import opened Ops
  import opened Board
  import opened SwapTypes
  import opened Runs

  /** The agreed terms, the first block times of the two chains, and the taker's lock. */
  datatype Setting = Setting(t: Terms, p: Policy, makerStart: int, takerStart: int, takerLock: HtlcOut)

  /** What the maker's decision to lock was made on: when, and the taker-chain height it saw. */
  datatype Decision = Decision(at: int, tip: nat)

  datatype Race = Race(now: int, decision: Option<Decision>, lockHeight: Option<nat>, makerLock: Fate, takerLock: Fate,
                       delay: int)

  function MakerBlock(s: Setting, k: nat): int {
    s.makerStart + k * BlockSeconds(s.t.makerChain)
  }

  function TakerBlock(s: Setting, k: nat): int {
    s.takerStart + k * BlockSeconds(s.t.takerChain)
  }

  function TakerHeight(s: Setting): nat {
    if s.takerLock.height.Some? then s.takerLock.height.value else 0
  }

  /** The time from which waiting counts as delay: the maker's lock not in the next block, its refund
      not mined when it opens, or its claim not mined once the secret is out. */
  function Due(s: Setting, w: Race): Option<int> {
    if w.decision.None? then None
    else if w.lockHeight.None? then Some(w.decision.value.at + BlockSeconds(s.t.makerChain))
    else if w.makerLock == Unspent then Some(MakerBlock(s, w.lockHeight.value + s.t.makerRefundBlocks))
    else if w.makerLock == Claimed && w.takerLock == Unspent then Some(w.now)
    else None
  }

  function Late(due: Option<int>, now: int, until: int): int {
    if due.None? then 0 else if until <= due.value then 0 else until - if now < due.value then due.value else now
  }

  datatype Event =
    | Wait(seconds: nat)
    | Decide(tip: nat)
    | LockMined(height: nat)
    | TakerClaims(height: nat)
    | MakerRefunds(height: nat)
    | TakerRefunds(height: nat)
    | MakerClaims(height: nat)

  /** What can happen next. `allowed` bounds the delay over the whole run, the age of the height the
      maker decided on included. A refund can be mined no lower than its timelock, a claim by the maker
      only once the taker's claim shows the secret. */
  predicate Can(s: Setting, allowed: int, w: Race, e: Event) {
    match e
    case Wait(n) => w.delay + Late(Due(s, w), w.now, w.now + n) <= allowed
    case Decide(tip) =>
      && w.decision.None? && w.takerLock == Unspent && MakerMayLock(s.t, s.p, s.takerLock, tip)
      && 0 <= w.now - TakerBlock(s, tip) <= allowed
    case LockMined(k) => w.decision.Some? && w.lockHeight.None? && MakerBlock(s, k) == w.now
    case TakerClaims(k) => w.lockHeight.Some? && w.makerLock == Unspent && MakerBlock(s, k) == w.now
    case MakerRefunds(k) =>
      && w.lockHeight.Some? && w.makerLock == Unspent && MakerBlock(s, k) == w.now
      && w.lockHeight.value + s.t.makerRefundBlocks <= k
    case TakerRefunds(k) =>
      w.takerLock == Unspent && TakerBlock(s, k) == w.now && TakerHeight(s) + s.t.takerRefundBlocks <= k
    case MakerClaims(k) => w.makerLock == Claimed && w.takerLock == Unspent && TakerBlock(s, k) == w.now
  }

  function After(s: Setting, w: Race, e: Event): Race {
    match e
    case Wait(n) => w.(now := w.now + n, delay := w.delay + Late(Due(s, w), w.now, w.now + n))
    case Decide(tip) => w.(decision := Some(Decision(w.now, tip)), delay := w.now - TakerBlock(s, tip))
    case LockMined(k) => w.(lockHeight := Some(k))
    case TakerClaims(_) => w.(makerLock := Claimed)
    case MakerRefunds(_) => w.(makerLock := Refunded)
    case TakerRefunds(_) => w.(takerLock := Refunded)
    case MakerClaims(_) => w.(takerLock := Claimed)
  }

  function Rules(s: Setting, allowed: int): Machine<Race, Event> {
    Machine((w, e) => Can(s, allowed, w, e), (w, e) => After(s, w, e))
  }

  predicate Start(w: Race) {
    w.decision.None? && w.lockHeight.None? && w.makerLock == Unspent && w.takerLock == Unspent && w.delay == 0
  }

  /** The taker has the maker's coins and its own. */
  predicate Cheated(w: Race) {
    w.makerLock == Claimed && w.takerLock == Refunded
  }

  predicate DecidedOn(w: Race, tip: nat) {
    w.decision.Some? && w.decision.value.tip == tip
  }

  /** How much later than the maker's own the taker's refund opens, as seen at `tip`. */
  function Slack(s: Setting, tip: nat): int {
    TakerRefundSecs(s.t, TakerHeight(s), tip) - (s.t.makerRefundBlocks + 1) * BlockSeconds(s.t.makerChain)
  }

  /** The latest moment the maker's coins can still be in doubt, given the delay so far. */
  function Horizon(s: Setting, w: Race): int
    requires w.decision.Some?
  {
    TakerBlock(s, w.decision.value.tip) + (s.t.makerRefundBlocks + 1) * BlockSeconds(s.t.makerChain) + w.delay
  }

  /** The latest moment the maker's lock can be mined. */
  function LockBy(s: Setting, w: Race): int
    requires w.decision.Some?
  {
    Horizon(s, w) - s.t.makerRefundBlocks * BlockSeconds(s.t.makerChain)
  }

  predicate Kept(s: Setting, w: Race, allowed: int) {
    && (w.decision.None? ==> w.lockHeight.None? && w.makerLock == Unspent)
    && (w.lockHeight.None? ==> w.makerLock == Unspent)
    && (w.decision.Some? ==>
          && w.delay <= allowed
          && (w.lockHeight.None? ==>
                w.now <= LockBy(s, w) && w.decision.value.at + BlockSeconds(s.t.makerChain) <= LockBy(s, w))
          && (w.lockHeight.Some? && w.makerLock == Unspent ==>
                && MakerBlock(s, w.lockHeight.value + s.t.makerRefundBlocks) <= Horizon(s, w)
                && w.now <= Horizon(s, w))
          && (w.makerLock == Claimed && w.takerLock == Unspent ==> w.now <= Horizon(s, w))
          && (w.takerLock == Refunded ==> w.makerLock == Refunded))
  }

  /** While the delay stays below the slack, the taker's refund lies past the horizon. */
  lemma RefundIsFar(s: Setting, w: Race, k: nat)
    requires w.decision.Some? && w.delay < Slack(s, w.decision.value.tip)
    requires TakerHeight(s) + s.t.takerRefundBlocks <= k
    ensures Horizon(s, w) < TakerBlock(s, k)
  {
    var tip, sec := w.decision.value.tip, BlockSeconds(s.t.takerChain);
    var opens := TakerHeight(s) + s.t.takerRefundBlocks;
    Distribute(opens - tip, tip, sec);
    Distribute(k - opens, opens, sec);
    ProductOrder(0, k - opens, sec);
  }

  lemma StepKeeps(s: Setting, allowed: int, w: Race, e: Event)
    requires Kept(s, w, allowed) && Can(s, allowed, w, e)
    requires w.decision.Some? ==> allowed < Slack(s, w.decision.value.tip)
    ensures Kept(s, After(s, w, e), allowed)
  {
    var sec := BlockSeconds(s.t.makerChain);
    Distribute(s.t.makerRefundBlocks, 1, sec);
    match e {
      case LockMined(k) => Distribute(k, s.t.makerRefundBlocks, sec);
      case TakerRefunds(k) =>
        if w.decision.Some? { RefundIsFar(s, w, k); }
      case _ =>
    }
  }

  /** Decided on another height, or in order. */
  predicate KeptFor(s: Setting, allowed: int, tip: nat, w: Race) {
    (w.decision.Some? && !DecidedOn(w, tip)) || Kept(s, w, allowed)
  }

  lemma SlackIsEnough(s: Setting, allowed: int, tip: nat, w: Race, es: seq<Event>)
    requires Start(w) && Possible(Rules(s, allowed), w, es) && allowed < Slack(s, tip)
    requires DecidedOn(Run(Rules(s, allowed), w, es), tip)
    ensures !Cheated(Run(Rules(s, allowed), w, es))
  {
    var m := Rules(s, allowed);
    forall v, e | KeptFor(s, allowed, tip, v) && m.can(v, e) ensures KeptFor(s, allowed, tip, m.after(v, e)) {
      if v.decision.None? || DecidedOn(v, tip) { StepKeeps(s, allowed, v, e); }
    }
    Invariant(m, v => KeptFor(s, allowed, tip, v), w, es);
  }

  // ---------- the slack is exact ----------

  /** With as much delay as the slack: decide so that the lock is in the next block, claim when the
      maker's refund opens, and hold the maker's claim back until the taker's refund does. */
  lemma SlackIsUsed(s: Setting, allowed: int, tip: nat, k: nat) returns (w: Race, es: seq<Event>)
    requires MakerMayLock(s.t, s.p, s.takerLock, tip) && Slack(s, tip) <= allowed
    requires 0 <= MakerBlock(s, k) - TakerBlock(s, tip) - BlockSeconds(s.t.makerChain) <= Slack(s, tip)
    ensures Start(w) && Possible(Rules(s, allowed), w, es)
    ensures DecidedOn(Run(Rules(s, allowed), w, es), tip) && Cheated(Run(Rules(s, allowed), w, es))
  {
    var locked := UpToLock(s, allowed, tip, k);
    var stolen := FromLock(s, allowed, tip, k);
    w := Race(DecideAt(s, k), None, None, Unspent, Unspent, 0);
    es := locked + stolen;
    LeadsOn(Rules(s, allowed), w, locked, LockedAt(s, tip, k), stolen, StolenAt(s, tip, k));
  }

  /** One block before the maker's `k`-th. */
  function DecideAt(s: Setting, k: nat): int {
    MakerBlock(s, k) - BlockSeconds(s.t.makerChain)
  }

  function LockedAt(s: Setting, tip: nat, k: nat): Race {
    Race(MakerBlock(s, k), Some(Decision(DecideAt(s, k), tip)), Some(k), Unspent, Unspent,
         DecideAt(s, k) - TakerBlock(s, tip))
  }

  function StolenAt(s: Setting, tip: nat, k: nat): Race {
    Race(TakerBlock(s, TakerHeight(s) + s.t.takerRefundBlocks), Some(Decision(DecideAt(s, k), tip)), Some(k),
         Claimed, Refunded, Slack(s, tip))
  }

  lemma UpToLock(s: Setting, allowed: int, tip: nat, k: nat) returns (es: seq<Event>)
    requires MakerMayLock(s.t, s.p, s.takerLock, tip) && Slack(s, tip) <= allowed
    requires 0 <= MakerBlock(s, k) - TakerBlock(s, tip) - BlockSeconds(s.t.makerChain) <= Slack(s, tip)
    ensures Leads(Rules(s, allowed), Race(DecideAt(s, k), None, None, Unspent, Unspent, 0), es, LockedAt(s, tip, k))
  {
    var m, sec := Rules(s, allowed), BlockSeconds(s.t.makerChain);
    var w := Race(DecideAt(s, k), None, None, Unspent, Unspent, 0);
    var decided := w.(decision := Some(Decision(w.now, tip)), delay := w.now - TakerBlock(s, tip));
    OneStep(m, w, Decide(tip));
    NextStep(m, w, [Decide(tip)], decided, Wait(sec));
    es := [Decide(tip)] + [Wait(sec)];
    NextStep(m, w, es, decided.(now := MakerBlock(s, k)), LockMined(k));
    es := es + [LockMined(k)];
  }

  lemma FromLock(s: Setting, allowed: int, tip: nat, k: nat) returns (es: seq<Event>)
    requires Slack(s, tip) <= allowed
    requires 0 <= MakerBlock(s, k) - TakerBlock(s, tip) - BlockSeconds(s.t.makerChain) <= Slack(s, tip)
    ensures Leads(Rules(s, allowed), LockedAt(s, tip, k), es, StolenAt(s, tip, k))
  {
    var m, sec, n := Rules(s, allowed), BlockSeconds(s.t.makerChain), s.t.makerRefundBlocks;
    var w := LockedAt(s, tip, k);
    var open := MakerBlock(s, k + n);
    Distribute(k, n, sec);
    Distribute(n, 1, sec);
    ProductOrder(0, n, sec);
    OneStep(m, w, Wait(n * sec));
    NextStep(m, w, [Wait(n * sec)], w.(now := open), TakerClaims(k + n));
    es := [Wait(n * sec)] + [TakerClaims(k + n)];
    var claimed := w.(now := open, makerLock := Claimed);
    var rest := Slack(s, tip) - w.delay;
    NextStep(m, w, es, claimed, Wait(rest));
    es := es + [Wait(rest)];
    var opens := TakerHeight(s) + s.t.takerRefundBlocks;
    Distribute(opens - tip, tip, BlockSeconds(s.t.takerChain));
    NextStep(m, w, es, claimed.(now := open + rest, delay := Slack(s, tip)), TakerRefunds(opens));
    es := es + [TakerRefunds(opens)];
  }

  /** No run that decides on `tip` lets the taker have both. */
  ghost predicate SafeAt(s: Setting, allowed: int, tip: nat) {
    forall w, es :: Start(w) && Possible(Rules(s, allowed), w, es) && DecidedOn(Run(Rules(s, allowed), w, es), tip) ==>
      !Cheated(Run(Rules(s, allowed), w, es))
  }

  /** The slack is exact, for all terms, policies and clocks: a decision is safe if and only if the delay
      allowed is below it. `k` is a block of the maker's chain that a lock decided within the slack of
      `tip` can be the next one for. */
  lemma SafeAtIff(s: Setting, allowed: int, tip: nat, k: nat)
    requires MakerMayLock(s.t, s.p, s.takerLock, tip)
    requires 0 <= MakerBlock(s, k) - TakerBlock(s, tip) - BlockSeconds(s.t.makerChain) <= Slack(s, tip)
    ensures SafeAt(s, allowed, tip) <==> allowed < Slack(s, tip)
  {
    if allowed < Slack(s, tip) {
      forall w, es | Start(w) && Possible(Rules(s, allowed), w, es) && DecidedOn(Run(Rules(s, allowed), w, es), tip)
        ensures !Cheated(Run(Rules(s, allowed), w, es))
      {
        SlackIsEnough(s, allowed, tip, w, es);
      }
    } else {
      var w, es := SlackIsUsed(s, allowed, tip, k);
    }
  }

  /** There is such a block whenever the margin is at least one block interval and the maker's chain has
      begun by then. */
  lemma BlockInReach(s: Setting, tip: nat) returns (k: nat)
    requires MakerMayLock(s.t, s.p, s.takerLock, tip) && BlockSeconds(s.t.makerChain) <= s.p.windowMarginSecs
    requires s.makerStart <= TakerBlock(s, tip) + BlockSeconds(s.t.makerChain)
    ensures 0 <= MakerBlock(s, k) - TakerBlock(s, tip) - BlockSeconds(s.t.makerChain) <= Slack(s, tip)
  {
    var sec := BlockSeconds(s.t.makerChain);
    var ahead := TakerBlock(s, tip) + sec - s.makerStart;
    k := CeilDiv(ahead, sec);
    assert ahead + sec - 1 == sec * k + (ahead + sec - 1) % sec;
    ProductCommutes(sec, k);
  }

  /** Maker-side atomicity: the window test keeps the slack at or above the policy's margin, so as long as
      all delay together stays below the margin the taker never ends with both locks' coins. */
  lemma MakerSafe(s: Setting, allowed: int, w: Race, es: seq<Event>)
    requires Start(w) && Possible(Rules(s, allowed), w, es) && allowed < s.p.windowMarginSecs
    ensures !Cheated(Run(Rules(s, allowed), w, es))
  {
    var m := Rules(s, allowed);
    forall v, e | Tested(s, v) && m.can(v, e) ensures Tested(s, m.after(v, e)) {}
    Invariant(m, v => Tested(s, v), w, es);
    var end := Run(m, w, es);
    if end.decision.Some? { SlackIsEnough(s, allowed, end.decision.value.tip, w, es); }
  }

  /** What was decided passed the window test. */
  predicate Tested(s: Setting, w: Race) {
    if w.decision.Some? then MakerMayLock(s.t, s.p, s.takerLock, w.decision.value.tip)
        else w.makerLock == Unspent && w.lockHeight.None?
  }

  // ---------- an example ----------

  /** A Bitcoin-for-Litecoin swap of amounts the board lists, with the default windows and margin, decided in
      the last second. */
  const EDGE := Setting(
    Terms(Bitcoin, 100_000, 72, Litecoin, 1_000_000, 576, "", "", None, 0, 0), Policy(1, 1, 14_400, 5),
    150, 0, HtlcOut(Outpoint("", 0), 1_000_000, Some(1), None))

  /** There the slack is the margin itself, and delay adding up to it is already too much: the taker's
      refund and the maker's claim compete for one block. */
  lemma MarginCanBeExact()
    ensures Slack(EDGE, 189) == EDGE.p.windowMarginSecs && !SafeAt(EDGE, EDGE.p.windowMarginSecs, 189)
  {
    SafeAtIff(EDGE, 14_400, 189, 48);
  }
}
