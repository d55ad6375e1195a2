/** What the swap engine sees and decides with: hash-locked outputs on two chains, and the small tests
    its safety rests on (src/swap/engine.ts). */
module SwapTypes {
  import opened Primitives
  import opened Ops
  import opened Board

  datatype Outpoint = Outpoint(txid: string, vout: nat)

  /** A transaction that spends an output; no height while it waits in the mempool. */
  datatype Spend = Spend(txid: string, height: Option<nat>, stack: seq<string>)

  datatype HtlcOut = HtlcOut(at: Outpoint, value: nat, height: Option<nat>, spend: Option<Spend>)

  /** Every output paying one HTLC script, and the chain's height. */
  datatype Scan = Scan(outs: seq<HtlcOut>, tip: nat)

  /** What became of a hash-locked output. */
  datatype Fate = Unspent | Claimed | Refunded

  datatype Terms = Terms(
    makerChain: Chain, makerAmount: nat, makerRefundBlocks: nat,
    takerChain: Chain, takerAmount: nat, takerRefundBlocks: nat,
    hash: string, takerKey: string, makerKey: Option<string>, proofDeadline: nat, pruneAt: nat)

  datatype Policy = Policy(btcConfs: pos, ltcConfs: pos, windowMarginSecs: nat, lockMarginAnchors: nat)

  const LOCK_INTENT_GRACE_MS: nat := 30_000

  function Confirmations(p: Policy, c: Chain): pos {
    match c
    case Bitcoin => p.btcConfs
    case Litecoin => p.ltcConfs
  }

  function ConfsOf(height: Option<nat>, tip: nat): nat {
    if height.None? || tip < height.value then 0 else tip - height.value + 1
  }

  /** A quarter of the maker's refund window, rounded up. */
  function ClaimSafetyBlocks(makerRefundBlocks: nat): nat {
    CeilDiv(makerRefundBlocks, 4)
  }

  // ---------- the output the counterparty owes ----------

  function Rank(o: HtlcOut): nat {
    if o.spend.Some? then 2 else if o.height.None? then 1 else 0
  }

  /** Unspent before spent, confirmed before unconfirmed, oldest first. */
  predicate Sooner(a: HtlcOut, b: HtlcOut) {
    if Rank(a) != Rank(b) then Rank(a) < Rank(b)
    else a.height.Some? && (b.height.None? || a.height.value < b.height.value)
  }

  predicate Eligible(o: HtlcOut, amount: nat, unspentOnly: bool) {
    o.value == amount && (unspentOnly ==> o.spend.None?)
  }

  /** The first eligible output that no other eligible one precedes. */
  ghost predicate Picked(outs: seq<HtlcOut>, amount: nat, unspentOnly: bool, r: Option<HtlcOut>) {
    match r
    case None => forall o :: o in outs ==> !Eligible(o, amount, unspentOnly)
    case Some(best) =>
      exists i :: 0 <= i < |outs| && outs[i] == best && Eligible(best, amount, unspentOnly)
        && (forall j :: 0 <= j < i && Eligible(outs[j], amount, unspentOnly) ==> Sooner(best, outs[j]))
        && (forall j :: i < j < |outs| && Eligible(outs[j], amount, unspentOnly) ==> !Sooner(outs[j], best))
  }

  lemma SoonerOrders(a: HtlcOut, b: HtlcOut, c: HtlcOut)
    ensures !Sooner(a, a) && !(Sooner(a, b) && Sooner(b, a))
    ensures Sooner(a, b) && !Sooner(c, b) ==> Sooner(a, c)
    ensures Sooner(a, b) && Sooner(b, c) ==> Sooner(a, c)
  {
  }

  method PickExact(outs: seq<HtlcOut>, amount: nat, unspentOnly: bool) returns (r: Option<HtlcOut>)
    ensures Picked(outs, amount, unspentOnly, r)
  {
    r := None;
    for n := 0 to |outs|
      invariant Picked(outs[..n], amount, unspentOnly, r)
    {
      ghost var before := r;
      if Eligible(outs[n], amount, unspentOnly) && (r.None? || Sooner(outs[n], r.value)) {
        r := Some(outs[n]);
      }
      PickOne(outs[..n], outs[n], amount, unspentOnly, before, r);
      assert outs[..n + 1] == outs[..n] + [outs[n]];
    }
    assert outs[..|outs|] == outs;
  }

  lemma PickOne(outs: seq<HtlcOut>, o: HtlcOut, amount: nat, unspentOnly: bool, before: Option<HtlcOut>,
                after: Option<HtlcOut>)
    requires Picked(outs, amount, unspentOnly, before)
    requires after == if Eligible(o, amount, unspentOnly) && (before.None? || Sooner(o, before.value)) then Some(o)
               else before
    ensures Picked(outs + [o], amount, unspentOnly, after)
  {
    var more := outs + [o];
    if after == before {
      if before.Some? {
        var i :| 0 <= i < |outs| && outs[i] == before.value && Eligible(before.value, amount, unspentOnly)
          && (forall j :: 0 <= j < i && Eligible(outs[j], amount, unspentOnly) ==> Sooner(before.value, outs[j]))
          && (forall j :: i < j < |outs| && Eligible(outs[j], amount, unspentOnly) ==> !Sooner(outs[j], before.value));
        assert more[i] == before.value;
      }
    } else {
      assert more[|outs|] == o;
      forall j | 0 <= j < |outs| && Eligible(more[j], amount, unspentOnly) ensures Sooner(o, more[j]) {
        assert more[j] == outs[j] && outs[j] in outs;
        if before.Some? {
          var i :| 0 <= i < |outs| && outs[i] == before.value
            && (forall j :: 0 <= j < i && Eligible(outs[j], amount, unspentOnly) ==> Sooner(before.value, outs[j]))
            && (forall j :: i < j < |outs| && Eligible(outs[j], amount, unspentOnly) ==>
                !Sooner(outs[j], before.value));
          SoonerOrders(o, before.value, outs[j]);
        }
      }
    }
  }

  /** The rule names one output at most. */
  lemma PickedUnique(outs: seq<HtlcOut>, amount: nat, unspentOnly: bool, a: Option<HtlcOut>, b: Option<HtlcOut>)
    requires Picked(outs, amount, unspentOnly, a) && Picked(outs, amount, unspentOnly, b)
    ensures a == b
  {
    if a.Some? && b.Some? {
      var i :| 0 <= i < |outs| && outs[i] == a.value
        && (forall j :: 0 <= j < i && Eligible(outs[j], amount, unspentOnly) ==> Sooner(a.value, outs[j]))
        && (forall j :: i < j < |outs| && Eligible(outs[j], amount, unspentOnly) ==> !Sooner(outs[j], a.value));
      var k :| 0 <= k < |outs| && outs[k] == b.value
        && (forall j :: 0 <= j < k && Eligible(outs[j], amount, unspentOnly) ==> Sooner(b.value, outs[j]))
        && (forall j :: k < j < |outs| && Eligible(outs[j], amount, unspentOnly) ==> !Sooner(outs[j], b.value));
      assert Eligible(outs[i], amount, unspentOnly) && Eligible(outs[k], amount, unspentOnly);
    }
  }

  /** What it names: an output of the amount, unspent if any such is, then confirmed if any such is, then
      confirmed no later than any other. */
  lemma PickedIsBest(outs: seq<HtlcOut>, amount: nat, unspentOnly: bool, best: HtlcOut, o: HtlcOut)
    requires Picked(outs, amount, unspentOnly, Some(best))
    requires o in outs && o.value == amount && (unspentOnly ==> o.spend.None?)
    ensures best in outs && best.value == amount && (unspentOnly ==> best.spend.None?)
    ensures o.spend.None? ==> best.spend.None?
    ensures o.spend.None? && o.height.Some? ==> best.height.Some? && best.height.value <= o.height.value
    ensures best.spend.Some? && o.height.Some? ==> best.height.Some? && best.height.value <= o.height.value
  {
    var k :| 0 <= k < |outs| && outs[k] == o;
    assert Eligible(outs[k], amount, unspentOnly);
  }

  // ---------- the tests safety rests on ----------

  /** Seconds until the taker's refund opens, as the maker reckons them. */
  function TakerRefundSecs(t: Terms, height: nat, tip: nat): int {
    (height + t.takerRefundBlocks - tip) * BlockSeconds(t.takerChain)
  }

  function MakerNeedSecs(t: Terms, p: Policy): nat {
    (t.makerRefundBlocks + 1) * BlockSeconds(t.makerChain) + p.windowMarginSecs
  }

  /** The maker locks only behind an exact, confirmed, unspent taker lock whose refund opens late enough. */
  predicate MakerMayLock(t: Terms, p: Policy, o: HtlcOut, tip: nat) {
    && o.value == t.takerAmount && o.spend.None?
    && ConfsOf(o.height, tip) >= Confirmations(p, t.takerChain)
    && TakerRefundSecs(t, if o.height.Some? then o.height.value else 0, tip) >= MakerNeedSecs(t, p)
  }

  /** The taker reveals its secret only early enough in the maker's refund window. */
  predicate TakerMayClaim(t: Terms, p: Policy, o: HtlcOut, tip: nat) {
    && o.spend.None?
    && ConfsOf(o.height, tip) >= Confirmations(p, t.makerChain)
    && ConfsOf(o.height, tip) + ClaimSafetyBlocks(t.makerRefundBlocks) <= t.makerRefundBlocks
  }

  /** A side refunds its own lock once it has as many confirmations as the lock's timelock. */
  predicate RefundOpen(o: HtlcOut, tip: nat, refundBlocks: nat) {
    o.spend.None? && ConfsOf(o.height, tip) >= refundBlocks
  }

  /** No funding attempt is recent enough to be in flight unseen. */
  predicate IntentClear(intentAt: Option<nat>, now: nat) {
    intentAt.None? || now >= intentAt.value + LOCK_INTENT_GRACE_MS
  }

  /** Counting its own, at least so many blocks lie over a lock: fewer cut off by a reorganization leave it there. */
  predicate Buried(o: HtlcOut, tip: nat, confs: nat) {
    o.height.Some? && o.height.value + confs <= tip + 1
  }

  /** What the maker locks behind: the exact amount, unspent, in a block no reorganization the policy allows for can
      drop, with the refund far enough off by the clock of its chain. */
  lemma MayLockMeans(t: Terms, p: Policy, o: HtlcOut, tip: nat)
    ensures MakerMayLock(t, p, o, tip) <==>
              && o.value == t.takerAmount && o.spend.None?
              && Buried(o, tip, if t.takerChain == Bitcoin then p.btcConfs else p.ltcConfs)
              && TakerRefundSecs(t, o.height.value, tip) >= MakerNeedSecs(t, p)
  {
    ConfsBury(o, tip, Confirmations(p, t.takerChain));
  }

  /** What the taker claims: an output as deep, with a quarter of the maker's refund window still ahead. */
  lemma MayClaimMeans(t: Terms, p: Policy, o: HtlcOut, tip: nat)
    ensures TakerMayClaim(t, p, o, tip) <==>
              && o.spend.None?
              && Buried(o, tip, if t.makerChain == Bitcoin then p.btcConfs else p.ltcConfs)
              && 4 * (o.height.value + t.makerRefundBlocks - (tip + 1)) >= t.makerRefundBlocks
  {
    ConfsBury(o, tip, Confirmations(p, t.makerChain));
    assert 4 * (ClaimSafetyBlocks(t.makerRefundBlocks) - 1) < t.makerRefundBlocks
             <= 4 * ClaimSafetyBlocks(t.makerRefundBlocks) || t.makerRefundBlocks == 0;
  }

  lemma ConfsBury(o: HtlcOut, tip: nat, confs: pos)
    ensures ConfsOf(o.height, tip) >= confs <==> Buried(o, tip, confs)
    ensures Buried(o, tip, confs) ==> o.height.value + ConfsOf(o.height, tip) == tip + 1
  {
  }

  // ---------- the secret in a claim ----------

  predicate IsHexDigit(c: char) {
    '0' <= c <= '9' || 'a' <= c <= 'f' || 'A' <= c <= 'F'
  }

  function LowerHex(s: string): string {
    seq(|s|, i requires 0 <= i < |s| => if 'A' <= s[i] <= 'F' then (s[i] as int - 'A' as int + 'a' as int) as char
        else s[i])
  }

  /** The preimage of `hash` in a claim-shaped witness. `sha` stands for SHA-256 on hex text. */
  function SecretFromWitness(stack: seq<string>, hash: string, sha: string -> string): Option<string> {
    if |stack| != 4 || |stack[1]| != 64 || !(forall i :: 0 <= i < 64 ==> IsHexDigit(stack[1][i])) then None
    else
      var s := LowerHex(stack[1]);
      if sha(s) == hash then Some(s) else None
  }

  /** A claim whose preimage is 32 bytes always gives the secret away; any other length never does. */
  lemma SecretRead(sig: string, secret: string, leaf: string, block: string, hash: string, sha: string -> string)
    requires sha(secret) == hash
    requires forall i :: 0 <= i < |secret| ==> IsHexDigit(secret[i]) && !('A' <= secret[i] <= 'F')
    ensures SecretFromWitness([sig, secret, leaf, block], hash, sha) == if |secret| == 64 then Some(secret) else None
  {
    assert LowerHex(secret) == secret;
  }

  function FindOut(outs: seq<HtlcOut>, at: Outpoint): Option<HtlcOut>
    decreases |outs|
  {
    if |outs| == 0 then None else if outs[0].at == at then Some(outs[0]) else FindOut(outs[1..], at)
  }
}
