/** One side's step: what the engine funds, claims and refunds, and when
    (stepTaker, stepMaker, lock, adoptLock and maybeRefund in src/swap/engine.ts). */
module SwapEngine {
  import opened Primitives
  import opened Ops
  import opened Board
  import opened SwapTypes

  datatype Stage =
    | Proofs | WaitingTakerLock | WaitingMakerLock | WaitingCounterClaim | ClaimPending
    | RefundPending | Refunded | Done | CalledOff | Failed

  datatype Action =
    | PostProof | PostLocked | PostAbort
    | Fund(amount: nat) | Claim(at: Outpoint, secret: string) | Refund(at: Outpoint) | Resend(txid: string)

  /** What one tick reads: the board's match and height, the scans it makes (its own HTLC address, the
      counterparty's, the counterparty's again after a failed proof, and once more when locked), the
      verdict on the counterparty's proof, the witnesses of the whole claiming transaction, the clock,
      the outpoint a funding attempt returns (none if it throws) and the ids of spends it builds. */
  datatype Tick = Tick(
    m: Option<Match>, h: Option<nat>, mine: Scan, theirs: Scan, again: Scan, later: Scan,
    verdict: Option<bool>, vins: seq<seq<string>>, now: nat, funded: Option<Outpoint>,
    claimTx: string, refundTx: string, keyOk: bool, ownKey: string, secret: string, noLock: bool)

  predicate Terminal(s: Stage) {
    s == Stage.Refunded || s == Done || s == CalledOff || s == Failed
  }

  predicate Gone(t: Terms, k: Tick) {
    (k.m.Some? && k.m.value.status == Cancelled) || (k.h.Some? && k.h.value >= t.pruneAt)
  }

  predicate InEscrow(t: Terms, k: Tick) {
    k.m.Some? && k.h.Some? && k.m.value.status == MatchStatus.Escrow && !Gone(t, k)
  }

  /** The board's maker key, if it has one yet, is this side's. */
  predicate OwnKey(t: Terms, k: Tick) {
    t.makerKey.None? || t.makerKey.value == k.ownKey
  }

  predicate LockWindowOpen(t: Terms, p: Policy, h: nat) {
    h + p.lockMarginAnchors <= t.proofDeadline + TAKER_LOCK_WINDOW
  }

  /** The scan shows no output of the amount, spent or not. */
  predicate Unpaid(scan: Scan, amount: nat) {
    forall o :: o in scan.outs ==> o.value != amount
  }

  /** Every output of the amount has been spent again. */
  predicate AlreadySpent(scan: Scan, amount: nat) {
    && (forall o :: o in scan.outs && o.value == amount ==> o.spend.Some?)
    && (exists o :: o in scan.outs && o.value == amount)
  }

  /** In escrow the maker checks the taker's proof of funds only while it sees no lock. */
  predicate AsksLate(t: Terms, k: Tick, known: Option<bool>) {
    known.None? && k.m.Some? && k.m.value.takerProof.Some? && Unpaid(k.theirs, t.takerAmount)
  }

  /** A proof that fails is a reason to look again: the lock spends the coins it was about. */
  function TakerScan(t: Terms, k: Tick, known: Option<bool>): Scan {
    if AsksLate(t, k, known) && k.verdict == Some(false) then k.again else k.theirs
  }

  /** The maker gives the match up over what it found: nothing, and nothing to wait for; or a lock that never
      confirmed, or one whose refund opens too soon. */
  predicate Refuses(t: Terms, p: Policy, h: nat, proof: Option<bool>, out: Option<HtlcOut>, tip: nat) {
    match out
    case None => proof == Some(false) || h > t.proofDeadline + TAKER_LOCK_WINDOW
    case Some(o) =>
      if ConfsOf(o.height, tip) < Confirmations(p, t.takerChain) then h > t.proofDeadline + 2 * TAKER_LOCK_WINDOW
      else !MakerMayLock(t, p, o, tip)
  }

  /** The taker's window ends exactly its margin before the maker stops waiting: funding begun while it is open
      has that many anchors to be seen in, and one begun later has fewer. */
  lemma WindowMeetsPatience(t: Terms, p: Policy, h: nat, tip: nat)
    ensures LockWindowOpen(t, p, h) <==>
              forall later: nat | later <= h + p.lockMarginAnchors :: !Refuses(t, p, later, Some(true), None, tip)
  {
    assert Refuses(t, p, h + p.lockMarginAnchors, Some(true), None, tip)
        <==> h + p.lockMarginAnchors > t.proofDeadline + TAKER_LOCK_WINDOW;
  }

  /** A lock seen but not deep enough gets one more window of thirty anchors. */
  lemma UnconfirmedWaits(t: Terms, p: Policy, h: nat, proof: Option<bool>, o: HtlcOut, tip: nat)
    requires ConfsOf(o.height, tip) < Confirmations(p, t.takerChain)
    ensures Refuses(t, p, h + 30, proof, Some(o), tip) <==> Refuses(t, p, h, Some(true), None, tip)
    ensures Refuses(t, p, h, Some(false), None, tip)
  {
  }

  class Side {
    const sha: string -> string
    var stage: Stage
    var theirProof: Option<bool>
    var lockIntentAt: Option<nat>
    var myLock: Option<Outpoint>
    var theirLock: Option<Outpoint>
    var claim: Option<string>
    var refund: Option<string>
    var aborting: bool
    var lockPosted: bool

    constructor (sha: string -> string)
      ensures this.sha == sha && stage == Proofs && myLock.None? && theirLock.None? && lockIntentAt.None?
      ensures claim.None? && refund.None? && theirProof.None? && !aborting && !lockPosted
    {
      this.sha := sha;
      stage, theirProof, lockIntentAt, myLock, theirLock := Proofs, None, None, None, None;
      claim, refund, aborting, lockPosted := None, None, false, false;
    }

    /** Ended without a lock: this side never acts again. */
    predicate Over()
      reads this`stage, this`myLock
    {
      Terminal(stage) && myLock.None?
    }

    /** What becomes of this side's lock in a tick: one it has it keeps; one on the chain it may adopt; funding
        gives it what the wallet returns, and leaves the intent down if the wallet throws. */
    ghost predicate LockKept(k: Tick, amount: nat, was: Option<Outpoint>, intent: Option<nat>, funds: bool)
      reads this`myLock, this`lockIntentAt
    {
      if was.Some? then myLock == was && lockIntentAt == intent
      else if funds then
        && Unpaid(k.mine, amount)
        && myLock == k.funded && lockIntentAt == if k.funded.Some? then None else Some(k.now)
      else if myLock.None? then lockIntentAt == intent
      else
        && lockIntentAt.None?
        && exists o :: Picked(k.mine.outs, amount, false, Some(o)) && myLock == Some(o.at)
    }

    /** In escrow, with nothing locked: the next move is to fund. */
    predicate Waiting(t: Terms, k: Tick, amount: nat)
      reads this`stage, this`myLock
    {
      myLock.None? && !Terminal(stage) && Unpaid(k.mine, amount) && InEscrow(t, k)
    }

    /** Take an output already on the chain for this side's lock, so it is not funded again. */
    method AdoptLock(mine: Scan, amount: nat)
      modifies this`myLock, this`lockIntentAt
      ensures old(myLock).Some? ==> unchanged(this)
      ensures old(myLock).None? ==> (myLock.None? <==> forall o :: o in mine.outs ==> o.value != amount)
      ensures old(myLock).None? && myLock.Some? ==>
                lockIntentAt.None? && exists o :: Picked(mine.outs, amount, false, Some(o)) && myLock == Some(o.at)
      ensures old(myLock).None? && myLock.None? ==> lockIntentAt == old(lockIntentAt)
    {
      if myLock.Some? { return; }
      var existing := PickExact(mine.outs, amount, false);
      if existing.Some? {
        myLock := Some(existing.value.at);
        lockIntentAt := None;
      }
    }

    /** Fund the HTLC at most once: the intent goes down before the broadcast. */
    method Lock(amount: nat, k: Tick) returns (acts: seq<Action>)
      requires myLock.None?
      modifies this`myLock, this`lockIntentAt
      ensures acts == if IntentClear(old(lockIntentAt), k.now) then [Fund(amount)] else []
      ensures !IntentClear(old(lockIntentAt), k.now) ==> unchanged(this)
      ensures IntentClear(old(lockIntentAt), k.now) ==>
                myLock == k.funded && lockIntentAt == if k.funded.Some? then None else Some(k.now)
    {
      if lockIntentAt.Some? && k.now < lockIntentAt.value + LOCK_INTENT_GRACE_MS { return []; }
      lockIntentAt := Some(k.now);
      acts := [Fund(amount)];
      if k.funded.Some? {
        myLock := k.funded;
        lockIntentAt := None;
      }
    }

    /** Refund once the timelock is up and the output is still there. */
    method MaybeRefund(myOut: Option<HtlcOut>, tip: nat, refundBlocks: nat, k: Tick) returns (acts: seq<Action>)
      modifies this`refund
      ensures acts == RefundActions(myOut, tip, refundBlocks, old(refund))
      ensures refund == if acts != [] && acts[0].Refund? then Some(k.refundTx) else old(refund)
    {
      if myOut.None? || myOut.value.spend.Some? { return []; }
      if refund.Some? { return [Resend(refund.value)]; }
      if ConfsOf(myOut.value.height, tip) < refundBlocks { return []; }
      refund := Some(k.refundTx);
      acts := [Refund(myOut.value.at)];
    }

    // ---------- maker ----------

    /** The secret a spend of the maker's lock shows it. */
    function MakerSecret(t: Terms, k: Tick, lock: Outpoint, refunded: Option<string>): Option<string> {
      Learned(CounterClaim(FindOut(k.mine.outs, lock), refunded), k.vins, t.hash, sha)
    }

    /** The taker's lock as the maker finds it, and the scan it was found in. */
    method FindTakerLock(t: Terms, k: Tick) returns (scan: Scan, out: Option<HtlcOut>, spent: bool)
      modifies this`theirProof
      ensures theirProof == if AsksLate(t, k, old(theirProof)) then k.verdict else old(theirProof)
      ensures scan == TakerScan(t, k, old(theirProof)) && Picked(scan.outs, t.takerAmount, true, out)
      ensures spent <==> AlreadySpent(k.theirs, t.takerAmount)
    {
      scan := k.theirs;
      out := PickExact(scan.outs, t.takerAmount, true);
      spent := false;
      if out.None? {
        var gone := PickExact(scan.outs, t.takerAmount, false);
        if gone.Some? {
          spent := true;
          return;
        }
        if k.m.Some? && k.m.value.takerProof.Some? && theirProof.None? {
          theirProof := k.verdict;
          if k.verdict == Some(false) {
            scan := k.again;
            out := PickExact(scan.outs, t.takerAmount, true);
          }
        }
      }
    }

    method AbortSwap() returns (acts: seq<Action>)
      modifies this`aborting, this`stage
      ensures aborting && stage == CalledOff && acts == [PostAbort]
    {
      aborting, stage := true, CalledOff;
      acts := [PostAbort];
    }

    /** In escrow with no lock of its own: the maker funds exactly when the taker's lock passes
        MakerMayLock and no funding may be in flight, and gives up exactly when it refuses what it found. */
    method MakerLock(t: Terms, p: Policy, k: Tick) returns (acts: seq<Action>)
      requires myLock.None? && !Terminal(stage)
      modifies this`myLock, this`lockIntentAt, this`theirLock, this`theirProof, this`aborting, this`stage
      ensures acts == [] || acts == [Fund(t.makerAmount)] || acts == [PostAbort]
      ensures theirProof == if InEscrow(t, k) && !old(aborting) && AsksLate(t, k, old(theirProof)) then k.verdict
              else old(theirProof)
      ensures acts == [Fund(t.makerAmount)] <==>
                && InEscrow(t, k) && !old(aborting) && !k.noLock && IntentClear(old(lockIntentAt), k.now)
                && exists o | Picked(TakerScan(t, k, old(theirProof)).outs, t.takerAmount, true, Some(o)) ::
                     MakerMayLock(t, p, o, TakerScan(t, k, old(theirProof)).tip)
      ensures acts == [PostAbort] <==>
                && InEscrow(t, k)
                && (|| old(aborting) || AlreadySpent(k.theirs, t.takerAmount)
                    || exists out | Picked(TakerScan(t, k, old(theirProof)).outs, t.takerAmount, true, out) ::
                         Refuses(t, p, k.h.value, theirProof, out, TakerScan(t, k, old(theirProof)).tip))
      ensures aborting == (old(aborting) || acts == [PostAbort])
      ensures Terminal(stage) <==> Gone(t, k) || acts == [PostAbort]
      ensures acts == [Fund(t.makerAmount)] ==> exists o | o in TakerScan(t, k, old(theirProof)).outs ::
                theirLock == Some(o.at) && MakerMayLock(t, p, o, TakerScan(t, k, old(theirProof)).tip)
      ensures myLock == if acts == [Fund(t.makerAmount)] then k.funded else None
      ensures lockIntentAt == if acts != [Fund(t.makerAmount)] then old(lockIntentAt)
                              else if k.funded.Some? then None else Some(k.now)
    {
      if Gone(t, k) {
        stage := CalledOff;
        return [];
      }
      if k.m.None? || k.h.None? { return []; }
      if k.m.value.status == AwaitingProofs {
        stage := Proofs;
        return [];
      }
      if aborting {
        acts := AbortSwap();
        return;
      }
      var lockDeadline := t.proofDeadline + TAKER_LOCK_WINDOW;
      stage := WaitingTakerLock;
      var scan, out, spent := FindTakerLock(t, k);
      forall other | Picked(scan.outs, t.takerAmount, true, other) ensures other == out {
        PickedUnique(scan.outs, t.takerAmount, true, other, out);
      }
      if spent {
        acts := AbortSwap();
        return;
      }
      if out.None? {
        if theirProof == Some(false) || k.h.value > lockDeadline {
          acts := AbortSwap();
          return;
        }
        return [];
      }
      acts := MakerWeigh(t, p, k, out.value, scan.tip);
    }

    /** What the maker does about a taker's lock it has found. */
    method MakerWeigh(t: Terms, p: Policy, k: Tick, o: HtlcOut, tip: nat) returns (acts: seq<Action>)
      requires myLock.None? && k.h.Some? && o.value == t.takerAmount && o.spend.None?
      modifies this`myLock, this`lockIntentAt, this`theirLock, this`aborting, this`stage
      ensures acts == if ConfsOf(o.height, tip) < Confirmations(p, t.takerChain) then
                        (if k.h.value > t.proofDeadline + 2 * TAKER_LOCK_WINDOW then [PostAbort] else [])
                      else if !MakerMayLock(t, p, o, tip) then [PostAbort]
                      else if k.noLock || !IntentClear(old(lockIntentAt), k.now) then []
                      else [Fund(t.makerAmount)]
      ensures aborting == (old(aborting) || acts == [PostAbort])
      ensures acts == [Fund(t.makerAmount)] ==>
                && theirLock == Some(o.at) && myLock == k.funded
                && lockIntentAt == if k.funded.Some? then None else Some(k.now)
      ensures acts != [Fund(t.makerAmount)] ==> myLock.None? && lockIntentAt == old(lockIntentAt)
      ensures stage == if acts == [PostAbort] then CalledOff
                       else if MakerMayLock(t, p, o, tip) then WaitingMakerLock else old(stage)
    {
      if ConfsOf(o.height, tip) < Confirmations(p, t.takerChain) {
        if k.h.value > t.proofDeadline + TAKER_LOCK_WINDOW + TAKER_LOCK_WINDOW {
          acts := AbortSwap();
          return;
        }
        return [];
      }
      var height := if o.height.Some? then o.height.value else 0;
      if TakerRefundSecs(t, height, tip) < MakerNeedSecs(t, p) {
        acts := AbortSwap();
        return;
      }
      stage := WaitingMakerLock;
      theirLock := Some(o.at);
      if k.noLock { return []; }
      acts := Lock(t.makerAmount, k);
    }

    method LearnSecret(seen: Option<Spend>, vins: seq<seq<string>>, hash: string) returns (secret: Option<string>)
      ensures secret == Learned(seen, vins, hash, sha)
    {
      if seen.None? { return None; }
      secret := SecretFromWitness(seen.value.stack, hash, sha);
      if secret.Some? { return; }
      for n := 0 to |vins|
        invariant FirstSecret(vins, hash, sha) == if secret.Some? then secret else FirstSecret(vins[n..], hash, sha)
      {
        if secret.None? { secret := SecretFromWitness(vins[n], hash, sha); }
      }
    }

    /** The counterparty's lock this side goes by: the one recorded, or the one it finds now. */
    method TheirsLocked(amount: nat, unspentOnly: bool, scan: Scan) returns (out: Option<HtlcOut>)
      ensures TheirsIs(theirLock, amount, unspentOnly, scan, out)
    {
      if theirLock.Some? { return FindOut(scan.outs, theirLock.value); }
      out := PickExact(scan.outs, amount, unspentOnly);
    }

    /** Post the lock's outpoint once, as a hint for the counterparty. */
    method PostLock(m: Option<Match>, hinted: bool) returns (acts: seq<Action>)
      modifies this`lockPosted
      ensures acts == if m.Some? && m.value.status == MatchStatus.Escrow && !hinted && !old(lockPosted)
                then [PostLocked] else []
      ensures lockPosted == (old(lockPosted) || acts != [])
    {
      if m.None? || m.value.status != MatchStatus.Escrow || hinted || lockPosted { return []; }
      lockPosted := true;
      acts := [PostLocked];
    }

    /** Once locked, the maker claims the moment a claim of its own lock shows it the secret, and
        refunds only what nobody has spent. */
    method MakerLocked(t: Terms, k: Tick)
        returns (posts: seq<Action>, claims: seq<Action>, refunds: seq<Action>, theirs: Option<HtlcOut>)
      requires myLock.Some?
      modifies this`theirLock, this`claim, this`refund, this`lockPosted, this`stage
      ensures posts == if && k.m.Some? && k.m.value.status == MatchStatus.Escrow && k.m.value.makerLock.None?
                          && !old(lockPosted) then [PostLocked] else []
      ensures TheirsIs(old(theirLock), t.takerAmount, true, k.later, theirs)
      ensures claims == ClaimActions(theirs, old(claim), MakerSecret(t, k, myLock.value, old(refund)))
      ensures claim == if claims != [] && claims[0].Claim? then Some(k.claimTx) else old(claim)
      ensures forall o, s :: Claim(o, s) in claims ==> sha(s) == t.hash && old(claim).None?
      ensures refunds == RefundActions(FindOut(k.mine.outs, myLock.value), k.mine.tip, t.makerRefundBlocks, old(refund))
      ensures refund == if refunds != [] && refunds[0].Refund? then Some(k.refundTx) else old(refund)
      ensures MakerEnded(stage, FindOut(k.mine.outs, myLock.value), theirs, claim, refund)
    {
      posts := PostLock(k.m, k.m.Some? && k.m.value.makerLock.Some?);
      var myOut := FindOut(k.mine.outs, myLock.value);
      theirs := TheirsLocked(t.takerAmount, true, k.later);
      if theirs.Some? && theirLock.None? { theirLock := Some(theirs.value.at); }
      var seen := CounterClaim(myOut, refund);
      LearnedOpens(seen, k.vins, t.hash, sha);
      var secret := LearnSecret(seen, k.vins, t.hash);
      claims := Claiming(secret, theirs, k);
      refunds := MaybeRefund(myOut, k.mine.tip, t.makerRefundBlocks, k);
      MakerStage(myOut, theirs, seen, secret);
    }

    /** Claim a lock that is still unspent, or send the claim again. */
    method Claiming(secret: Option<string>, theirs: Option<HtlcOut>, k: Tick) returns (acts: seq<Action>)
      modifies this`claim
      ensures acts == ClaimActions(theirs, old(claim), secret)
      ensures claim == if acts != [] && acts[0].Claim? then Some(k.claimTx) else old(claim)
    {
      if secret.Some? && claim.None? && theirs.Some? && theirs.value.spend.None? {
        claim := Some(k.claimTx);
        return [Claim(theirs.value.at, secret.value)];
      }
      if claim.Some? && theirs.Some? && theirs.value.spend.None? { return [Resend(claim.value)]; }
      acts := [];
    }

    method MakerStage(myOut: Option<HtlcOut>, theirOut: Option<HtlcOut>, seen: Option<Spend>, secret: Option<string>)
      modifies this`stage
      ensures MakerEnded(stage, myOut, theirOut, claim, refund)
    {
      var lost := claim.Some? && theirOut.Some? && theirOut.value.spend.Some?
          && theirOut.value.spend.value.txid != claim.value;
      if theirOut.Some? && SpentBy(theirOut.value, claim) { stage := Done; }
      else if lost { stage := Failed; }
      else if claim.Some? { stage := ClaimPending; }
      else if myOut.Some? && SpentBy(myOut.value, refund) { stage := Stage.Refunded; }
      else if refund.Some? { stage := RefundPending; }
      else if seen.Some? && secret.None? { stage := RefundPending; }
      else if seen.Some? { stage := ClaimPending; }
      else { stage := WaitingCounterClaim; }
    }

    /** A lock already there is adopted, and only then may one be funded. */
    method MakerFunds(t: Terms, p: Policy, k: Tick) returns (funds: seq<Action>)
      requires !Over()
      modifies this`myLock, this`lockIntentAt, this`theirLock, this`theirProof, this`aborting, this`stage
      ensures funds == [] || funds == [Fund(t.makerAmount)] || funds == [PostAbort]
      ensures theirProof == if old(Waiting(t, k, t.makerAmount) && !aborting) && AsksLate(t, k, old(theirProof))
              then k.verdict else old(theirProof)
      ensures funds == [Fund(t.makerAmount)] <==>
                && old(Waiting(t, k, t.makerAmount) && !aborting)
                && !k.noLock && IntentClear(old(lockIntentAt), k.now)
                && exists o | Picked(TakerScan(t, k, old(theirProof)).outs, t.takerAmount, true, Some(o)) ::
                     MakerMayLock(t, p, o, TakerScan(t, k, old(theirProof)).tip)
      ensures funds == [PostAbort] <==>
                && old(Waiting(t, k, t.makerAmount))
                && (|| old(aborting) || AlreadySpent(k.theirs, t.takerAmount)
                    || exists out | Picked(TakerScan(t, k, old(theirProof)).outs, t.takerAmount, true, out) ::
                         Refuses(t, p, k.h.value, theirProof, out, TakerScan(t, k, old(theirProof)).tip))
      ensures old(!Terminal(stage)) && myLock.None? ==> (Terminal(stage) <==> Gone(t, k) || funds == [PostAbort])
      ensures LockKept(k, t.makerAmount, old(myLock), old(lockIntentAt), funds == [Fund(t.makerAmount)])
      ensures old(!Over()) && !Unpaid(k.mine, t.makerAmount) ==> myLock.Some?
      ensures old(myLock).Some? ==> theirLock == old(theirLock)
    {
      funds := [];
      AdoptLock(k.mine, t.makerAmount);
      if myLock.None? { funds := MakerLock(t, p, k); }
    }

    /** One maker tick. Without a lock it funds exactly behind a taker's lock that passes the test, and gives
        up exactly over one it refuses or, while it sees none, over a proof of funds that is invalid; with a
        lock it claims and refunds exactly what MakerLocked does; it does nothing under a key that is not its
        own. */
    method StepMaker(t: Terms, p: Policy, k: Tick)
        returns (posts: seq<Action>, funds: seq<Action>, claims: seq<Action>, refunds: seq<Action>)
      modifies this
      ensures !OwnKey(t, k) || old(Over()) ==> posts == funds == claims == refunds == []
      ensures old(Over()) ==> Over()
      ensures OwnKey(t, k) && !old(Over()) ==>
                posts == (if k.m.Some? && k.m.value.status == AwaitingProofs && k.m.value.makerProof.None?
                          then [PostProof] else [])
                       + (if && myLock.Some? && k.m.Some? && k.m.value.status == MatchStatus.Escrow
                             && k.m.value.makerLock.None? && !old(lockPosted)
                          then [PostLocked] else [])
      ensures theirProof ==
                if && OwnKey(t, k) && !old(Over()) && old(myLock).None? && old(theirProof).None?
                   && k.m.Some? && k.m.value.takerProof.Some?
                   && (|| k.m.value.status == AwaitingProofs
                       || (old(Waiting(t, k, t.makerAmount) && !aborting) && Unpaid(k.theirs, t.takerAmount)))
                then k.verdict else old(theirProof)
      ensures funds == [] || funds == [Fund(t.makerAmount)] || funds == [PostAbort]
      ensures funds == [Fund(t.makerAmount)] <==>
                && OwnKey(t, k) && old(Waiting(t, k, t.makerAmount) && !aborting)
                && !k.noLock && IntentClear(old(lockIntentAt), k.now)
                && exists o | Picked(TakerScan(t, k, old(theirProof)).outs, t.takerAmount, true, Some(o)) ::
                     MakerMayLock(t, p, o, TakerScan(t, k, old(theirProof)).tip)
      ensures funds == [PostAbort] <==>
                && OwnKey(t, k) && old(Waiting(t, k, t.makerAmount))
                && (|| old(aborting) || AlreadySpent(k.theirs, t.takerAmount)
                    || exists out | Picked(TakerScan(t, k, old(theirProof)).outs, t.takerAmount, true, out) ::
                         Refuses(t, p, k.h.value, theirProof, out, TakerScan(t, k, old(theirProof)).tip))
      ensures old(!Terminal(stage)) && myLock.None? && OwnKey(t, k) ==>
                (Terminal(stage) <==> Gone(t, k) || funds == [PostAbort])
      ensures OwnKey(t, k) && old(myLock).Some? ==>
                && refunds == RefundActions(FindOut(k.mine.outs, old(myLock).value), k.mine.tip, t.makerRefundBlocks,
                                            old(refund))
                && exists theirs :: TheirsIs(old(theirLock), t.takerAmount, true, k.later, theirs)
                     && claims == ClaimActions(theirs, old(claim), MakerSecret(t, k, old(myLock).value, old(refund)))
                     && MakerEnded(stage, FindOut(k.mine.outs, old(myLock).value), theirs, claim, refund)
      ensures forall o, s :: Claim(o, s) in claims ==> sha(s) == t.hash && old(claim).None?
      ensures LockKept(k, t.makerAmount, old(myLock), old(lockIntentAt), funds == [Fund(t.makerAmount)])
      ensures OwnKey(t, k) && !old(Over()) && !Unpaid(k.mine, t.makerAmount) ==> myLock.Some?
    {
      posts, funds, claims, refunds := [], [], [], [];
      if t.makerKey.Some? && t.makerKey.value != k.ownKey {
        stage := Failed;
        return;
      }
      if Terminal(stage) && myLock.None? { return; }
      if k.m.Some? && k.m.value.status == AwaitingProofs && k.m.value.makerProof.None? { posts := [PostProof]; }
      if myLock.None? && k.m.Some? && k.m.value.status == AwaitingProofs && k.m.value.takerProof.Some?
          && theirProof.None? {
        theirProof := k.verdict;
      }
      funds := MakerFunds(t, p, k);
      if myLock.None? { return; }
      var more, theirs;
      more, claims, refunds, theirs := MakerLocked(t, k);
      posts := posts + more;
    }

    // ---------- taker ----------

    /** In escrow with no lock of its own: the taker funds exactly while the window is open, behind a
        maker that proved its funds, with no funding that may be in flight; it gives up exactly on a proof that
        is invalid and on a window that has closed. */
    method TakerLock(t: Terms, p: Policy, k: Tick) returns (acts: seq<Action>)
      requires myLock.None? && !Terminal(stage)
      modifies this`myLock, this`lockIntentAt, this`stage
      ensures acts == if && InEscrow(t, k) && theirProof == Some(true) && LockWindowOpen(t, p, k.h.value) && !k.noLock
                         && IntentClear(old(lockIntentAt), k.now)
                      then [Fund(t.takerAmount)] else []
      ensures acts == [] ==> myLock.None? && lockIntentAt == old(lockIntentAt)
      ensures acts != [] ==> myLock == k.funded && lockIntentAt == if k.funded.Some? then None else Some(k.now)
      ensures stage == Failed <==> InEscrow(t, k) && theirProof == Some(false)
      ensures stage == CalledOff <==>
                Gone(t, k) || (InEscrow(t, k) && theirProof == Some(true) && !LockWindowOpen(t, p, k.h.value))
      ensures Terminal(stage) <==> stage == Failed || stage == CalledOff
    {
      if Gone(t, k) {
        stage := CalledOff;
        return [];
      }
      if k.m.None? || k.h.None? { return []; }
      if k.m.value.status == AwaitingProofs {
        stage := Proofs;
        return [];
      }
      stage := WaitingTakerLock;
      if theirProof.None? { return []; }
      if !theirProof.value {
        stage := Failed;
        return [];
      }
      if k.h.value + p.lockMarginAnchors > t.proofDeadline + TAKER_LOCK_WINDOW {
        stage := CalledOff;
        return [];
      }
      if k.noLock { return []; }
      acts := Lock(t.takerAmount, k);
    }

    /** Reveal the secret for exactly what is owed, and only early enough in the maker's window. */
    method TakerClaim(t: Terms, p: Policy, k: Tick, theirs: Option<HtlcOut>) returns (acts: seq<Action>, tooLate: bool)
      modifies this`claim, this`theirLock
      ensures acts == ClaimActions(theirs, old(claim), TakerSecret(t, p, k, theirs))
      ensures claim == if acts != [] && acts[0].Claim? then Some(k.claimTx) else old(claim)
      ensures theirLock == if acts != [] && acts[0].Claim? then Some(theirs.value.at) else old(theirLock)
    {
      tooLate := false;
      acts := [];
      if claim.None? && theirs.Some? && theirs.value.spend.None? {
        var confs := ConfsOf(theirs.value.height, k.later.tip);
        if confs >= Confirmations(p, t.makerChain) {
          if confs + ClaimSafetyBlocks(t.makerRefundBlocks) > t.makerRefundBlocks {
            tooLate := true;
          } else {
            theirLock := Some(theirs.value.at);
            claim := Some(k.claimTx);
            acts := [Claim(theirs.value.at, k.secret)];
          }
        }
      } else if claim.Some? && theirs.Some? && theirs.value.spend.None? {
        acts := [Resend(claim.value)];
      }
    }

    method TakerLocked(t: Terms, p: Policy, k: Tick)
        returns (posts: seq<Action>, claims: seq<Action>, refunds: seq<Action>, theirs: Option<HtlcOut>)
      requires myLock.Some?
      modifies this`theirLock, this`claim, this`refund, this`lockPosted, this`stage
      ensures posts == if && k.m.Some? && k.m.value.status == MatchStatus.Escrow && k.m.value.takerLock.None?
                          && !old(lockPosted) then [PostLocked] else []
      ensures TheirsIs(old(theirLock), t.makerAmount, false, k.later, theirs)
      ensures claims == ClaimActions(theirs, old(claim), TakerSecret(t, p, k, theirs))
      ensures claim == if claims != [] && claims[0].Claim? then Some(k.claimTx) else old(claim)
      ensures theirLock == if claims != [] && claims[0].Claim? then Some(theirs.value.at) else old(theirLock)
      ensures refunds == RefundActions(FindOut(k.mine.outs, myLock.value), k.mine.tip, t.takerRefundBlocks, old(refund))
      ensures refund == if refunds != [] && refunds[0].Refund? then Some(k.refundTx) else old(refund)
      ensures TakerEnded(stage, FindOut(k.mine.outs, myLock.value), theirs, claim, refund)
      ensures Claims(t, p, k, old(theirLock), old(claim), claims)
      ensures old(ClaimWithLock()) ==> ClaimWithLock()
    {
      if theirLock.Some? { FindOutFinds(k.later.outs, theirLock.value); }
      posts := PostLock(k.m, k.m.Some? && k.m.value.takerLock.Some?);
      var myOut := FindOut(k.mine.outs, myLock.value);
      theirs := TheirsLocked(t.makerAmount, false, k.later);
      var tooLate;
      claims, tooLate := TakerClaim(t, p, k, theirs);
      refunds := MaybeRefund(myOut, k.mine.tip, t.takerRefundBlocks, k);
      var wrong := theirs.None? && exists o :: o in k.later.outs && o.spend.None? && o.value != t.makerAmount;
      TakerStage(myOut, theirs, Gone(t, k) || wrong || tooLate);
    }

    method TakerStage(myOut: Option<HtlcOut>, theirs: Option<HtlcOut>, hopeless: bool)
      modifies this`stage
      ensures TakerEnded(stage, myOut, theirs, claim, refund)
    {
      var won := theirs.Some? && SpentBy(theirs.value, claim);
      var lost := claim.Some? && theirs.Some? && theirs.value.spend.Some?
          && theirs.value.spend.value.txid != claim.value;
      var refunded := myOut.Some? && SpentBy(myOut.value, refund);
      var counterClaimed := myOut.Some? && myOut.value.spend.Some? && Some(myOut.value.spend.value.txid) != refund;
      if won && (counterClaimed || refunded) { stage := Done; }
      else if refunded { stage := Stage.Refunded; }
      else if claim.Some? && !won && !lost { stage := ClaimPending; }
      else if won { stage := WaitingCounterClaim; }
      else if refund.Some? || lost || hopeless || (theirs.Some? && theirs.value.spend.Some?) { stage := RefundPending; }
      else { stage := WaitingMakerLock; }
    }

    /** A taker records the maker's lock when it claims it, never before. */
    predicate ClaimWithLock()
      reads this`theirLock, this`claim
    {
      theirLock.Some? <==> claim.Some?
    }

    /** What a taker may claim: one output that is there and passes the test, for exactly the amount unless it
        was recorded before; and it sends the claim of the recorded one again only while that is unspent. */
    ghost predicate Claims(t: Terms, p: Policy, k: Tick, known: Option<Outpoint>, was: Option<string>,
                           claims: seq<Action>)
      reads this`theirLock, this`claim
    {
      && |claims| <= 1
      && (claims != [] ==> claims[0].Claim? || claims[0].Resend?)
      && (if claims != [] && claims[0].Claim? then
            && theirLock == Some(claims[0].at) && claim == Some(k.claimTx)
            && claims[0].secret == k.secret && was.None?
            && (exists out :: && out in k.later.outs && out.at == claims[0].at
                              && TakerMayClaim(t, p, out, k.later.tip)
                              && (known.None? ==> out.value == t.makerAmount))
          else theirLock == known && claim == was)
      && (claims != [] && claims[0].Resend? ==>
            && was == Some(claims[0].txid)
            && (known.Some? ==> exists out :: out in k.later.outs && Some(out.at) == known && out.spend.None?))
    }

    /** A lock already there is adopted, and only then may one be funded. */
    method TakerFunds(t: Terms, p: Policy, k: Tick) returns (funds: seq<Action>)
      requires !Over()
      modifies this`myLock, this`lockIntentAt, this`stage
      ensures funds == [] || funds == [Fund(t.takerAmount)]
      ensures funds == [Fund(t.takerAmount)] <==>
                && old(Waiting(t, k, t.takerAmount)) && theirProof == Some(true)
                && LockWindowOpen(t, p, k.h.value) && !k.noLock && IntentClear(old(lockIntentAt), k.now)
      ensures old(!Terminal(stage)) && myLock.None? ==>
                (Terminal(stage) <==>
                   || Gone(t, k)
                   || (InEscrow(t, k)
                       && (|| theirProof == Some(false)
                           || (theirProof == Some(true) && !LockWindowOpen(t, p, k.h.value)))))
      ensures LockKept(k, t.takerAmount, old(myLock), old(lockIntentAt), funds == [Fund(t.takerAmount)])
      ensures old(!Over()) && !Unpaid(k.mine, t.takerAmount) ==> myLock.Some?
    {
      funds := [];
      AdoptLock(k.mine, t.takerAmount);
      if myLock.None? { funds := TakerLock(t, p, k); }
    }

    /** One taker tick. Without a lock it funds exactly in its window and behind a maker whose proof of funds
        was verified, on this tick or an earlier one; with one it claims and refunds exactly what TakerLocked
        does; it does nothing under keys not derived from its seed. */
    method StepTaker(t: Terms, p: Policy, k: Tick)
        returns (posts: seq<Action>, funds: seq<Action>, claims: seq<Action>, refunds: seq<Action>)
      modifies this
      ensures !k.keyOk || old(Over()) ==> posts == funds == claims == refunds == []
      ensures old(Over()) ==> Over()
      ensures k.keyOk && !old(Over()) ==>
                posts == (if k.m.Some? && k.m.value.status == AwaitingProofs && k.m.value.takerProof.None?
                          then [PostProof] else [])
                       + (if && t.makerKey.Some? && myLock.Some? && k.m.Some?
                             && k.m.value.status == MatchStatus.Escrow
                             && k.m.value.takerLock.None? && !old(lockPosted)
                          then [PostLocked] else [])
      ensures theirProof ==
                if && k.keyOk && !old(Over()) && old(myLock).None? && old(theirProof).None?
                   && k.m.Some? && k.m.value.makerProof.Some?
                then k.verdict else old(theirProof)
      ensures funds == [] || funds == [Fund(t.takerAmount)]
      ensures funds == [Fund(t.takerAmount)] <==>
                && k.keyOk && t.makerKey.Some? && old(Waiting(t, k, t.takerAmount))
                && (|| old(theirProof) == Some(true)
                    || (old(theirProof).None? && k.m.value.makerProof.Some? && k.verdict == Some(true)))
                && LockWindowOpen(t, p, k.h.value) && !k.noLock && IntentClear(old(lockIntentAt), k.now)
      ensures old(!Terminal(stage)) && myLock.None? && k.keyOk && t.makerKey.Some? ==>
                (Terminal(stage) <==>
                   || Gone(t, k)
                   || (InEscrow(t, k)
                       && (|| theirProof == Some(false)
                           || (theirProof == Some(true) && !LockWindowOpen(t, p, k.h.value)))))
      ensures k.keyOk && t.makerKey.Some? && old(myLock).Some? ==>
                && refunds == RefundActions(FindOut(k.mine.outs, old(myLock).value), k.mine.tip, t.takerRefundBlocks,
                                            old(refund))
                && exists theirs :: TheirsIs(old(theirLock), t.makerAmount, false, k.later, theirs)
                     && claims == ClaimActions(theirs, old(claim), TakerSecret(t, p, k, theirs))
                     && TakerEnded(stage, FindOut(k.mine.outs, old(myLock).value), theirs, claim, refund)
      ensures Claims(t, p, k, old(theirLock), old(claim), claims)
      ensures old(ClaimWithLock()) ==> ClaimWithLock()
      ensures LockKept(k, t.takerAmount, old(myLock), old(lockIntentAt), funds == [Fund(t.takerAmount)])
      ensures k.keyOk && t.makerKey.Some? && !old(Over()) && !Unpaid(k.mine, t.takerAmount) ==> myLock.Some?
    {
      posts, funds, claims, refunds := [], [], [], [];
      if !k.keyOk {
        stage := Failed;
        return;
      }
      if Terminal(stage) && myLock.None? { return; }
      if k.m.Some? && k.m.value.status == AwaitingProofs && k.m.value.takerProof.None? { posts := [PostProof]; }
      if k.m.Some? && k.m.value.makerProof.Some? && theirProof.None? && myLock.None? { theirProof := k.verdict; }
      if t.makerKey.None? {
        stage := if Gone(t, k) then CalledOff else Proofs;
        return;
      }
      funds := TakerFunds(t, p, k);
      if myLock.None? { return; }
      var more, theirs;
      more, claims, refunds, theirs := TakerLocked(t, p, k);
      posts := posts + more;
    }
  }

  /** A lock still there is claimed once there is a secret to claim it with, and the claim sent until it
      is mined. */
  function ClaimActions(theirs: Option<HtlcOut>, claim: Option<string>, secret: Option<string>): seq<Action> {
    if theirs.None? || theirs.value.spend.Some? then []
    else if claim.Some? then [Resend(claim.value)]
    else if secret.Some? then [Claim(theirs.value.at, secret.value)] else []
  }

  /** The taker's own secret, once it may be revealed. */
  function TakerSecret(t: Terms, p: Policy, k: Tick, theirs: Option<HtlcOut>): Option<string> {
    if theirs.Some? && TakerMayClaim(t, p, theirs.value, k.later.tip) then Some(k.secret) else None
  }

  /** A lock still there is refunded once its timelock is up, and the refund sent until it is mined. */
  function RefundActions(myOut: Option<HtlcOut>, tip: nat, refundBlocks: nat, refund: Option<string>): seq<Action> {
    if myOut.None? || myOut.value.spend.Some? then []
    else if refund.Some? then [Resend(refund.value)]
    else if RefundOpen(myOut.value, tip, refundBlocks) then [Refund(myOut.value.at)] else []
  }

  /** The output was spent by this very transaction, and a block has it. */
  predicate SpentBy(o: HtlcOut, txid: Option<string>) {
    txid.Some? && o.spend.Some? && o.spend.value.txid == txid.value && o.spend.value.height.Some?
  }

  /** The output was spent by some other transaction. */
  predicate LostTo(o: HtlcOut, txid: Option<string>) {
    o.spend.Some? && Some(o.spend.value.txid) != txid
  }

  /** With a lock out, the maker ends done once its claim is in a block, failed once it lost the race for the
      taker's lock, and refunded once its refund is in a block and it has nothing to claim; until then it goes
      on. */
  predicate MakerEnded(stage: Stage, mine: Option<HtlcOut>, theirs: Option<HtlcOut>, claim: Option<string>,
                       refund: Option<string>) {
    && (stage == Done <==> theirs.Some? && SpentBy(theirs.value, claim))
    && (stage == Failed <==> claim.Some? && theirs.Some? && LostTo(theirs.value, claim))
    && (stage == Stage.Refunded <==> claim.None? && mine.Some? && SpentBy(mine.value, refund))
    && stage != CalledOff
  }

  /** With a lock out, the taker ends done once its claim is in a block and its own lock is the maker's or back
      with it, and refunded once its refund is in a block and its claim is not; until then it goes on. */
  predicate TakerEnded(stage: Stage, mine: Option<HtlcOut>, theirs: Option<HtlcOut>, claim: Option<string>,
                       refund: Option<string>) {
    && (stage == Done <==>
          && theirs.Some? && SpentBy(theirs.value, claim)
          && mine.Some? && (LostTo(mine.value, refund) || SpentBy(mine.value, refund)))
    && (stage == Stage.Refunded <==>
          && mine.Some? && SpentBy(mine.value, refund)
          && !(theirs.Some? && SpentBy(theirs.value, claim)))
    && stage != CalledOff && stage != Failed
  }

  /** The output `TheirsLocked` goes by. */
  ghost predicate TheirsIs(known: Option<Outpoint>, amount: nat, unspentOnly: bool, scan: Scan, out: Option<HtlcOut>) {
    if known.Some? then out == FindOut(scan.outs, known.value) else Picked(scan.outs, amount, unspentOnly, out)
  }

  lemma {:induction false} FindOutFinds(outs: seq<HtlcOut>, at: Outpoint)
    ensures FindOut(outs, at).Some? ==> FindOut(outs, at).value in outs && FindOut(outs, at).value.at == at
    ensures FindOut(outs, at).None? ==> forall o :: o in outs ==> o.at != at
    decreases |outs|
  {
    if |outs| > 0 && outs[0].at != at { FindOutFinds(outs[1..], at); }
  }

  /** A maker that sees its lock spent by anything but its own refund, the secret in the spend, and the taker's lock
      still there, claims that with the secret. */
  lemma SeenIsClaimed(mine: seq<HtlcOut>, lock: HtlcOut, spend: Spend, refund: Option<string>, vins: seq<seq<string>>,
                      theirs: HtlcOut, hash: string, sha: string -> string)
    requires FindOut(mine, lock.at) == Some(lock) && lock.spend == Some(spend) && refund != Some(spend.txid)
    requires SecretFromWitness(spend.stack, hash, sha).Some? && theirs.spend.None?
    ensures var acts := ClaimActions(Some(theirs), None,
                                     Learned(CounterClaim(FindOut(mine, lock.at), refund), vins, hash,
                                                                 sha));
            |acts| == 1 && acts[0].Claim? && acts[0].at == theirs.at && sha(acts[0].secret) == hash
  {
    LearnedOpens(Some(spend), vins, hash, sha);
  }

  /** A taker that finds the maker's lock there, and passing the test, reveals its secret for it. */
  lemma TestedIsClaimed(t: Terms, p: Policy, k: Tick, o: HtlcOut)
    requires TakerMayClaim(t, p, o, k.later.tip)
    ensures ClaimActions(Some(o), None, TakerSecret(t, p, k, Some(o))) == [Claim(o.at, k.secret)]
  {
  }

  /** A lock nobody has spent goes back as soon as the next block may hold its refund, and not before; a refund or a
      claim already made is sent again for as long as the output is there. */
  lemma DueIsSent(o: HtlcOut, tip: nat, blocks: nat, txid: string)
    requires o.spend.None? && o.height.Some? && o.height.value <= tip
    ensures RefundActions(Some(o), tip, blocks, None) ==
              if o.height.value + blocks <= tip + 1 then [Refund(o.at)] else []
    ensures RefundActions(Some(o), tip, blocks, Some(txid)) == [Resend(txid)]
    ensures forall secret :: ClaimActions(Some(o), Some(txid), secret) == [Resend(txid)]
  {
  }

  /** A spend of my lock that is not my own refund. */
  function CounterClaim(myOut: Option<HtlcOut>, refund: Option<string>): Option<Spend> {
    if myOut.Some? && myOut.value.spend.Some? && Some(myOut.value.spend.value.txid) != refund then myOut.value.spend
        else None
  }

  function FirstSecret(vins: seq<seq<string>>, hash: string, sha: string -> string): Option<string>
    decreases |vins|
  {
    if |vins| == 0 then None
    else if SecretFromWitness(vins[0], hash, sha).Some? then SecretFromWitness(vins[0], hash, sha)
    else FirstSecret(vins[1..], hash, sha)
  }

  /** The secret a counterparty's spend gives away. */
  function Learned(seen: Option<Spend>, vins: seq<seq<string>>, hash: string, sha: string -> string): Option<string> {
    if seen.None? then None
    else if SecretFromWitness(seen.value.stack, hash, sha).Some? then SecretFromWitness(seen.value.stack, hash, sha)
    else FirstSecret(vins, hash, sha)
  }

  /** What is learned opens the lock, and whatever witness of the claim shows the secret, it is learned. */
  lemma {:induction false} LearnedOpens(seen: Option<Spend>, vins: seq<seq<string>>, hash: string,
                                        sha: string -> string)
    ensures Learned(seen, vins, hash, sha).Some? ==> sha(Learned(seen, vins, hash, sha).value) == hash
    ensures Learned(seen, vins, hash, sha).Some? <==>
              && seen.Some?
              && (SecretFromWitness(seen.value.stack, hash, sha).Some?
                  || exists v :: v in vins && SecretFromWitness(v, hash, sha).Some?)
  {
    FirstSecretOpens(vins, hash, sha);
  }

  lemma {:induction false} FirstSecretOpens(vins: seq<seq<string>>, hash: string, sha: string -> string)
    ensures FirstSecret(vins, hash, sha).Some? ==> sha(FirstSecret(vins, hash, sha).value) == hash
    ensures FirstSecret(vins, hash, sha).Some? <==> exists v :: v in vins && SecretFromWitness(v, hash, sha).Some?
    decreases |vins|
  {
    if |vins| > 0 { FirstSecretOpens(vins[1..], hash, sha); }
  }
}
