/** Writes and the order-board operations they carry (src/market/ops.ts, src/chain/writer.ts). */
module Ops {
  import opened Primitives

  datatype Chain = Bitcoin | Litecoin

  datatype Leg = Leg(chain: Chain, amount: pos)

  datatype Utxo = Utxo(txid: string, vout: nat, value: pos)

  datatype FundsProof = FundsProof(chain: Chain, net: string, pubkey: string, utxos: seq<Utxo>, sig: string)

  datatype Op =
    | OfferPost(give: Leg, want: Leg, minFill: pos, expiresIn: nat)
    | OfferCancel(offerId: Id)
    | OfferTake(offerId: Id, fill: pos, hash: string, takerKey: string)
    | SwapProof(matchId: Id, makerKey: Option<string>, proof: FundsProof)
    | SwapLocked(matchId: Id, txid: string, vout: nat)
    | SwapAbort(matchId: Id)

  /** A write's payload: well-encoded operation fields, or anything else. */
  datatype Payload = Junk | Fields(op: Op)

  const MAX_OFFER_TTL: nat := 2880

  function MaxMoney(c: Chain): nat {
    match c
    case Bitcoin => 2_100_000_000_000_000
    case Litecoin => 8_400_000_000_000_000
  }

  const MAX_PROOF_UTXOS: nat := 32

  predicate IsHex(s: string, n: nat) {
    |s| == n && forall i :: 0 <= i < n ==> '0' <= s[i] <= '9' || 'a' <= s[i] <= 'f'
  }

  /** 1 to 32 well-formed outpoints, no two the same (fundsProofShapeError in src/swap/proof.ts). */
  predicate ProofShape(p: FundsProof) {
    && p.net in {"mainnet", "testnet", "regtest"} && IsHex(p.pubkey, 64) && IsHex(p.sig, 128)
    && 1 <= |p.utxos| <= MAX_PROOF_UTXOS
    && (forall i :: 0 <= i < |p.utxos| ==>
          IsHex(p.utxos[i].txid, 64) && p.utxos[i].vout <= 0xffff_ffff && p.utxos[i].value <= MaxMoney(p.chain))
    && (forall i, j :: 0 <= i < j < |p.utxos| ==>
          p.utxos[i].txid != p.utxos[j].txid || p.utxos[i].vout != p.utxos[j].vout)
  }

  /** The checks parseOp makes without looking at the board; that a key lifts to a curve point is part of
      being well-encoded. */
  function ParseOp(p: Payload): Option<Op> {
    match p
    case Junk => None
    case Fields(op) =>
      match op
      case OfferPost(give, want, minFill, ttl) =>
        if give.amount > MaxMoney(give.chain) || want.amount > MaxMoney(want.chain) then None
        else if give.chain == want.chain then None
        else if minFill > give.amount then None
        else if ttl < 1 || ttl > MAX_OFFER_TTL then None
        else Some(op)
      case OfferCancel(offerId) => if IsHex(offerId, 64) then Some(op) else None
      case OfferTake(offerId, fill, hash, takerKey) =>
        if !IsHex(offerId, 64) || !IsHex(hash, 64) || !IsHex(takerKey, 64) || fill > MaxMoney(Litecoin) then None
        else Some(op)
      case SwapProof(matchId, makerKey, proof) =>
        if !IsHex(matchId, 64) || !ProofShape(proof) || (makerKey.Some? && !IsHex(makerKey.value, 64)) then None
        else Some(op)
      case SwapLocked(matchId, txid, vout) =>
        if !IsHex(matchId, 64) || !IsHex(txid, 64) || vout > 0xffff_ffff then None else Some(op)
      case SwapAbort(matchId) => if IsHex(matchId, 64) then Some(op) else None
  }

  datatype Write = Write(
    id: Id,
    writer: string,
    seqNo: nat,
    prev: Option<Id>,
    plotRoot: string,
    ts: int,
    payload: Payload,
    genuine: bool)

  /** Whether the write's space and time proofs, id and signature check out: settled by the write
      alone, so recorded in it. */
  predicate VerifyWrite(w: Write) {
    w.genuine
  }
}
