/** Mining an anchor and verifying it (mineAnchor and verifyAnchor in src/consensus/anchor.ts, with the
    stand-in backend of src/consensus/space.ts). */
module AnchorProofs {
  import opened Primitives
  import opened Anchors
  import opened Space
  import opened AnchorChains

  const GENESIS_GRIND: nat := 256
  const MAX_SIGNAGE: nat := 4096

  datatype Mined = Mined(proof: SpaceAnswer, quality: string)

  /** What mining calls out to: hashing, the time function, required iterations, ids and signatures. */
  datatype Tools = Tools(
    genesisChallenge: nat -> string,
    nextChallenge: Anchor -> string,
    signage: (string, string, nat) -> string,
    vdfEval: (string, nat) -> TimeProof,
    vdfVerify: (string, TimeProof) -> bool,
    vdfChallenge: (string, string) -> string,
    required: (string, SpaceCommitment, nat) -> nat,
    idOf: Anchor -> Id,
    publicKey: string -> string,
    sign: (string, Id) -> string,
    edVerify: (string, Id, string) -> bool,
    stepIters: nat)

  /** An evaluated proof verifies for the iterations asked, and a signature under its own key. */
  ghost predicate Lawful(c: Tools) {
    && (forall x, n {:trigger c.vdfEval(x, n)} :: c.vdfVerify(x, c.vdfEval(x, n)) && c.vdfEval(x, n).iters == n)
    && (forall key, m {:trigger c.sign(key, m)} :: c.edVerify(c.publicKey(key), m, c.sign(key, m)))
  }

  type Prover = string -> Option<Mined>

  type Verifier = (SpaceCommitment, string, string, SpaceAnswer) -> Option<string>

  /** What a plot's prover answers, its verifier accepts with the same quality. */
  ghost predicate Complete(prove: Prover, verify: Verifier, space: SpaceCommitment, producer: string) {
    forall ch {:trigger prove(ch)} :: prove(ch).Some? ==>
        verify(space, producer, ch, prove(ch).value.proof) == Some(prove(ch).value.quality)
  }

  /** What an id and a signature cover. */
  function BodyOf(a: Anchor): Anchor {
    a.(id := "", seal := a.seal.(sig := ""))
  }

  // ---------- the signage walk ----------

  function Signage(c: Tools, base: string, out: string, sp: nat): string {
    if sp == 0 then base else c.signage(base, out, sp)
  }

  /** The output reached by walking `step` from `out`, if every step verifies. */
  function Walk(c: Tools, out: string, step: seq<TimeProof>): Option<string>
    decreases |step|
  {
    if |step| == 0 then Some(out)
    else
      var before := Walk(c, out, step[..|step| - 1]);
      var s := step[|step| - 1];
      if before.Some? && s.iters == c.stepIters && c.vdfVerify(before.value, s) then Some(s.output) else None
  }

  /** The challenge an anchor's nonce or signage walk leads to. */
  function ChallengeOf(c: Tools, a: Anchor, prev: Option<Anchor>): Option<string> {
    if |a.seal.step| > MAX_SIGNAGE then None
    else if prev.None? then (if a.seal.step == [] then Some(c.genesisChallenge(a.seal.nonce)) else None)
    else if a.seal.nonce != 0 then None
    else
      var base := c.nextChallenge(prev.value);
      var out := Walk(c, base, a.seal.step);
      if out.None? then None else Some(Signage(c, base, out.value, |a.seal.step|))
  }

  // ---------- verifying ----------

  datatype Check =
    | Accepted(heads: Heads)
    | WrongDifficulty | BadHeight | BadPrev | BadWeight | BadStateRoot | BadWalk | BadSpace
    | ShortCooldown | BadTime | IdMismatch | BadSignature

  /** The space, time and identity proofs, given the challenge. */
  predicate ProofsOk(c: Tools, verify: Verifier, a: Anchor, prev: Option<Anchor>, expected: nat) {
    var ch := ChallengeOf(c, a, prev);
    && ch.Some?
    && var q := verify(a.seal.space, a.producer, ch.value, a.seal.proof);
       && q.Some?
       && c.required(q.value, a.seal.space, expected) <= a.seal.time.iters
       && c.vdfVerify(c.vdfChallenge(ch.value, q.value), a.seal.time)
       && c.idOf(BodyOf(a)) == a.id && c.edVerify(a.producer, a.id, a.seal.sig)
  }

  method VerifyWalk(c: Tools, base: string, step: seq<TimeProof>) returns (out: Option<string>)
    ensures out == Walk(c, base, step)
  {
    var at := base;
    for i := 0 to |step|
      invariant Walk(c, base, step[..i]) == Some(at)
    {
      assert step[..i + 1][..i] == step[..i];
      var s := step[i];
      if s.iters != c.stepIters || !c.vdfVerify(at, s) {
        WalkStops(c, base, step, i + 1);
        return None;
      }
      at := s.output;
    }
    assert step[..|step|] == step;
    out := Some(at);
  }

  lemma {:induction false} WalkStops(c: Tools, out: string, step: seq<TimeProof>, n: nat)
    requires n <= |step| && Walk(c, out, step[..n]).None?
    ensures Walk(c, out, step).None?
    decreases |step| - n
  {
    if n < |step| {
      assert step[..n + 1][..n] == step[..n];
      WalkStops(c, out, step, n + 1);
    } else {
      assert step[..n] == step;
    }
  }

  method Challenge(c: Tools, a: Anchor, prev: Option<Anchor>) returns (ch: Option<string>)
    ensures ch == ChallengeOf(c, a, prev)
  {
    if |a.seal.step| > MAX_SIGNAGE { return None; }
    if prev.None? {
      if |a.seal.step| != 0 { return None; }
      return Some(c.genesisChallenge(a.seal.nonce));
    }
    if a.seal.nonce != 0 { return None; }
    var base := c.nextChallenge(prev.value);
    var out := VerifyWalk(c, base, a.seal.step);
    if out.None? { return None; }
    ch := Some(Signage(c, base, out.value, |a.seal.step|));
  }

  /** An anchor is accepted exactly when its links and its proofs check out, with the heads its delta
      gives on top of its parent's. */
  method VerifyAnchor(c: Tools, verify: Verifier, a: Anchor, prev: Option<Anchor>, prevHeads: Heads, expected: nat)
      returns (r: Check)
    ensures r.Accepted? <==> LinksOk(a, prev, prevHeads, expected) && ProofsOk(c, verify, a, prev, expected)
    ensures r.Accepted? ==> r.heads == ApplyHeadsDelta(prevHeads, a.headsDelta) == a.stateRoot
  {
    if a.difficulty != expected { return WrongDifficulty; }
    if a.height != (if prev.Some? then prev.value.height + 1 else 0) { return BadHeight; }
    if a.prev != (if prev.Some? then Some(prev.value.id) else None) { return BadPrev; }
    if a.weight != (if prev.Some? then prev.value.weight else 0) + expected { return BadWeight; }
    var heads := ApplyHeadsDelta(prevHeads, a.headsDelta);
    if a.stateRoot != heads { return BadStateRoot; }
    var ch := Challenge(c, a, prev);
    if ch.None? { return BadWalk; }
    var q := verify(a.seal.space, a.producer, ch.value, a.seal.proof);
    if q.None? { return BadSpace; }
    if a.seal.time.iters < c.required(q.value, a.seal.space, expected) { return ShortCooldown; }
    if !c.vdfVerify(c.vdfChallenge(ch.value, q.value), a.seal.time) { return BadTime; }
    if c.idOf(BodyOf(a)) != a.id { return IdMismatch; }
    if !c.edVerify(a.producer, a.id, a.seal.sig) { return BadSignature; }
    r := Accepted(heads);
  }

  // ---------- what an accepted anchor is worth ----------

  /** The cryptography binds: a time proof shows the time function's own output `out`, a signature its key's consent
      `signed`, and no two bodies have one id. */
  ghost predicate Binding(c: Tools, out: (string, nat) -> string, signed: (string, Id) -> bool) {
    && (forall x, t {:trigger c.vdfVerify(x, t)} :: c.vdfVerify(x, t) ==> t.output == out(x, t.iters))
    && (forall key, m, sig {:trigger c.edVerify(key, m, sig)} :: c.edVerify(key, m, sig) ==> signed(key, m))
    && (forall a, b {:trigger c.idOf(a), c.idOf(b)} :: c.idOf(a) == c.idOf(b) ==> a == b)
  }

  /** The time function run `k` times over, each for one step. */
  function Ran(out: (string, nat) -> string, from: string, iters: nat, k: nat): string {
    if k == 0 then from else out(Ran(out, from, iters, k - 1), iters)
  }

  lemma {:induction false} WalkRan(c: Tools, out: (string, nat) -> string, signed: (string, Id) -> bool, from: string,
                                   step: seq<TimeProof>)
    requires Binding(c, out, signed) && Walk(c, from, step).Some?
    ensures Walk(c, from, step) == Some(Ran(out, from, c.stepIters, |step|))
    decreases |step|
  {
    if |step| > 0 { WalkRan(c, out, signed, from, step[..|step| - 1]); }
  }

  /** The challenge `k` signage steps after the parent, or the ground one of a first anchor. */
  function TrueChallenge(c: Tools, out: (string, nat) -> string, prev: Option<Anchor>, nonce: nat, k: nat): string {
    if prev.None? then c.genesisChallenge(nonce)
    else if k == 0 then c.nextChallenge(prev.value)
    else c.signage(c.nextChallenge(prev.value), Ran(out, c.nextChallenge(prev.value), c.stepIters, k), k)
  }

  /** Nothing is accepted that was not paid for: its challenge cost every step from its parent on, the plot answers
      that challenge, the time function ran at least as long again as the answer's quality asks, and the producer
      signed the whole. */
  lemma AcceptedIsPaid(c: Tools, verify: Verifier, a: Anchor, prev: Option<Anchor>, expected: nat,
                       out: (string, nat) -> string, signed: (string, Id) -> bool)
    returns (challenge: string, quality: string)
    requires Binding(c, out, signed) && ProofsOk(c, verify, a, prev, expected)
    ensures |a.seal.step| <= 4096 && (prev.Some? ==> a.seal.nonce == 0) && (prev.None? ==> a.seal.step == [])
    ensures challenge == TrueChallenge(c, out, prev, a.seal.nonce, |a.seal.step|)
    ensures verify(a.seal.space, a.producer, challenge, a.seal.proof) == Some(quality)
    ensures a.seal.time.iters >= c.required(quality, a.seal.space, expected)
    ensures a.seal.time.output == out(c.vdfChallenge(challenge, quality), a.seal.time.iters)
    ensures signed(a.producer, a.id)
  {
    if prev.Some? { WalkRan(c, out, signed, c.nextChallenge(prev.value), a.seal.step); }
    challenge := ChallengeOf(c, a, prev).value;
    quality := verify(a.seal.space, a.producer, challenge, a.seal.proof).value;
  }

  /** And an id stands for one anchor: of two accepted under one id only the signatures can differ. */
  lemma IdSeals(c: Tools, verify: Verifier, a: Anchor, b: Anchor, prevA: Option<Anchor>, prevB: Option<Anchor>,
                expectedA: nat, expectedB: nat, out: (string, nat) -> string, signed: (string, Id) -> bool)
    requires Binding(c, out, signed) && a.id == b.id
    requires ProofsOk(c, verify, a, prevA, expectedA) && ProofsOk(c, verify, b, prevB, expectedB)
    ensures b == a.(seal := a.seal.(sig := b.seal.sig))
  {
    assert c.idOf(BodyOf(a)) == c.idOf(BodyOf(b));
    assert a == BodyOf(a).(id := a.id, seal := BodyOf(a).seal.(sig := a.seal.sig));
    assert b == BodyOf(b).(id := b.id, seal := BodyOf(b).seal.(sig := b.seal.sig));
  }

  // ---------- mining ----------

  /** Grind the genesis nonce until the plot answers. */
  method Grind(c: Tools, prove: Prover) returns (nonce: nat, mined: Option<Mined>)
    ensures mined == prove(c.genesisChallenge(nonce)) && nonce <= GENESIS_GRIND
    ensures forall n :: 0 <= n < nonce ==> prove(c.genesisChallenge(n)).None?
    ensures mined.None? ==> nonce == GENESIS_GRIND
  {
    nonce := 0;
    mined := prove(c.genesisChallenge(nonce));
    while mined.None? && nonce < GENESIS_GRIND
      invariant nonce <= GENESIS_GRIND && mined == prove(c.genesisChallenge(nonce))
      invariant forall n :: 0 <= n < nonce ==> prove(c.genesisChallenge(n)).None?
    {
      nonce := nonce + 1;
      mined := prove(c.genesisChallenge(nonce));
    }
  }

  /** What the time function has reached after `k` signage steps from `base`. */
  function StepOut(c: Tools, base: string, k: nat): string {
    if k == 0 then base else c.vdfEval(StepOut(c, base, k - 1), c.stepIters).output
  }

  /** The challenge of the `k`-th signage point. */
  function PointAt(c: Tools, base: string, k: nat): string {
    Signage(c, base, StepOut(c, base, k), k)
  }

  /** Walk signage points, one time proof each, until the plot answers. */
  method WalkSignage(c: Tools, prove: Prover, base: string)
      returns (step: seq<TimeProof>, challenge: string, mined: Option<Mined>)
    requires Lawful(c)
    ensures |step| <= MAX_SIGNAGE && mined == prove(challenge)
    ensures Walk(c, base, step) == Some(StepOut(c, base, |step|)) && challenge == PointAt(c, base, |step|)
    ensures mined.None? ==> |step| == MAX_SIGNAGE
    ensures forall k :: 0 <= k < |step| ==> prove(PointAt(c, base, k)).None?
  {
    step := [];
    var out := base;
    challenge := Signage(c, base, out, 0);
    mined := prove(challenge);
    while mined.None? && |step| < MAX_SIGNAGE
      invariant |step| <= MAX_SIGNAGE && mined == prove(challenge)
      invariant Walk(c, base, step) == Some(out) && out == StepOut(c, base, |step|)
                  && challenge == PointAt(c, base, |step|)
      invariant forall k :: 0 <= k < |step| ==> prove(PointAt(c, base, k)).None?
      decreases MAX_SIGNAGE - |step|
    {
      var advance := c.vdfEval(out, c.stepIters);
      assert (step + [advance])[..|step|] == step;
      step := step + [advance];
      out := advance.output;
      challenge := Signage(c, base, out, |step|);
      mined := prove(challenge);
    }
  }

  /** The `k`-th challenge tried, and how many there are beyond the first. */
  function TryAt(c: Tools, prev: Option<Anchor>, k: nat): string {
    if prev.None? then c.genesisChallenge(k) else PointAt(c, c.nextChallenge(prev.value), k)
  }

  function Tries(prev: Option<Anchor>): nat {
    if prev.None? then GENESIS_GRIND else MAX_SIGNAGE
  }

  function TriesUsed(a: Anchor): nat {
    if a.prev.None? then a.seal.nonce else |a.seal.step|
  }

  /** What mining found: where the nonce or the walk led, and the plot's answer there. */
  method Search(c: Tools, prove: Prover, prev: Option<Anchor>)
    returns (nonce: nat, step: seq<TimeProof>, challenge: string, mined: Option<Mined>)
    requires Lawful(c)
    ensures mined == prove(challenge) && |step| <= MAX_SIGNAGE
    ensures mined.None? ==> forall k :: 0 <= k <= Tries(prev) ==> prove(TryAt(c, prev, k)).None?
    ensures forall k :: 0 <= k < (if prev.None? then nonce else |step|) ==> prove(TryAt(c, prev, k)).None?
    ensures prev.None? ==> step == [] && nonce <= Tries(prev) && challenge == c.genesisChallenge(nonce)
    ensures prev.Some? ==>
              && nonce == 0 && challenge == PointAt(c, c.nextChallenge(prev.value), |step|)
              && Walk(c, c.nextChallenge(prev.value), step) == Some(StepOut(c, c.nextChallenge(prev.value), |step|))
  {
    if prev.None? {
      nonce, mined := Grind(c, prove);
      step, challenge := [], c.genesisChallenge(nonce);
    } else {
      nonce := 0;
      step, challenge, mined := WalkSignage(c, prove, c.nextChallenge(prev.value));
    }
  }

  /** Honest anchors verify: whatever mining returns is accepted, at the difficulty it was mined for and
      with the heads it was mined over, exactly when no writer known before has gone missing. */
  method MineAnchor(c: Tools, prove: Prover, ghost verify: Verifier, space: SpaceCommitment, key: string,
                    prev: Option<Anchor>, prevHeads: Heads, heads: Heads, difficulty: nat, appRoot: string)
    returns (r: Option<Anchor>)
    requires Lawful(c) && Complete(prove, verify, space, c.publicKey(key))
    ensures r.None? <==> forall k :: 0 <= k <= Tries(prev) ==> prove(TryAt(c, prev, k)).None?
    ensures r.Some? ==>
              && TriesUsed(r.value) <= Tries(prev) && prove(TryAt(c, prev, TriesUsed(r.value))).Some?
              && forall k :: 0 <= k < TriesUsed(r.value) ==> prove(TryAt(c, prev, k)).None?
    ensures r.Some? ==>
              && r.value.stateRoot == heads && r.value.producer == c.publicKey(key) && r.value.seal.appRoot == appRoot
              && ProofsOk(c, verify, r.value, prev, difficulty)
              && (LinksOk(r.value, prev, prevHeads, difficulty) <==> prevHeads.Keys <= heads.Keys)
  {
    var nonce, step, challenge, mined := Search(c, prove, prev);
    if mined.None? { return None; }
    var need := c.required(mined.value.quality, space, difficulty);
    var time := c.vdfEval(c.vdfChallenge(challenge, mined.value.quality), need);
    var body := Anchor(
      "", if prev.Some? then Some(prev.value.id) else None, if prev.Some? then prev.value.height + 1 else 0,
      c.publicKey(key), difficulty, DiffHeads(prevHeads, heads), heads,
      (if prev.Some? then prev.value.weight else 0) + difficulty,
      Seal(nonce, step, space, mined.value.proof, time, appRoot, ""));
    var id := c.idOf(body);
    r := Some(body.(id := id, seal := body.seal.(sig := c.sign(key, id))));
    assert BodyOf(r.value) == body;
    assert ChallengeOf(c, r.value, prev) == Some(challenge) && challenge == TryAt(c, prev, TriesUsed(r.value));
    DiffApplies(prevHeads, heads);
  }

  // ---------- the stand-in plot ----------

  /** Best answer of a built plot. It always has one. */
  ghost predicate Answers(h: Hashes, p: Plot, prove: Prover) {
    forall ch {:trigger prove(ch)} :: prove(ch).Some? &&
      var m := prove(ch).value;
      && Best(h, p.leaves, ch, |p.leaves|, m.proof.index)
      && m == Mined(SpaceAnswer(m.proof.index, p.leaves[m.proof.index], PathOf(h, p.leaves, m.proof.index)),
                    h.quality(p.leaves[m.proof.index], ch))
  }

  function StandinVerify(h: Hashes): Verifier {
    (space: SpaceCommitment, producer: string, ch: string, proof: SpaceAnswer) =>
      if space.kind != "standin" then None else QualityOf(h, producer, space.id, space.k, ch, proof)
  }

  /** A stand-in plot of the producer's own key is a complete prover for the stand-in verifier. */
  lemma StandinComplete(h: Hashes, p: Plot, prove: Prover)
    requires Built(h, p) && Answers(h, p, prove)
    ensures Complete(prove, StandinVerify(h), SpaceCommitment("standin", p.root, p.k), p.seed)
  {
    forall ch
      ensures StandinVerify(h)(SpaceCommitment("standin", p.root, p.k), p.seed, ch, prove(ch).value.proof) ==
                Some(prove(ch).value.quality)
    {
      assert prove(ch).Some?;
      PathComplete(h, p.leaves, prove(ch).value.proof.index);
    }
  }
}
