/** Anchors and writer heads (src/consensus/anchor.ts, src/ledger/ledger.ts). */
module Anchors {
  import opened Primitives

  datatype Head = Head(id: Id, seqNo: nat)

  type Heads = map<string, Head>

  datatype TimeProof = TimeProof(iters: nat, output: string, proof: string)

  datatype SpaceCommitment = SpaceCommitment(kind: string, id: string, k: nat)

  datatype SpaceAnswer = SpaceAnswer(index: nat, value: string, path: seq<string>)

  /** The parts of an anchor that only proof checking looks at. */
  datatype Seal = Seal(
    nonce: nat, step: seq<TimeProof>, space: SpaceCommitment, proof: SpaceAnswer,
    time: TimeProof, appRoot: string, sig: string)

  /** `stateRoot` is a hash of the full heads; the hash is taken as injective, so the field is the
      heads it commits to. */
  datatype Anchor = Anchor(
    id: Id, prev: Option<Id>, height: nat, producer: string, difficulty: nat,
    headsDelta: Heads, stateRoot: Heads, weight: nat, seal: Seal)

  /** The writers whose head changed from `prev` to `next`. */
  function DiffHeads(prev: Heads, next: Heads): (delta: Heads)
    ensures delta.Keys <= next.Keys
  {
    map w | w in next && (w !in prev || prev[w].seqNo != next[w].seqNo || prev[w].id != next[w].id) :: next[w]
  }

  function ApplyHeadsDelta(prev: Heads, delta: Heads): Heads {
    prev + delta
  }

  /** Carrying only the changed heads loses nothing, as long as no writer disappears. */
  lemma DiffApplies(prev: Heads, next: Heads)
    ensures ApplyHeadsDelta(prev, DiffHeads(prev, next)) == next <==> prev.Keys <= next.Keys
  {
    var got := ApplyHeadsDelta(prev, DiffHeads(prev, next));
    if prev.Keys <= next.Keys {
      assert got.Keys == next.Keys;
      forall w | w in next ensures got[w] == next[w] {
        if w in prev && prev[w].seqNo == next[w].seqNo && prev[w].id == next[w].id {
          assert w !in DiffHeads(prev, next);
        }
      }
    } else {
      var w :| w in prev && w !in next;
      assert w in got;
    }
  }

  /** And less would not do: whatever gives the next heads back carries at least those. */
  lemma DiffIsLeast(prev: Heads, next: Heads, delta: Heads)
    requires ApplyHeadsDelta(prev, delta) == next
    ensures forall w :: w in DiffHeads(prev, next) ==> w in delta && delta[w] == DiffHeads(prev, next)[w]
  {
    forall w | w in DiffHeads(prev, next) ensures w in delta && delta[w] == next[w] {
      assert w in next && next[w] == (prev + delta)[w];
    }
  }
}
