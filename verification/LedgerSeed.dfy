/** Runs over a pruned ledger, and over one that started from a checkpoint instead of the beginning
    (src/ledger/ledger.ts). */
module LedgerSeed {
  import opened Primitives
  import opened Ops
  import opened Anchors
  import opened Writers
  import opened LedgerSpec
  import opened LedgerPrune
  import opened Ordering

  function Answers(st: LedgerState, ws: seq<Write>): seq<ApplyResult>
    decreases |ws|
  {
    if |ws| == 0 then []
    else Answers(st, ws[..|ws| - 1]) + [DeskAfter(ApplyAll(st, ws[..|ws| - 1]), ws[|ws| - 1]).result]
  }

  /** Each write of the run is above the checkpoint, on the plot its writer is known by. */
  ghost predicate PlainRun(full: LedgerState, cut: LedgerState, ws: seq<Write>)
    decreases |ws|
  {
    |ws| == 0 || (PlainRun(full, cut, ws[..|ws| - 1])
                  && PlainNext(ApplyAll(full, ws[..|ws| - 1]), ApplyAll(cut, ws[..|ws| - 1]), ws[|ws| - 1]))
  }

  lemma {:induction false} RunSame(full: LedgerState, cut: LedgerState, ws: seq<Write>)
    requires SameAbove(full, cut) && AllFiled(full) && AllLinear(full) && PlainRun(full, cut, ws)
    ensures Answers(cut, ws) == Answers(full, ws)
    ensures SameAbove(ApplyAll(full, ws), ApplyAll(cut, ws))
    ensures AllFiled(ApplyAll(full, ws)) && AllLinear(ApplyAll(full, ws))
    decreases |ws|
  {
    if |ws| > 0 {
      var before, w := ws[..|ws| - 1], ws[|ws| - 1];
      RunSame(full, cut, before);
      ApplySame(ApplyAll(full, before), ApplyAll(cut, before), w);
      ApplyKeepsShape(ApplyAll(full, before), w);
    }
  }

  /** Pruning is invisible above the checkpoint: the pruned ledger answers every later write as the
      unpruned one does, and ends with its heads and its weight. */
  lemma PruneInvisible(st: LedgerState, heads: Heads, ws: seq<Write>, unit: nat)
    requires AllFiled(st) && AllLinear(st) && HoldsHeads(st, heads) && PlainRun(st, Prune(st, heads), ws)
    ensures Answers(Prune(st, heads), ws) == Answers(st, ws)
    ensures HeadsIn(ApplyAll(Prune(st, heads), ws)) == HeadsIn(ApplyAll(st, ws))
    ensures Weight(ApplyAll(Prune(st, heads), ws), unit) == Weight(ApplyAll(st, ws), unit)
  {
    PruneKeepsHeads(st, heads, unit);
    RunSame(st, Prune(st, heads), ws);
    SameAboveShows(ApplyAll(st, ws), ApplyAll(Prune(st, heads), ws), unit);
  }

  // ---------- starting from a checkpoint ----------

  ghost function SeedLinks(heads: Heads): map<string, Link> {
    map wr | wr in heads :: Link(wr, None, heads[wr].seqNo + 1, Some(heads[wr].id), [])
  }

  ghost function SeedBuffers(heads: Heads): map<string, Pending> {
    map wr | wr in heads :: map[]
  }

  ghost function Seed(st: LedgerState, heads: Heads): LedgerState {
    LedgerState(st.chains + SeedLinks(heads), st.pending + SeedBuffers(heads), st.tick)
  }

  function BasesOf(heads: Heads): map<string, nat> {
    map wr | wr in heads :: heads[wr].seqNo + 1
  }

  /** The heads name writes the writers really wrote. */
  ghost predicate Certified(truth: Truth, heads: Heads) {
    forall wr :: wr in heads ==>
      wr in truth && heads[wr].seqNo < |truth[wr]| && truth[wr][heads[wr].seqNo].id == heads[wr].id
  }

  lemma SeedSane(truth: Truth, heads: Heads)
    requires Certified(truth, heads)
    ensures Sane(Seed(EMPTY, heads), truth, BasesOf(heads), {})
  {
  }

  lemma TailMissing(ws: seq<Write>, base: nat, full: set<Write>, tail: set<Write>, n: nat)
    requires FirstMissing(ws, 0, full, n) && base <= n
    requires forall s :: base <= s < |ws| ==> (ws[s] in full <==> ws[s] in tail)
    ensures FirstMissing(ws, base, tail, n)
  {
  }

  lemma SeedTip(a: LedgerState, b: LedgerState, truth: Truth, wr: string, base: nat, full: set<Write>, tail: set<Write>)
    requires wr in truth && (wr in a.chains ==> ExactlyReceived(a, wr, truth[wr], 0, full))
    requires wr in b.chains ==> ExactlyReceived(b, wr, truth[wr], base, tail)
    requires forall s :: base <= s < |truth[wr]| ==> (truth[wr][s] in full <==> truth[wr][s] in tail)
    requires if base == 0 then wr in a.chains <==> wr in b.chains
             else wr in a.chains && wr in b.chains && base <= NextSeq(a.chains[wr])
    ensures exists n :: HeldUpTo(a, truth, wr, n) && HeldUpTo(b, truth, wr, n)
  {
    if wr in a.chains {
      HeadOfHolds(a, truth, wr, 0);
      HeadOfHolds(b, truth, wr, base);
      TailMissing(truth[wr], base, full, tail, NextSeq(a.chains[wr]));
      FirstMissingUnique(truth[wr], base, tail, NextSeq(a.chains[wr]), NextSeq(b.chains[wr]));
    } else {
      assert HeldUpTo(a, truth, wr, 0) && HeldUpTo(b, truth, wr, 0);
    }
  }

  /** The full run holds everything the checkpoint certifies. */
  ghost predicate Covers(st: LedgerState, heads: Heads) {
    forall wr :: wr in heads ==> wr in st.chains && heads[wr].seqNo < NextSeq(st.chains[wr])
  }

  /** A ledger seeded with a checkpoint's heads and fed the writes above it, in any order, ends with
      the heads of one that was fed everything. */
  lemma SeedPlusTail(truth: Truth, heads: Heads, ws: seq<Write>, tail: seq<Write>)
    requires Genuine(truth) && Certified(truth, heads)
    requires (forall w :: w in ws ==> Written(truth, w)) && (forall w :: w in tail ==> Written(truth, w))
    requires NoDecayAlong(EMPTY, ws) && NoDecayAlong(Seed(EMPTY, heads), tail)
    requires forall w :: !Included(heads, w) ==> (w in ws <==> w in tail)
    requires Covers(ApplyAll(EMPTY, ws), heads)
    ensures HeadsIn(ApplyAll(Seed(EMPTY, heads), tail)) == HeadsIn(ApplyAll(EMPTY, ws))
  {
    SeedSane(truth, heads);
    ArrivalOrder(EMPTY, truth, map[], ws);
    ArrivalOrder(Seed(EMPTY, heads), truth, BasesOf(heads), tail);
    var a, b := ApplyAll(EMPTY, ws), ApplyAll(Seed(EMPTY, heads), tail);
    forall wr | wr in truth
      ensures exists n :: HeldUpTo(a, truth, wr, n) && HeldUpTo(b, truth, wr, n)
    {
      SameAboveHeads(truth, heads, ws, tail, wr);
      SeedTip(a, b, truth, wr, BaseOf(BasesOf(heads), wr), Elements(ws), Elements(tail));
    }
    SameHeads(a, b, truth);
  }

  lemma SameAboveHeads(truth: Truth, heads: Heads, ws: seq<Write>, tail: seq<Write>, wr: string)
    requires Genuine(truth) && wr in truth
    requires forall w :: !Included(heads, w) ==> (w in ws <==> w in tail)
    ensures forall s :: BaseOf(BasesOf(heads), wr) <= s < |truth[wr]| ==>
              (truth[wr][s] in Elements(ws) <==> truth[wr][s] in Elements(tail))
    ensures wr !in heads ==> ((exists w :: w in ws && w.writer == wr) <==> (exists w :: w in tail && w.writer == wr))
  {
    forall s | BaseOf(BasesOf(heads), wr) <= s < |truth[wr]|
      ensures truth[wr][s] in Elements(ws) <==> truth[wr][s] in Elements(tail)
    {
      assert GenuineAt(truth[wr], wr, s);
      assert !Included(heads, truth[wr][s]);
    }
    if wr !in heads {
      forall w: Write | w.writer == wr ensures w in ws <==> w in tail { assert !Included(heads, w); }
    }
  }
}
