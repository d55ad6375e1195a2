/** One writer's sequence of writes (WriterChain in src/chain/writer.ts). */
module Writers {
  import opened Primitives
  import opened Ops

  /** What a writer's chain holds: everything from `baseSeq` up, linked onto `baseHead`. */
  datatype Link = Link(writer: string, plot: Option<string>, baseSeq: nat, baseHead: Option<Id>, writes: seq<Write>)

  function NextSeq(l: Link): nat {
    l.baseSeq + |l.writes|
  }

  function HeadId(l: Link): Option<Id> {
    if |l.writes| > 0 then Some(l.writes[|l.writes| - 1].id) else l.baseHead
  }

  function At(l: Link, s: nat): Option<Write> {
    if l.baseSeq <= s < NextSeq(l) then Some(l.writes[s - l.baseSeq]) else None
  }

  datatype Appended =
    | Linked | Known | WrongWriter | WrongPlot | Invalid | NonSequential | BadPrev
    | Forked(held: Write, other: Write)

  function AppendResult(l: Link, w: Write): Appended {
    if w.writer != l.writer then WrongWriter
    else if l.plot.Some? && w.plotRoot != l.plot.value then WrongPlot
    else if !VerifyWrite(w) then Invalid
    else if At(l, w.seqNo).Some? then
      (if At(l, w.seqNo).value.id == w.id then Known else Forked(At(l, w.seqNo).value, w))
    else if w.seqNo != NextSeq(l) then NonSequential
    else if w.prev != HeadId(l) then BadPrev
    else Linked
  }

  function Grow(l: Link, w: Write): Link {
    l.(plot := Some(w.plotRoot), writes := l.writes + [w])
  }

  function AfterAppend(l: Link, w: Write): Link {
    if AppendResult(l, w) == Linked then Grow(l, w) else l
  }

  /** The id the write at `s` must name as its predecessor. */
  function IdBefore(l: Link, s: nat): Option<Id>
    requires l.baseSeq <= s <= NextSeq(l)
  {
    if s == l.baseSeq then l.baseHead else Some(l.writes[s - 1 - l.baseSeq].id)
  }

  ghost predicate FitsAt(l: Link, i: nat)
    requires i < |l.writes|
  {
    && l.writes[i].writer == l.writer && l.writes[i].seqNo == l.baseSeq + i && VerifyWrite(l.writes[i])
    && l.plot == Some(l.writes[i].plotRoot)
    && l.writes[i].prev == IdBefore(l, l.baseSeq + i)
  }

  /** Every write held is verified, by this writer on this plot, and links onto the one before. */
  ghost predicate Linear(l: Link) {
    forall i {:trigger FitsAt(l, i)} :: 0 <= i < |l.writes| ==> FitsAt(l, i)
  }

  lemma AppendKeepsLinear(l: Link, w: Write)
    requires Linear(l)
    ensures Linear(AfterAppend(l, w))
  {
    if AppendResult(l, w) == Linked {
      var l' := Grow(l, w);
      forall i | 0 <= i < |l'.writes|
        ensures FitsAt(l', i)
      {
        if i < |l.writes| { GrowKeepsFit(l, w, i); }
      }
    }
  }

  lemma GrowKeepsFit(l: Link, w: Write, i: nat)
    requires i < |l.writes| && FitsAt(l, i) && AppendResult(l, w) == Linked
    ensures FitsAt(Grow(l, w), i)
  {
  }

  /** Every write contributes the same weight. */
  function WeightOf(n: nat, unit: nat): (w: nat) {
    if n == 0 then 0 else WeightOf(n - 1, unit) + unit
  }

  lemma {:induction false} WeightIsProduct(n: nat, unit: nat)
    ensures WeightOf(n, unit) == n * unit
  {
    if n > 0 {
      WeightIsProduct(n - 1, unit);
      assert n * unit == (n - 1) * unit + unit;
    }
  }

  /** The index and the weight match a linear chain. */
  ghost predicate WellKept(l: Link, bySeq: map<nat, Write>, weight: nat, unit: nat) {
    && (forall s :: s in bySeq <==> l.baseSeq <= s < NextSeq(l))
    && (forall s :: s in bySeq ==> bySeq[s] == l.writes[s - l.baseSeq])
    && weight == WeightOf(NextSeq(l), unit)
    && Linear(l)
  }

  class WriterChain {
    const writer: string
    const unit: nat
    const baseSeq: nat
    const baseHeadId: Option<Id>
    var plotRoot: Option<string>
    var writes: seq<Write>
    var bySeq: map<nat, Write>
    var weight: nat

    ghost predicate Valid()
      reads this
    {
      WellKept(Value(), bySeq, weight, unit)
    }

    function Value(): Link
      reads this
    {
      Link(writer, plotRoot, baseSeq, baseHeadId, writes)
    }

    constructor (writer: string, plot: Option<string>, unit: nat, baseSeq: nat, baseHeadId: Option<Id>)
      ensures Valid() && Value() == Link(writer, plot, baseSeq, baseHeadId, [])
      ensures this.unit == unit
    {
      this.writer, this.unit := writer, unit;
      this.baseSeq, this.baseHeadId, plotRoot := baseSeq, baseHeadId, plot;
      writes, bySeq := [], map[];
      WeightIsProduct(baseSeq, unit);
      weight := baseSeq * unit;
    }

    method Append(w: Write) returns (r: Appended)
      requires Valid()
      modifies this
      ensures Valid()
      ensures r == AppendResult(old(Value()), w)
      ensures Value() == AfterAppend(old(Value()), w)
    {
      if w.writer != writer { return WrongWriter; }
      if plotRoot.Some? && w.plotRoot != plotRoot.value { return WrongPlot; }
      if !VerifyWrite(w) { return Invalid; }
      if w.seqNo in bySeq {
        return if bySeq[w.seqNo].id == w.id then Known else Forked(bySeq[w.seqNo], w);
      }
      if w.seqNo != baseSeq + |writes| { return NonSequential; }
      if w.prev != HeadId(Value()) { return BadPrev; }
      AppendKeepsLinear(Value(), w);
      if plotRoot.None? { plotRoot := Some(w.plotRoot); }
      writes := writes + [w];
      bySeq := bySeq[w.seqNo := w];
      weight := weight + unit;
      r := Linked;
    }

    method AtSeq(s: nat) returns (w: Option<Write>)
      ensures w == At(Value(), s)
    {
      if s < baseSeq { return None; }
      w := if s - baseSeq < |writes| then Some(writes[s - baseSeq]) else None;
    }
  }
}
