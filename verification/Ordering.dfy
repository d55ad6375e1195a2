/** When the chain certifies each write, and the order the fold takes them in
    (src/consensus/order.ts, computeView and viewAtAnchor in src/market/fold.ts). */
module Ordering {
  import opened Primitives
  import opened Ops
  import opened Board
  import opened BoardLaws
  import opened Anchors

  const MAX_SAFE: nat := 9007199254740991

  // ---------- certifying heights ----------

  predicate Reaches(a: Anchor, w: Write) {
    w.writer in a.headsDelta && w.seqNo <= a.headsDelta[w.writer].seqNo
  }

  /** Height of the first anchor whose delta reaches the write. */
  function CertifiedAt(chain: seq<Anchor>, w: Write): Option<nat>
    decreases |chain|
  {
    if |chain| == 0 then None
    else if Reaches(chain[0], w) then Some(chain[0].height)
    else CertifiedAt(chain[1..], w)
  }

  /** A write is certified by the first anchor whose delta names a head of its writer at or past it. */
  lemma {:induction false} CertifiedFirst(chain: seq<Anchor>, w: Write, i: nat)
    requires i < |chain| && w.writer in chain[i].headsDelta && w.seqNo <= chain[i].headsDelta[w.writer].seqNo
    requires forall j :: 0 <= j < i && w.writer in chain[j].headsDelta ==>
               chain[j].headsDelta[w.writer].seqNo < w.seqNo
    ensures CertifiedAt(chain, w) == Some(chain[i].height)
    decreases i
  {
    if i > 0 { CertifiedFirst(chain[1..], w, i - 1); }
  }

  lemma {:induction false} CertifiedNever(chain: seq<Anchor>, w: Write)
    requires forall j :: 0 <= j < |chain| && w.writer in chain[j].headsDelta ==>
               chain[j].headsDelta[w.writer].seqNo < w.seqNo
    ensures CertifiedAt(chain, w).None?
    decreases |chain|
  {
    if |chain| > 0 { CertifiedNever(chain[1..], w); }
  }

  lemma {:induction false} CertifiedConcat(a: seq<Anchor>, b: seq<Anchor>, w: Write)
    ensures CertifiedAt(a + b, w) == if CertifiedAt(a, w).Some? then CertifiedAt(a, w) else CertifiedAt(b, w)
    decreases |a|
  {
    if |a| == 0 {
      assert a + b == b;
    } else {
      assert (a + b)[1..] == a[1..] + b;
      CertifiedConcat(a[1..], b, w);
    }
  }

  lemma {:induction false} CertifiedWithin(chain: seq<Anchor>, w: Write)
    ensures CertifiedAt(chain, w).Some? <==> exists i :: 0 <= i < |chain| && Reaches(chain[i], w)
    ensures CertifiedAt(chain, w).Some? ==>
              exists i :: 0 <= i < |chain| && Reaches(chain[i], w) && chain[i].height == CertifiedAt(chain, w).value
    decreases |chain|
  {
    if |chain| > 0 {
      CertifiedWithin(chain[1..], w);
      if Reaches(chain[0], w) {
        assert Reaches(chain[0], w) && chain[0].height == CertifiedAt(chain, w).value;
      } else {
        if i :| 0 <= i < |chain| && Reaches(chain[i], w) { assert Reaches(chain[1..][i - 1], w); }
        if CertifiedAt(chain, w).Some? {
          var i :| 0 <= i < |chain[1..]| && Reaches(chain[1..][i], w)
              && chain[1..][i].height == CertifiedAt(chain[1..], w).value;
          assert chain[i + 1] == chain[1..][i];
        }
      }
    }
  }

  ghost predicate IdsDistinct(ws: seq<Write>) {
    forall i, j :: 0 <= i < |ws| && 0 <= j < |ws| && ws[i].id == ws[j].id ==> ws[i] == ws[j]
  }

  /** `epoch` holds exactly the certifying height of every write the chain certifies. */
  ghost predicate EpochsFor(epoch: map<Id, nat>, chain: seq<Anchor>, ws: seq<Write>) {
    forall i :: 0 <= i < |ws| ==>
      CertifiedAt(chain, ws[i]) == if ws[i].id in epoch then Some(epoch[ws[i].id]) else None
  }

  /** Highest seq already given an epoch, per writer. */
  ghost predicate CoveredBy(covered: map<string, nat>, chain: seq<Anchor>) {
    forall w: Write :: CertifiedAt(chain, w).Some? <==> w.writer in covered && w.seqNo <= covered[w.writer]
  }

  method GroupByWriter(ws: seq<Write>) returns (byWriter: map<string, seq<Write>>)
    ensures Grouped(ws, byWriter)
  {
    byWriter := map[];
    for n := 0 to |ws|
      invariant forall wr :: wr in byWriter ==> forall w :: w in byWriter[wr] ==> w in ws && w.writer == wr
      invariant forall i :: 0 <= i < n ==> ws[i].writer in byWriter && ws[i] in byWriter[ws[i].writer]
    {
      var w := ws[n];
      var arr := if w.writer in byWriter then byWriter[w.writer] else [];
      byWriter := byWriter[w.writer := arr + [w]];
    }
  }

  /** Stamp every write of one writer with a seq in (from, to] that has no epoch yet. */
  method StampRange(arr: seq<Write>, from: int, to: nat, height: nat, epoch0: map<Id, nat>)
      returns (epoch: map<Id, nat>)
    ensures forall id :: id in epoch <==>
              id in epoch0 || exists i :: 0 <= i < |arr| && arr[i].id == id && from < arr[i].seqNo <= to
    ensures forall id :: id in epoch ==> epoch[id] == if id in epoch0 then epoch0[id] else height
  {
    epoch := epoch0;
    for n := 0 to |arr|
      invariant forall id :: id in epoch <==>
                  id in epoch0 || exists i :: 0 <= i < n && arr[i].id == id && from < arr[i].seqNo <= to
      invariant forall id :: id in epoch ==> epoch[id] == if id in epoch0 then epoch0[id] else height
    {
      var w := arr[n];
      if from < w.seqNo <= to && w.id !in epoch {
        epoch := epoch[w.id := height];
      }
    }
  }

  /** `covered` after all of the anchor's writers but `todo`. */
  ghost predicate CoveredBut(todo: set<string>, covered0: map<string, nat>, a: Anchor, covered: map<string, nat>) {
    && (forall wr :: wr in covered <==> wr in covered0 || (wr in a.headsDelta && wr !in todo))
    && (forall wr :: wr in covered ==>
          covered[wr] == if wr in todo || wr !in a.headsDelta then covered0[wr]
                         else if wr in covered0 then Max(covered0[wr], a.headsDelta[wr].seqNo)
                         else a.headsDelta[wr].seqNo)
  }

  /** `epoch` after all of the anchor's writers but `todo`. */
  ghost predicate StampedBut(todo: set<string>, chain: seq<Anchor>, a: Anchor, ws: seq<Write>, epoch: map<Id, nat>) {
    forall i :: 0 <= i < |ws| ==>
      var was := CertifiedAt(chain, ws[i]);
      (if ws[i].id in epoch then Some(epoch[ws[i].id]) else None) ==
      if was.None? && Reaches(a, ws[i]) && ws[i].writer !in todo then Some(a.height) else was
  }

  ghost predicate Grouped(ws: seq<Write>, byWriter: map<string, seq<Write>>) {
    && (forall wr :: wr in byWriter ==> forall w :: w in byWriter[wr] ==> w in ws && w.writer == wr)
    && (forall i :: 0 <= i < |ws| ==> ws[i].writer in byWriter && ws[i] in byWriter[ws[i].writer])
  }

  /** What one anchor certifies, its writers taken in any order. */
  method StampAnchor(ghost chain: seq<Anchor>, a: Anchor, ghost ws: seq<Write>, byWriter: map<string, seq<Write>>,
                     covered0: map<string, nat>, epoch0: map<Id, nat>)
    returns (covered: map<string, nat>, epoch: map<Id, nat>)
    requires IdsDistinct(ws) && EpochsFor(epoch0, chain, ws) && CoveredBy(covered0, chain) && Grouped(ws, byWriter)
    ensures EpochsFor(epoch, chain + [a], ws) && CoveredBy(covered, chain + [a])
  {
    covered, epoch := covered0, epoch0;
    var todo := a.headsDelta.Keys;
    while todo != {}
      invariant todo <= a.headsDelta.Keys && CoveredBut(todo, covered0, a, covered)
                  && StampedBut(todo, chain, a, ws, epoch)
      decreases todo
    {
      var wr :| wr in todo;
      covered, epoch := StampWriter(wr, todo, chain, a, ws, byWriter, covered0, covered, epoch);
      todo := todo - {wr};
    }
    AnchorCovers(chain, a, covered0, covered);
    AnchorStamps(chain, a, ws, epoch);
  }

  method StampWriter(wr: string, ghost todo: set<string>, ghost chain: seq<Anchor>, a: Anchor, ghost ws: seq<Write>,
                     byWriter: map<string, seq<Write>>, ghost covered0: map<string, nat>, was: map<string, nat>,
                     epoch0: map<Id, nat>)
    returns (covered: map<string, nat>, epoch: map<Id, nat>)
    requires IdsDistinct(ws) && CoveredBy(covered0, chain) && Grouped(ws, byWriter)
    requires wr in todo && todo <= a.headsDelta.Keys
    requires CoveredBut(todo, covered0, a, was) && StampedBut(todo, chain, a, ws, epoch0)
    ensures CoveredBut(todo - {wr}, covered0, a, covered) && StampedBut(todo - {wr}, chain, a, ws, epoch)
  {
    covered, epoch := was, epoch0;
    var from: int := if wr in covered then covered[wr] else -1;
    var to := a.headsDelta[wr].seqNo;
    if to > from {
      var arr := if wr in byWriter then byWriter[wr] else [];
      epoch := StampRange(arr, from, to, a.height, epoch);
      covered := covered[wr := to];
    }
  }

  lemma AnchorCovers(chain: seq<Anchor>, a: Anchor, covered0: map<string, nat>, covered: map<string, nat>)
    requires CoveredBy(covered0, chain) && CoveredBut({}, covered0, a, covered)
    ensures CoveredBy(covered, chain + [a])
  {
    forall w: Write
      ensures CertifiedAt(chain + [a], w).Some? <==> w.writer in covered && w.seqNo <= covered[w.writer]
    {
      CertifiedNext(chain, a, w);
    }
  }

  lemma AnchorStamps(chain: seq<Anchor>, a: Anchor, ws: seq<Write>, epoch: map<Id, nat>)
    requires StampedBut({}, chain, a, ws, epoch)
    ensures EpochsFor(epoch, chain + [a], ws)
  {
    forall i | 0 <= i < |ws|
      ensures CertifiedAt(chain + [a], ws[i]) == if ws[i].id in epoch then Some(epoch[ws[i].id]) else None
    {
      CertifiedNext(chain, a, ws[i]);
    }
  }

  lemma CertifiedNext(chain: seq<Anchor>, a: Anchor, w: Write)
    ensures CertifiedAt(chain + [a], w) ==
              if CertifiedAt(chain, w).None? && Reaches(a, w) then Some(a.height) else CertifiedAt(chain, w)
  {
    CertifiedConcat(chain, [a], w);
    assert CertifiedAt([a], w) == if Reaches(a, w) then Some(a.height) else None;
  }

  function Max(a: nat, b: nat): nat {
    if a < b then b else a
  }

  method EpochOf(chain: seq<Anchor>, ws: seq<Write>) returns (epoch: map<Id, nat>)
    requires IdsDistinct(ws)
    ensures EpochsFor(epoch, chain, ws)
  {
    var byWriter := GroupByWriter(ws);
    var covered: map<string, nat> := map[];
    epoch := map[];
    for n := 0 to |chain|
      invariant EpochsFor(epoch, chain[..n], ws) && CoveredBy(covered, chain[..n])
    {
      covered, epoch := StampAnchor(chain[..n], chain[n], ws, byWriter, covered, epoch);
      assert chain[..n] + [chain[n]] == chain[..n + 1];
    }
    assert chain[..|chain|] == chain;
  }

  // ---------- the fold order ----------

  /** A write with its certifying height, if the chain held gives it one. */
  datatype Stamped = Stamped(w: Write, epoch: Option<nat>)

  function HeightOf(s: Stamped, now: nat): nat {
    if s.epoch.Some? && s.epoch.value < now then s.epoch.value else now
  }

  function EpochRank(s: Stamped): nat {
    if s.epoch.Some? then s.epoch.value else MAX_SAFE
  }

  /** By height folded at, then epoch, then declared time, then writer, then seq. */
  predicate Before(now: nat, a: Stamped, b: Stamped) {
    var ha, hb := HeightOf(a, now), HeightOf(b, now);
    if ha != hb then ha < hb
    else if EpochRank(a) != EpochRank(b) then EpochRank(a) < EpochRank(b)
    else if a.w.ts != b.w.ts then a.w.ts < b.w.ts
    else if a.w.writer != b.w.writer then StrLess(a.w.writer, b.w.writer)
    else a.w.seqNo < b.w.seqNo
  }

  lemma BeforeTransitive(now: nat, a: Stamped, b: Stamped, c: Stamped)
    requires Before(now, a, b) && Before(now, b, c)
    ensures Before(now, a, c)
  {
    if a.w.writer != b.w.writer && b.w.writer != c.w.writer && StrLess(a.w.writer, b.w.writer)
        && StrLess(b.w.writer, c.w.writer) {
      StrTransitive(a.w.writer, b.w.writer, c.w.writer);
      StrTrichotomy(a.w.writer, c.w.writer);
    }
  }

  lemma BeforeTotal(now: nat, a: Stamped, b: Stamped)
    requires !SameSlot(a.w, b.w)
    ensures Before(now, a, b) <==> !Before(now, b, a)
  {
    StrTrichotomy(a.w.writer, b.w.writer);
  }

  /** No writer has two writes at one seq: what a ledger's writer chains guarantee. */
  ghost predicate OneSlotEach(ws: set<Write>) {
    forall x, y {:trigger SameSlot(x, y)} :: x in ws && y in ws && SameSlot(x, y) ==> x == y
  }

  predicate SameSlot(x: Write, y: Write) {
    x.writer == y.writer && x.seqNo == y.seqNo
  }

  ghost predicate Slots(s: set<Stamped>) {
    forall x, y {:trigger SameSlot(x.w, y.w)} :: x in s && y in s && SameSlot(x.w, y.w) ==> x == y
  }

  ghost predicate InOrder(now: nat, q: seq<Stamped>) {
    forall i, j :: 0 <= i < j < |q| ==> Before(now, q[i], q[j])
  }

  ghost predicate Orders(now: nat, s: set<Stamped>, q: seq<Stamped>) {
    InOrder(now, q) && Elements(q) == s
  }

  /** The order leaves no choice: only one sequence lists a set of writes in order. */
  lemma {:induction false} OrderUnique(now: nat, s: set<Stamped>, p: seq<Stamped>, q: seq<Stamped>)
    requires Orders(now, s, p) && Orders(now, s, q)
    ensures p == q
    decreases |p|
  {
    assert |p| > 0 ==> p[0] in Elements(q);
    assert |q| > 0 ==> q[0] in Elements(p);
    if |p| > 0 {
      if p[0] != q[0] {
        var i :| 0 <= i < |q| && q[i] == p[0];
        var j :| 0 <= j < |p| && p[j] == q[0];
        assert Before(now, q[0], p[0]) && Before(now, p[0], q[0]);
        BeforeTransitive(now, p[0], q[0], p[0]);
      }
      TailOrders(now, s, p);
      TailOrders(now, s, q);
      OrderUnique(now, s - {p[0]}, p[1..], q[1..]);
    }
  }

  lemma TailOrders(now: nat, s: set<Stamped>, q: seq<Stamped>)
    requires Orders(now, s, q) && |q| > 0
    ensures Orders(now, s - {q[0]}, q[1..])
  {
    forall x
      ensures x in Elements(q[1..]) <==> x in s - {q[0]}
    {
      if x in q[1..] {
        var i :| 0 <= i < |q[1..]| && q[1..][i] == x;
        assert Before(now, q[0], q[i + 1]);
        if x == q[0] { StrTrichotomy(x.w.writer, x.w.writer); }
      }
      if x in s && x != q[0] {
        assert x in Elements(q);
        var i :| 0 <= i < |q| && q[i] == x;
        assert q[1..][i - 1] == x;
      }
    }
  }

  function Insert(now: nat, x: Stamped, q: seq<Stamped>): seq<Stamped>
    decreases |q|
  {
    if |q| == 0 || Before(now, x, q[0]) then [x] + q else [q[0]] + Insert(now, x, q[1..])
  }

  lemma {:induction false} InsertOrders(now: nat, x: Stamped, q: seq<Stamped>)
    requires InOrder(now, q)
    requires forall y :: y in q ==> !SameSlot(x.w, y.w)
    ensures Orders(now, Elements(q) + {x}, Insert(now, x, q))
    decreases |q|
  {
    var r := Insert(now, x, q);
    if |q| == 0 {
    } else if Before(now, x, q[0]) {
      forall j | 0 < j < |r|
        ensures Before(now, r[0], r[j])
      {
        if j > 1 { BeforeTransitive(now, x, q[0], q[j - 1]); }
      }
    } else {
      InsertOrders(now, x, q[1..]);
      BeforeTotal(now, x, q[0]);
      assert q == [q[0]] + q[1..];
      assert Elements(r) == Elements(Insert(now, x, q[1..])) + {q[0]};
      forall j | 0 < j < |r|
        ensures Before(now, r[0], r[j])
      {
        assert r[j] == Insert(now, x, q[1..])[j - 1];
        assert r[j] in Elements(q[1..]) + {x};
        if r[j] != x {
          var i :| 0 <= i < |q[1..]| && q[1..][i] == r[j];
          assert Before(now, q[0], q[i + 1]);
        }
      }
      forall i, j | 0 <= i < j < |r|
        ensures Before(now, r[i], r[j])
      {
        if i > 0 { assert Before(now, Insert(now, x, q[1..])[i - 1], Insert(now, x, q[1..])[j - 1]); }
      }
    }
  }

  method Sort(now: nat, list: seq<Stamped>) returns (q: seq<Stamped>)
    requires Slots(Elements(list)) && (forall i, j :: 0 <= i < j < |list| ==> list[i] != list[j])
    ensures Orders(now, Elements(list), q)
  {
    q := [];
    for n := 0 to |list|
      invariant Orders(now, Elements(list[..n]), q)
    {
      forall y | y in q
        ensures !SameSlot(list[n].w, y.w)
      {
        assert y in Elements(list[..n]);
      }
      InsertOrders(now, list[n], q);
      q := Insert(now, list[n], q);
      assert list[..n + 1] == list[..n] + [list[n]];
      assert Elements(list[..n + 1]) == Elements(list[..n]) + {list[n]};
    }
    assert list[..|list|] == list;
  }

  lemma {:induction false} OrderExists(now: nat, s: set<Stamped>) returns (q: seq<Stamped>)
    requires Slots(s)
    ensures Orders(now, s, q)
    decreases s
  {
    if s == {} {
      q := [];
    } else {
      var x :| x in s;
      var p := OrderExists(now, s - {x});
      forall y | y in p
        ensures !SameSlot(x.w, y.w)
      {
        assert y in Elements(p);
      }
      InsertOrders(now, x, p);
      q := Insert(now, x, p);
      assert s - {x} + {x} == s;
    }
  }

  ghost function Ordered(now: nat, s: set<Stamped>): (q: seq<Stamped>)
    requires Slots(s)
    ensures Orders(now, s, q)
  {
    assert exists q :: Orders(now, s, q) by { var q := OrderExists(now, s); }
    var q :| Orders(now, s, q);
    q
  }

  function Certify(now: nat, q: seq<Stamped>): (cs: seq<Certified>)
    ensures |cs| == |q|
    ensures forall i :: 0 <= i < |q| ==> cs[i] == Certified(q[i].w, HeightOf(q[i], now))
  {
    seq(|q|, i requires 0 <= i < |q| => Certified(q[i].w, HeightOf(q[i], now)))
  }

  // ---------- the board an anchor commits to ----------

  predicate Included(heads: Heads, w: Write) {
    w.writer in heads && w.seqNo <= heads[w.writer].seqNo
  }

  ghost function StampedSet(ws: set<Write>, chain: seq<Anchor>, heads: Heads): set<Stamped> {
    set w | w in ws && Included(heads, w) :: Stamped(w, CertifiedAt(chain, w))
  }

  /** The board of the last anchor of `chain`, whose full heads are `heads`, folded onto `base`. */
  ghost function ViewAt(ws: set<Write>, chain: seq<Anchor>, heads: Heads, base: View): View
    requires |chain| > 0 && OneSlotEach(ws)
  {
    var now := chain[|chain| - 1].height;
    Advanced(Fold(base, Certify(now, Ordered(now, StampedSet(ws, chain, heads)))), now)
  }

  method ComputeView(list: seq<Stamped>, now: nat, base: View) returns (view: View)
    requires Slots(Elements(list)) && (forall i, j :: 0 <= i < j < |list| ==> list[i] != list[j])
    ensures view == Advanced(Fold(base, Certify(now, Ordered(now, Elements(list)))), now)
  {
    var board := new LiveBoard(base);
    var q := Sort(now, list);
    OrderUnique(now, Elements(list), q, Ordered(now, Elements(list)));
    ghost var cs := Certify(now, q);
    for n := 0 to |q|
      invariant board.Now() == Fold(base, cs[..n])
    {
      var w, h := q[n].w, HeightOf(q[n], now);
      ghost var before := board.Now();
      board.Advance(h);
      var op := ParseOp(w.payload);
      if op.Some? {
        var _ := board.ApplyOp(w, op.value, h);
      }
      assert board.Now() == FoldStep(before, cs[n]);
      FoldConcat(base, cs[..n], [cs[n]]);
      assert Fold(Fold(base, cs[..n]), [cs[n]]) == Fold(FoldStep(Fold(base, cs[..n]), cs[n]), []);
      assert cs[..n] + [cs[n]] == cs[..n + 1];
    }
    assert cs[..|q|] == cs;
    board.Advance(now);
    view := board.Now();
  }

  function Keep(ws: seq<Write>, heads: Heads): (kept: seq<Write>)
    ensures forall w :: w in kept <==> w in ws && Included(heads, w)
    decreases |ws|
  {
    if |ws| == 0 then []
    else (if Included(heads, ws[0]) then [ws[0]] else []) + Keep(ws[1..], heads)
  }

  lemma {:induction false} KeepDistinct(ws: seq<Write>, heads: Heads)
    requires forall i, j :: 0 <= i < j < |ws| ==> ws[i] != ws[j]
    ensures forall i, j :: 0 <= i < j < |Keep(ws, heads)| ==> Keep(ws, heads)[i] != Keep(ws, heads)[j]
    decreases |ws|
  {
    if |ws| > 0 {
      KeepDistinct(ws[1..], heads);
      var rest := Keep(ws[1..], heads);
      assert ws[0] !in ws[1..];
      forall j | 0 <= j < |rest| ensures rest[j] != ws[0] { assert rest[j] in rest; }
    }
  }

  /** viewAtAnchor: `chain` and `heads` are what the anchor chain answers for the anchor. */
  method ViewAtAnchor(ws: seq<Write>, chain: seq<Anchor>, heads: Heads, base: View) returns (view: View)
    requires IdsDistinct(ws) && OneSlotEach(Elements(ws)) && (forall i, j :: 0 <= i < j < |ws| ==> ws[i] != ws[j])
    ensures view == if |chain| == 0 then base else ViewAt(Elements(ws), chain, heads, base)
  {
    if |chain| == 0 { return base; }
    var included := Keep(ws, heads);
    KeepDistinct(ws, heads);
    forall i, j | 0 <= i < |included| && 0 <= j < |included| && included[i].id == included[j].id
      ensures included[i] == included[j]
    {
      assert included[i] in included && included[j] in included;
    }
    var epoch := EpochOf(chain, included);
    var list := seq(|included|, i requires 0 <= i < |included| =>
      Stamped(included[i], if included[i].id in epoch then Some(epoch[included[i].id]) else None));
    forall i | 0 <= i < |included|
      ensures list[i] == Stamped(included[i], CertifiedAt(chain, included[i]))
      ensures included[i] in ws && Included(heads, included[i])
    {
      assert included[i] in included;
    }
    ghost var target := StampedSet(Elements(ws), chain, heads);
    assert Elements(list) == target by {
      forall s
        ensures s in Elements(list) <==> s in target
      {
        if s in target {
          assert s.w in included;
          var i :| 0 <= i < |included| && included[i] == s.w;
          assert list[i] == s;
        }
      }
    }
    view := ComputeView(list, chain[|chain| - 1].height, base);
  }

  // ---------- what the order means ----------

  /** Where the fold puts a write: at the height that certifies it, if that is known and not past `now`. */
  function FoldedAt(s: Stamped, now: nat): nat {
    match s.epoch
    case None => now
    case Some(e) => if e <= now then e else now
  }

  /** `a` may be folded before `b`: never from a higher height; of one certifying height never the later declared;
      of one declared time by writer, and of one writer by seq. */
  ghost predicate MayPrecede(now: nat, a: Stamped, b: Stamped) {
    && FoldedAt(a, now) <= FoldedAt(b, now)
    && (a.epoch == b.epoch ==>
          && a.w.ts <= b.w.ts
          && (a.w.ts == b.w.ts ==> a.w.writer == b.w.writer || exists k: nat :: LessFrom(a.w.writer, b.w.writer, k))
          && (a.w.ts == b.w.ts && a.w.writer == b.w.writer ==> a.w.seqNo < b.w.seqNo))
  }

  /** Every stamped write is folded once, no later one before an earlier one. */
  lemma FoldedInTurn(now: nat, s: set<Stamped>)
    requires Slots(s)
    ensures var q := Ordered(now, s);
            && (forall x :: x in s <==> x in q) && (forall i, j :: 0 <= i < j < |q| ==> q[i] != q[j])
            && (forall i, j :: 0 <= i < j < |q| ==> MayPrecede(now, q[i], q[j]))
            && |Certify(now, q)| == |q|
            && (forall i :: 0 <= i < |q| ==> Certify(now, q)[i] == Certified(q[i].w, FoldedAt(q[i], now)))
  {
    var q := Ordered(now, s);
    forall x ensures x in s <==> x in q { assert x in Elements(q) <==> x in q; }
    forall i, j | 0 <= i < j < |q| ensures q[i] != q[j] && MayPrecede(now, q[i], q[j]) {
      assert Before(now, q[i], q[j]);
      StrTrichotomy(q[i].w.writer, q[i].w.writer);
      StrLessAt(q[i].w.writer, q[j].w.writer);
    }
  }

  lemma TwoInTurn(now: nat, h: nat, a: Stamped, b: Stamped)
    requires a.epoch == b.epoch == Some(h) && h <= now && a.w.ts < b.w.ts && Slots({a, b})
    ensures Certify(now, Ordered(now, {a, b})) == [Certified(a.w, h), Certified(b.w, h)]
  {
    assert Elements([a, b]) == {a, b};
    OrderUnique(now, {a, b}, [a, b], Ordered(now, {a, b}));
  }

  lemma FoldTwo(v: View, x: Certified, y: Certified)
    ensures Fold(v, [x, y]) == FoldStep(FoldStep(v, x), y)
  {
    assert [x, y][1..] == [y] && [y][1..] == [];
    assert Fold(FoldStep(v, x), [y]) == Fold(FoldStep(FoldStep(v, x), y), []);
  }

  /** A take within an offer's minimum and remaining capacity, under a hash no match has, is matched. */
  lemma TakeFits(v: View, w: Write, op: Op, h: nat)
    requires op.OfferTake? && op.offerId in v.offers && OfferSound(v.offers[op.offerId])
    requires v.offers[op.offerId].minFill <= op.fill <= v.offers[op.offerId].remaining
    requires v.offers[op.offerId].maker != w.writer && w.id !in v.matches
    requires forall id :: id in v.matches ==> v.matches[id].hash != op.hash
    ensures var o := v.offers[op.offerId];
            TakeOffer(v, w, op, h) ==
              Applied(View(v.offers[op.offerId := o.(remaining := o.remaining - op.fill)],
                           v.matches[w.id := NewMatch(o, w, op.fill, op.hash, op.takerKey, h)]))
  {
    TakeNeverDust(v, w, op, h);
  }

  /** A match made at a height is not due at it. */
  lemma NothingLapses(v: View, oid: Id, o: Offer, mid: Id, m: Match, h: nat)
    requires Advanced(v, h) == v && oid in v.offers && o == v.offers[oid].(remaining := o.remaining)
    requires mid !in v.matches && h <= m.proofDeadline && h < m.pruneAt
    ensures var w := View(v.offers[oid := o], v.matches[mid := m]); Advanced(w, h) == w
  {
    var w := View(v.offers[oid := o], v.matches[mid := m]);
    forall id | id in v.matches ensures !Lapses(v.matches[id], h) && h < v.matches[id].pruneAt {
      assert id in Advanced(v, h).matches;
    }
    forall k | k in v.offers ensures h < v.offers[k].expiresAt { assert k in Advanced(v, h).offers; }
    forall k | k in w.offers ensures GiveBack(w.offers[k], w.matches, w.matches.Keys, k, h) == w.offers[k] {
      assert LapsingFills(w.matches, w.matches.Keys, k, h) == map[];
    }
    assert Advanced(w, h).offers == w.offers;
    assert Advanced(w, h).matches == w.matches;
  }

  /** A take that the offer can hold and nothing forbids, on a board where nothing is due. */
  ghost predicate Takes(v: View, s: Stamped, op: Op, h: nat) {
    && s.epoch == Some(h) && op.OfferTake? && ParseOp(s.w.payload) == Some(op)
    && Advanced(v, h) == v && op.offerId in v.offers && OfferSound(v.offers[op.offerId])
    && v.offers[op.offerId].minFill <= op.fill <= v.offers[op.offerId].remaining
    && v.offers[op.offerId].maker != s.w.writer && s.w.id !in v.matches
    && forall id :: id in v.matches ==> v.matches[id].hash != op.hash
  }

  function Taken(v: View, w: Write, op: Op, h: nat): View
    requires op.OfferTake? && op.offerId in v.offers && op.fill <= v.offers[op.offerId].remaining
  {
    var o := v.offers[op.offerId];
    View(v.offers[op.offerId := o.(remaining := o.remaining - op.fill)],
         v.matches[w.id := NewMatch(o, w, op.fill, op.hash, op.takerKey, h)])
  }

  lemma TakeTakes(v: View, s: Stamped, op: Op, h: nat)
    requires Takes(v, s, op, h)
    ensures FoldStep(v, Certified(s.w, h)) == Taken(v, s.w, op, h)
    ensures Advanced(Taken(v, s.w, op, h), h) == Taken(v, s.w, op, h)
  {
    var o := v.offers[op.offerId];
    TakeFits(v, s.w, op, h);
    LifetimeOutlivesProofs(o.want.chain);
    NothingLapses(v, op.offerId, o.(remaining := o.remaining - op.fill), s.w.id,
                  NewMatch(o, s.w, op.fill, op.hash, op.takerKey, h), h);
  }

  lemma TooLate(v: View, w: Write, op: Op, h: nat)
    requires op.OfferTake? && ParseOp(w.payload) == Some(op) && op.offerId in v.offers && Advanced(v, h) == v
    requires v.offers[op.offerId].remaining < op.fill
    ensures FoldStep(v, Certified(w, h)) == v
  {
  }

  /** Of two takes that one anchor certifies and the offer cannot both hold, the one declared earlier is matched and
      the other is not. */
  lemma EarlierTakeWins(v: View, now: nat, h: nat, a: Stamped, b: Stamped, opA: Op, opB: Op)
    requires Takes(v, a, opA, h) && Takes(v, b, opB, h) && opA.offerId == opB.offerId && h <= now
    requires a.w.ts < b.w.ts && a.w.id != b.w.id && Slots({a, b})
    requires v.offers[opA.offerId].remaining < opA.fill + opB.fill
    ensures var end := Fold(v, Certify(now, Ordered(now, {a, b})));
            && a.w.id in end.matches && end.matches[a.w.id].makerAmount == opA.fill
            && end.matches[a.w.id].taker == a.w.writer && b.w.id !in end.matches
  {
    TwoInTurn(now, h, a, b);
    FoldTwo(v, Certified(a.w, h), Certified(b.w, h));
    TakeTakes(v, a, opA, h);
    TooLate(Taken(v, a.w, opA, h), b.w, opB, h);
  }
}
