/** A split as it is lived through: the two branches arrive anchor by anchor, in any order, at nodes that
    started on either side (add and resolveFork in src/consensus/chain.ts). */
module ForkOrder {
  import opened Primitives
  import opened Anchors
  import opened Store
  import opened ForkChoice
  import opened AnchorChains

  /** What a node decides on. */
  datatype Node = Node(s: Store, tip: Id, lock: Id, settled: Id)

  /** `x` extends an anchor held, and no anchor held is waiting for it. */
  ghost predicate Extending(s: Store, x: Anchor) {
    && WellFormed(s) && x.id !in s && x.prev.Some? && x.prev.value in s
    && x.height == s[x.prev.value].height + 1 && s[x.prev.value].weight < x.weight
    && forall id :: id in s ==> s[id].prev != Some(x.id)
  }

  ghost function After(n: Node, x: Anchor, lockDepth: nat, settleDepth: nat): Node
    requires Extending(n.s, x) && n.tip in n.s
  {
    GrowWellFormed(n.s, x);
    var s := n.s[x.id := x];
    var d := Decide(s, x.id, Some(n.tip), Some(n.lock), Some(n.settled));
    var was := Standing(Some(n.tip), map[], Some(n.lock), Some(n.settled), None);
    var to := StandsAfter(s, x, d, was, lockDepth, settleDepth);
    Node(s, to.tip.value, to.lock.value, to.settled.value)
  }

  /** Two branches above `f`, each up to its top; a branch nothing of which has come yet ends at `f`. */
  datatype Split = Split(f: Id, a: Id, b: Id)

  function Grows(w: Split, x: Anchor): Split {
    if x.prev == Some(w.a) then w.(a := x.id) else w.(b := x.id)
  }

  /** The node stands on the branch fork choice picks among what it has seen. */
  ghost predicate OnWinner(n: Node, w: Split) {
    && WellFormed(n.s) && w.f in n.s && w.a in n.s && w.b in n.s && n.tip in n.s && w.a != w.f
    && IsAncestor(n.s, w.f, w.a) && IsAncestor(n.s, w.f, w.b) && IsAncestor(n.s, n.lock, n.tip)
    && if w.b == w.f then n.tip == w.a else ForkPoint(n.s, w.a, w.b) == Some(w.f) && n.tip == Winner(n.s, w.a, w.b)
  }

  /** An anchor of one branch. When it is not on the tip, the node is locked above the fork and settled no
      higher than it. */
  ghost predicate Arrives(n: Node, w: Split, x: Anchor) {
    && Extending(n.s, x) && (x.prev == Some(w.a) || x.prev == Some(w.b))
    && (x.prev != Some(n.tip) ==>
          && n.lock in n.s && w.f in n.s && n.s[w.f].height < n.s[n.lock].height && IsAncestor(n.s, n.settled, w.f))
  }

  // ---------- what storing one more anchor leaves alone ----------

  lemma {:induction false} GrownAncestry(s: Store, x: Anchor, z: Id, y: Id)
    requires Extending(s, x) && WellFormed(s[x.id := x]) && y in s
    ensures IsAncestor(s[x.id := x], z, y) <==> IsAncestor(s, z, y)
    decreases s[y].height
  {
    if HasParent(s, s[y]) { GrownAncestry(s, x, z, s[y].prev.value); }
  }

  lemma {:induction false} GrownFork(s: Store, x: Anchor, y: Id, t: Id)
    requires Extending(s, x) && WellFormed(s[x.id := x]) && y in s && t in s
    ensures ForkPoint(s[x.id := x], y, t) == ForkPoint(s, y, t)
    decreases s[y].height
  {
    GrownAncestry(s, x, y, t);
    if HasParent(s, s[y]) { GrownFork(s, x, s[y].prev.value, t); }
  }

  lemma {:induction false} GrownProducers(s: Store, x: Anchor, y: Id, f: Id)
    requires Extending(s, x) && WellFormed(s[x.id := x]) && y in s
    ensures Producers(s[x.id := x], y, f) == Producers(s, y, f)
    decreases s[y].height
  {
    if HasParent(s, s[y]) { GrownProducers(s, x, s[y].prev.value, f); }
  }

  lemma {:induction false} GrownWindow(s: Store, x: Anchor, f: Id, n: nat)
    requires Extending(s, x) && WellFormed(s[x.id := x]) && f in s
    ensures Window(s[x.id := x], f, n) == Window(s, f, n)
    decreases n
  {
    if n > 0 && HasParent(s, s[f]) { GrownWindow(s, x, s[f].prev.value, n - 1); }
  }

  lemma {:induction false} WonMore(win: seq<Anchor>, a: set<string>, b: set<string>)
    requires a <= b
    ensures Won(win, a) <= Won(win, b)
    decreases |win|
  {
    if |win| > 0 { WonMore(win[1..], a, b); }
  }

  /** One more producer on a branch takes nothing from that branch and gives nothing to the other. */
  lemma MajorityMoves(win: seq<Anchor>, mine: set<string>, other: set<string>, p: string)
    ensures Majority(win, mine, other) ==> Majority(win, mine + {p}, other)
    ensures Majority(win, other, mine + {p}) ==> Majority(win, other, mine)
  {
    WonMore(win, mine - other, mine + {p} - other);
    WonMore(win, other - (mine + {p}), other - mine);
  }

  // ---------- one anchor ----------

  /** What is known of the two branches once `x` is on one of them. */
  lemma GrownSplit(s: Store, w: Split, x: Anchor)
    requires Extending(s, x) && w.f in s && w.a in s && w.b in s && (x.prev == Some(w.a) || x.prev == Some(w.b))
    requires IsAncestor(s, w.f, w.a) && IsAncestor(s, w.f, w.b)
    ensures var s', w' := s[x.id := x], Grows(w, x);
            && WellFormed(s') && IsAncestor(s', w.f, w'.a) && IsAncestor(s', w.f, w'.b)
            && !IsAncestor(s', x.id, w.a) && !IsAncestor(s', x.id, w.b)
  {
    GrowWellFormed(s, x);
    var s' := s[x.id := x];
    GrownAncestry(s, x, w.f, w.a);
    GrownAncestry(s, x, w.f, w.b);
    GrownAncestry(s, x, x.id, w.a);
    GrownAncestry(s, x, x.id, w.b);
    if IsAncestor(s, x.id, w.a) { AncestorHeight(s, x.id, w.a); }
    if IsAncestor(s, x.id, w.b) { AncestorHeight(s, x.id, w.b); }
  }

  /** The fork point of a grown branch and the other is where it was. */
  lemma GrownForkPoint(s: Store, x: Anchor, t: Id)
    requires Extending(s, x) && t in s && WellFormed(s[x.id := x])
    ensures ForkPoint(s[x.id := x], x.id, t) == ForkPoint(s, x.prev.value, t)
  {
    GrownFork(s, x, x.prev.value, t);
    GrownAncestry(s, x, x.id, t);
    if IsAncestor(s, x.id, t) { AncestorHeight(s, x.id, t); }
  }

  /** The branch fork choice picked keeps its place as it grows. */
  lemma WinnerGrows(s: Store, x: Anchor, t: Id)
    requires Extending(s, x) && t in s && WellFormed(s[x.id := x]) && ForkPoint(s, x.prev.value, t).Some?
    requires x.prev.value != t && Winner(s, x.prev.value, t) == x.prev.value
    ensures Winner(s[x.id := x], x.id, t) == x.id
  {
    var s', p := s[x.id := x], x.prev.value;
    var f := ForkPoint(s, p, t).value;
    ForkPointIsLast(s, p, t);
    ForkPointSymmetric(s, p, t);
    GrownForkPoint(s, x, t);
    ForkPointSymmetric(s', x.id, t);
    GrownProducers(s, x, p, f);
    GrownProducers(s, x, t, f);
    GrownWindow(s, x, f, FORK_WINDOW);
    assert Producers(s', x.id, f) == Producers(s, p, f) + {x.producer};
    MajorityMoves(Window(s, f, FORK_WINDOW), Producers(s, p, f), Producers(s, t, f), x.producer);
  }

  lemma OwnBranch(n: Node, x: Anchor, lockDepth: nat, settleDepth: nat)
    requires Extending(n.s, x) && n.tip in n.s && x.prev == Some(n.tip) && IsAncestor(n.s, n.lock, n.tip)
    ensures var to := After(n, x, lockDepth, settleDepth);
            WellFormed(to.s) && to.s == n.s[x.id := x] && to.tip == x.id && IsAncestor(to.s, to.lock, to.tip)
  {
    GrowWellFormed(n.s, x);
    var s := n.s[x.id := x];
    GrownAncestry(n.s, x, n.lock, n.tip);
    RaisedOnLine(s, n.lock, x.id, lockDepth);
  }

  lemma OtherBranch(n: Node, x: Anchor, lockDepth: nat, settleDepth: nat)
    requires Extending(n.s, x) && n.tip in n.s && IsAncestor(n.s, n.lock, n.tip)
    requires var s := n.s[x.id := x]; WellFormed(s) && !IsAncestor(s, n.lock, x.id) && IsAncestor(s, n.settled, x.id)
    ensures var to := After(n, x, lockDepth, settleDepth);
            && WellFormed(to.s) && to.s == n.s[x.id := x] && to.tip in to.s
            && to.tip == Winner(to.s, n.tip, x.id) && IsAncestor(to.s, to.lock, to.tip)
  {
    var s := n.s[x.id := x];
    FollowsWinner(s, x.id, n.tip, n.lock, n.settled);
    GrownAncestry(n.s, x, n.lock, n.tip);
    SwitchLock(s, x.id, n.tip);
    var d := Decide(s, x.id, Some(n.tip), Some(n.lock), Some(n.settled));
    if d.Switch? { RaisedOnLine(s, d.lock, x.id, lockDepth); }
  }

  lemma RaisedOnLine(s: Store, cur: Id, tip: Id, depth: nat)
    requires WellFormed(s) && tip in s && IsAncestor(s, cur, tip)
    ensures Raise(s, Some(cur), tip, depth).Some? && IsAncestor(s, Raise(s, Some(cur), tip, depth).value, tip)
  {
    UpIsAncestor(s, tip, depth);
  }

  /** One more anchor of either branch, and the node is again on the branch fork choice picks. */
  lemma StepKeeps(n: Node, w: Split, x: Anchor, lockDepth: nat, settleDepth: nat)
    requires OnWinner(n, w) && Arrives(n, w, x)
    ensures OnWinner(After(n, x, lockDepth, settleDepth), Grows(w, x))
  {
    GrownSplit(n.s, w, x);
    if x.prev == Some(n.tip) {
      OwnBranch(n, x, lockDepth, settleDepth);
      OwnGrows(n, w, x);
    } else {
      MarksApart(n, w, x);
      OtherBranch(n, x, lockDepth, settleDepth);
      OtherGrows(n, w, x);
    }
  }

  /** A lock above the fork is on no other branch, and what is settled below it is on both. */
  lemma MarksApart(n: Node, w: Split, x: Anchor)
    requires OnWinner(n, w) && Arrives(n, w, x) && x.prev != Some(n.tip) && WellFormed(n.s[x.id := x])
    ensures var s := n.s[x.id := x]; !IsAncestor(s, n.lock, x.id) && IsAncestor(s, n.settled, x.id)
  {
    var y := x.prev.value;
    GrownAncestry(n.s, x, n.lock, y);
    GrownAncestry(n.s, x, n.settled, y);
    AncestorTransitive(n.s, n.settled, w.f, y);
    if IsAncestor(n.s, n.lock, y) {
      if w.b == w.f {
        AncestorHeight(n.s, n.lock, y);
      } else {
        Unlike(n.s, w);
        ForkPointIsLast(n.s, w.a, w.b);
        AncestorHeight(n.s, n.lock, w.f);
      }
    }
  }

  lemma OwnGrows(n: Node, w: Split, x: Anchor)
    requires OnWinner(n, w) && Extending(n.s, x) && x.prev == Some(n.tip) && WellFormed(n.s[x.id := x])
    ensures var s, v := n.s[x.id := x], Grows(w, x);
            v.a in s && v.b in s && v.a != w.f &&
            if v.b == w.f then x.id == v.a else ForkPoint(s, v.a, v.b) == Some(w.f) && x.id == Winner(s, v.a, v.b)
  {
    if w.b != w.f {
      var s, other := n.s[x.id := x], if n.tip == w.a then w.b else w.a;
      ForkPointSymmetric(n.s, w.a, w.b);
      Unlike(n.s, w);
      SidesAgree(n.s, w.a, w.b);
      WinnerGrows(n.s, x, other);
      GrownForkPoint(n.s, x, other);
      ForkPointSymmetric(s, x.id, other);
      SidesAgree(s, x.id, other);
    }
  }

  lemma OtherGrows(n: Node, w: Split, x: Anchor)
    requires OnWinner(n, w) && Arrives(n, w, x) && x.prev != Some(n.tip) && WellFormed(n.s[x.id := x])
    ensures var s, v := n.s[x.id := x], Grows(w, x);
            && v.a in s && v.b in s && v.a != w.f && v.b != w.f
            && ForkPoint(s, v.a, v.b) == Some(w.f) && Winner(s, n.tip, x.id) == Winner(s, v.a, v.b)
  {
    var s := n.s[x.id := x];
    GrownForkPoint(n.s, x, n.tip);
    ForkPointSymmetric(s, x.id, n.tip);
    if w.b != w.f {
      ForkPointSymmetric(n.s, w.a, w.b);
      Unlike(n.s, w);
    }
    SidesAgree(s, x.id, n.tip);
  }

  /** Two branches that part do not end on one anchor. */
  lemma Unlike(s: Store, w: Split)
    requires WellFormed(s) && w.a in s && w.b in s && w.a != w.f && w.b != w.f && ForkPoint(s, w.a, w.b) == Some(w.f)
    ensures w.a != w.b
  {
  }

  // ---------- any order ----------

  /** The anchors of `xs` arrive one after the other. */
  ghost predicate Heard(n: Node, w: Split, xs: seq<Anchor>, lockDepth: nat, settleDepth: nat)
    decreases |xs|
  {
    |xs| == 0 || (Arrives(n, w, xs[0]) && n.tip in n.s
                  && Heard(After(n, xs[0], lockDepth, settleDepth), Grows(w, xs[0]), xs[1..], lockDepth, settleDepth))
  }

  ghost function Hear(n: Node, w: Split, xs: seq<Anchor>, lockDepth: nat, settleDepth: nat): (Node, Split)
    requires Heard(n, w, xs, lockDepth, settleDepth)
    decreases |xs|
  {
    if |xs| == 0 then (n, w)
    else Hear(After(n, xs[0], lockDepth, settleDepth), Grows(w, xs[0]), xs[1..], lockDepth, settleDepth)
  }

  lemma {:induction false} HearKeeps(n: Node, w: Split, xs: seq<Anchor>, lockDepth: nat, settleDepth: nat)
    requires OnWinner(n, w) && Heard(n, w, xs, lockDepth, settleDepth)
    ensures var (m, v) := Hear(n, w, xs, lockDepth, settleDepth); OnWinner(m, v) && v.f == w.f
    decreases |xs|
  {
    if |xs| > 0 {
      StepKeeps(n, w, xs[0], lockDepth, settleDepth);
      HearKeeps(After(n, xs[0], lockDepth, settleDepth), Grows(w, xs[0]), xs[1..], lockDepth, settleDepth);
    }
  }

  ghost predicate SameTops(v: Split, u: Split) {
    (v.a == u.a && v.b == u.b) || (v.a == u.b && v.b == u.a)
  }

  /** A split heals however it is heard: whichever branch each node started on, and in whatever order the
      anchors of both reached it, two nodes that end up with both branches are on one tip. The nodes may
      have pruned differently, down to the reference window. */
  lemma AnyOrderHeals(n: Node, w: Split, xs: seq<Anchor>, m: Node, u: Split, ys: seq<Anchor>,
                      lockDepth: nat, settleDepth: nat, h: History, fn: nat, fm: nat)
    requires OnWinner(n, w) && Heard(n, w, xs, lockDepth, settleDepth)
    requires OnWinner(m, u) && Heard(m, u, ys, lockDepth, settleDepth) && u.f == w.f
    requires var (n', w') := Hear(n, w, xs, lockDepth, settleDepth);
             var (m', u') := Hear(m, u, ys, lockDepth, settleDepth);
             && w'.b != w'.f && u'.b != u'.f && SameTops(w', u') && KeepsFrom(n'.s, h, fn) && KeepsFrom(m'.s, h, fm)
             && w'.a in h.all && w'.b in h.all && !IsAncestor(h.all, w'.a, w'.b) && !IsAncestor(h.all, w'.b, w'.a)
             && ForkPoint(h.all, w'.a, w'.b).Some?
             && HasWindow(fn, h.all[ForkPoint(h.all, w'.a, w'.b).value].height)
             && HasWindow(fm, h.all[ForkPoint(h.all, w'.a, w'.b).value].height)
    ensures Hear(n, w, xs, lockDepth, settleDepth).0.tip == Hear(m, u, ys, lockDepth, settleDepth).0.tip
  {
    HearKeeps(n, w, xs, lockDepth, settleDepth);
    HearKeeps(m, u, ys, lockDepth, settleDepth);
    var (n', w') := Hear(n, w, xs, lockDepth, settleDepth);
    var (m', u') := Hear(m, u, ys, lockDepth, settleDepth);
    ForkAgreement(n'.s, m'.s, h, fn, fm, w'.a, w'.b);
    Unlike(m'.s, u');
    SidesAgree(m'.s, u'.a, u'.b);
  }

  // ---------- where the lock lies ----------

  function Lighter(s: Store, a: Id, b: Id): Id
    requires a in s && b in s
  {
    if Heavier(s[a], s[b]) then b else a
  }

  /** The lighter of two branches above `f` is final. */
  ghost predicate LighterIsFinal(s: Store, a: Id, b: Id, f: Id)
    requires WellFormed(s) && a in s && b in s && f in s
  {
    var low := Lighter(s, a, b);
    var high := if low == a then b else a;
    Majority(Window(s, f, FORK_WINDOW), Producers(s, low, f), Producers(s, high, f))
  }

  /** On tip `t`, locked above the fork, or on what both branches share; settled on what both share. */
  ghost predicate At(s: Store, t: Id, x: Id, f: Id, lock: Id, settled: Id, above: bool)
    requires WellFormed(s) && t in s && x in s
  {
    && IsAncestor(s, lock, t) && IsAncestor(s, settled, x)
    && if above then !IsAncestor(s, lock, x) else f in s && IsAncestor(s, lock, f) && IsAncestor(s, f, x)
  }

  /** A lock that both branches share lets weight alone decide. */
  lemma WeightDecides(s: Store, t: Id, x: Id, f: Id, lock: Id, settled: Id)
    requires WellFormed(s) && t in s && x in s && t != x && At(s, t, x, f, lock, settled, false)
    ensures TipAfter(s, x, t, lock, settled) == if Heavier(s[x], s[t]) then x else t
  {
    AncestorTransitive(s, lock, f, x);
  }

  /** Of two nodes on the two branches, with the same history: when both are locked above the fork, or neither is,
      they end on one tip. When one is and the other is not, they do if and only if the lighter branch is not final:
      the one goes by majority and the other by weight. */
  lemma LocksDecide(s: Store, a: Id, b: Id, f: Id, lockA: Id, settledA: Id, lockB: Id, settledB: Id, aboveA: bool,
                    aboveB: bool)
    requires WellFormed(s) && a in s && b in s && !IsAncestor(s, a, b) && !IsAncestor(s, b, a)
    requires ForkPoint(s, a, b) == Some(f)
    requires At(s, a, b, f, lockA, settledA, aboveA) && At(s, b, a, f, lockB, settledB, aboveB)
    ensures f in s
    ensures TipAfter(s, b, a, lockA, settledA) == TipAfter(s, a, b, lockB, settledB) <==>
              aboveA == aboveB || !LighterIsFinal(s, a, b, f)
  {
    ForkPointIsLast(s, a, b);
    ForkPointSymmetric(s, a, b);
    SidesAgree(s, a, b);
    HeavierTotal(s[a], s[b], s[b]);
    OneMajority(Window(s, f, FORK_WINDOW), Producers(s, a, f), Producers(s, b, f));
    if aboveA { FollowsWinner(s, b, a, lockA, settledA); } else { WeightDecides(s, a, b, f, lockA, settledA); }
    if aboveB { FollowsWinner(s, a, b, lockB, settledB); } else { WeightDecides(s, b, a, f, lockB, settledB); }
  }
}
