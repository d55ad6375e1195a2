/** Deterministic retargeting (src/consensus/difficulty.ts) and why a bootstrapped or pruned node
    computes the full chain's difficulty (adopt and prune in src/consensus/chain.ts). */
module Difficulty {
  import opened Primitives
  import opened Anchors
  import opened Store
  import opened ForkChoice

  datatype Schedule = Schedule(base: nat, targetIters: nat, epoch: pos, window: nat, maxStep: pos)

  function ClampStep(current: nat, next: int, maxStep: pos): nat {
    var lo, hi := current / maxStep, current * maxStep;
    if next < lo then (if lo < 1 then 1 else lo)
    else if next > hi then hi
    else if next < 1 then 1 else next
  }

  function TotalIters(win: seq<Anchor>): nat
    decreases |win|
  {
    if |win| == 0 then 0 else win[0].seal.time.iters + TotalIters(win[1..])
  }

  function RetargetOf(current: nat, win: seq<Anchor>, sched: Schedule): nat {
    if |win| == 0 then current
    else
      var observed := TotalIters(win) / |win|;
      if observed == 0 then ClampStep(current, current * sched.maxStep, sched.maxStep)
      else ClampStep(current, current * sched.targetIters / observed, sched.maxStep)
  }

  lemma ClampBounded(current: nat, next: int, maxStep: pos)
    requires current >= 1
    ensures 1 <= ClampStep(current, next, maxStep)
    ensures current / maxStep <= ClampStep(current, next, maxStep) <= current * maxStep
  {
    var q := current / maxStep;
    assert current == maxStep * q + current % maxStep;
    ProductGrows(q, maxStep);
    ProductGrows(current, maxStep);
  }

  lemma ProductGrows(n: nat, d: pos)
    ensures n <= n * d && n * d == d * n
  {
    if d > 1 { assert n * d == n + n * (d - 1); }
  }

  /** One retarget moves difficulty by at most the factor maxStep, and never to zero. */
  lemma RetargetBounded(current: nat, win: seq<Anchor>, sched: Schedule)
    requires current >= 1
    ensures 1 <= RetargetOf(current, win, sched)
    ensures current / sched.maxStep <= RetargetOf(current, win, sched) <= current * sched.maxStep
  {
    if |win| == 0 {
      ClampBounded(current, current, sched.maxStep);
      ProductGrows(current, sched.maxStep);
      ProductGrows(current / sched.maxStep, sched.maxStep);
      assert current == sched.maxStep * (current / sched.maxStep) + current % sched.maxStep;
    } else {
      var observed := TotalIters(win) / |win|;
      ClampBounded(current,
                   if observed == 0 then current * sched.maxStep else current * sched.targetIters / observed,
                   sched.maxStep);
    }
  }

  // ---------- what one retarget answers ----------

  /** `q` is the quotient of `n` by `d`, rounded down. */
  predicate Floor(q: nat, n: nat, d: nat) {
    q * d <= n < (q + 1) * d
  }

  lemma FloorIs(n: nat, d: pos)
    ensures Floor(n / d, n, d)
  {
    assert n == d * (n / d) + n % d;
    ProductCommutes(n / d, d);
    Distribute(n / d, 1, d);
  }

  lemma FloorOrder(q: nat, n: nat, d: pos, q': nat, n': nat, d': pos)
    requires Floor(q, n, d) && Floor(q', n', d') && n <= n' && d' <= d
    ensures q <= q'
  {
    if q' + 1 <= q {
      ProductOrder(q' + 1, q, d');
      ProductOrder(d', d, q);
      ProductCommutes(q, d);
      ProductCommutes(q, d');
    }
  }

  /** The iterations served over a window, whatever the order it is read in. */
  lemma {:induction false} TotalItersAdds(a: seq<Anchor>, b: seq<Anchor>)
    ensures TotalIters(a + b) == TotalIters(a) + TotalIters(b)
    ensures forall x: Anchor :: TotalIters([x]) == x.seal.time.iters
    decreases |a|
  {
    if |a| == 0 {
      assert a + b == b;
    } else {
      assert (a + b)[1..] == a[1..] + b;
      TotalItersAdds(a[1..], b);
    }
    forall x: Anchor ensures TotalIters([x]) == x.seal.time.iters { assert [x][1..] == []; }
  }

  /** `next` held between the bounds of one step, and above zero. */
  predicate Stepped(d: nat, current: nat, next: nat, lo: nat, hi: nat) {
    && (lo <= next <= hi ==> d == if next == 0 then 1 else next)
    && (next < lo ==> d == if lo == 0 then 1 else lo)
    && (next > hi ==> d == hi)
  }

  lemma LowIs(lo: nat, current: nat, maxStep: pos)
    requires current >= 1 && Floor(lo, current, maxStep)
    ensures lo <= current <= current * maxStep
  {
    ProductGrows(lo, maxStep);
    ProductGrows(current, maxStep);
  }

  lemma ClampSteps(current: nat, next: nat, lo: nat, hi: nat, maxStep: pos)
    requires lo == current / maxStep && hi == current * maxStep && lo <= hi && 1 <= hi
    ensures Stepped(ClampStep(current, next, maxStep), current, next, lo, hi)
  {
  }

  /** Difficulty follows the observed pace. With a mean of `observed` iterations an anchor it becomes
      current * targetIters / observed as far as one step goes, and exactly the bound beyond that; a window with
      next to no iterations raises it by a whole step. */
  lemma RetargetMeans(current: nat, win: seq<Anchor>, sched: Schedule) returns (observed: nat, next: nat, lo: nat)
    requires current >= 1 && |win| > 0
    ensures Floor(observed, TotalIters(win), |win|) && Floor(lo, current, sched.maxStep)
    ensures observed == 0 ==> RetargetOf(current, win, sched) == current * sched.maxStep
    ensures observed > 0 ==>
              && Floor(next, current * sched.targetIters, observed)
              && Stepped(RetargetOf(current, win, sched), current, next, lo, current * sched.maxStep)
  {
    var step, hi;
    observed, next, step := Aim(current, win, sched);
    lo, hi := Bounds(current, next, step);
  }

  lemma Bounds(current: nat, next: nat, step: pos) returns (lo: nat, hi: nat)
    requires current >= 1
    ensures Floor(lo, current, step) && hi == current * step && lo <= hi && 1 <= hi
    ensures Stepped(ClampStep(current, next, step), current, next, lo, hi)
  {
    lo, hi := current / step, current * step;
    FloorIs(current, step);
    LowIs(lo, current, step);
    ClampSteps(current, next, lo, hi, step);
  }

  /** What is held between the bounds. */
  lemma Aim(current: nat, win: seq<Anchor>, sched: Schedule) returns (observed: nat, next: nat, step: pos)
    requires |win| > 0
    ensures step == sched.maxStep && RetargetOf(current, win, sched) == ClampStep(current, next, step)
    ensures Floor(observed, TotalIters(win), |win|)
    ensures if observed == 0 then next == current * step else Floor(next, current * sched.targetIters, observed)
  {
    observed, step := TotalIters(win) / |win|, sched.maxStep;
    FloorIs(TotalIters(win), |win|);
    if observed == 0 {
      next := current * step;
    } else {
      next := current * sched.targetIters / observed;
      FloorIs(current * sched.targetIters, observed);
    }
  }

  lemma StepOrder(d: nat, d': nat, current: nat, next: nat, next': nat, lo: nat, hi: nat)
    requires Stepped(d, current, next, lo, hi) && Stepped(d', current, next', lo, hi)
    requires next <= next' && lo <= hi && 1 <= hi
    ensures d <= d'
  {
  }

  lemma SlowerNeverHarder(d: nat, d': nat, current: nat, work: nat, lo: nat, hi: nat, o: nat, n: nat, o': nat, n': nat)
    requires o > 0 && o <= o' && lo <= hi && 1 <= hi
    requires Floor(n, work, o) && Stepped(d, current, n, lo, hi)
    requires Floor(n', work, o') && Stepped(d', current, n', lo, hi)
    ensures d' <= d
  {
    FloorOrder(n', work, o', n, work, o);
    StepOrder(d', d, current, n', n, lo, hi);
  }

  lemma FloorUnique(q: nat, q': nat, n: nat, d: pos)
    requires Floor(q, n, d) && Floor(q', n, d)
    ensures q == q'
  {
    FloorOrder(q, n, d, q', n, d);
    FloorOrder(q', n, d, q, n, d);
  }

  /** More iterations an anchor, never more difficulty. */
  lemma RetargetAntitone(current: nat, fast: seq<Anchor>, slow: seq<Anchor>, sched: Schedule)
    requires current >= 1 && 0 < |fast| == |slow| && TotalIters(fast) <= TotalIters(slow)
    ensures RetargetOf(current, slow, sched) <= RetargetOf(current, fast, sched)
  {
    var hi, work := current * sched.maxStep, current * sched.targetIters;
    var o, n, lo := RetargetMeans(current, fast, sched);
    var o', n', lo' := RetargetMeans(current, slow, sched);
    FloorOrder(o, TotalIters(fast), |fast|, o', TotalIters(slow), |slow|);
    FloorUnique(lo, lo', current, sched.maxStep);
    LowIs(lo, current, sched.maxStep);
    RetargetBounded(current, slow, sched);
    if o > 0 {
      SlowerNeverHarder(RetargetOf(current, fast, sched), RetargetOf(current, slow, sched), current, work, lo, hi, o,
                        n, o', n');
    }
  }

  lemma OnPaceStays(d: nat, current: nat, o: pos, n: nat, lo: nat, hi: nat)
    requires Floor(n, current * o, o) && Stepped(d, current, n, lo, hi) && 1 <= current && lo <= current <= hi
    ensures d == current
  {
    Distribute(current, 1, o);
    FloorUnique(n, current, current * o, o);
  }

  /** On pace, it stays. */
  lemma RetargetOnPace(current: nat, win: seq<Anchor>, sched: Schedule)
    requires current >= 1 && |win| > 0 && sched.targetIters > 0 && Floor(sched.targetIters, TotalIters(win), |win|)
    ensures RetargetOf(current, win, sched) == current
  {
    var o, n, lo := RetargetMeans(current, win, sched);
    FloorUnique(o, sched.targetIters, TotalIters(win), |win|);
    LowIs(lo, current, sched.maxStep);
    OnPaceStays(RetargetOf(current, win, sched), current, o, n, lo, current * sched.maxStep);
  }

  method Retarget(current: nat, win: seq<Anchor>, sched: Schedule) returns (d: nat)
    ensures d == RetargetOf(current, win, sched)
  {
    if |win| == 0 { return current; }
    var totalIters := 0;
    for n := 0 to |win|
      invariant totalIters + TotalIters(win[n..]) == TotalIters(win)
    {
      totalIters := totalIters + win[n].seal.time.iters;
      assert win[n..][1..] == win[n + 1..];
    }
    var observed := totalIters / |win|;
    if observed == 0 { return ClampStep(current, current * sched.maxStep, sched.maxStep); }
    d := ClampStep(current, current * sched.targetIters / observed, sched.maxStep);
  }

  /** The difficulty an anchor extending `prev` must commit to. */
  ghost function DifficultyAfter(s: Store, prev: Option<Id>, sched: Schedule): nat
    requires WellFormed(s) && (prev.Some? ==> prev.value in s)
  {
    if prev.None? then sched.base
    else
      var p := s[prev.value];
      if (p.height + 1) % sched.epoch != 0 then p.difficulty
      else RetargetOf(p.difficulty, Window(s, p.id, sched.window), sched)
  }

  method NextDifficulty(s: Store, prev: Option<Anchor>, sched: Schedule) returns (d: nat)
    requires WellFormed(s) && (prev.Some? ==> prev.value.id in s && s[prev.value.id] == prev.value)
    ensures d == DifficultyAfter(s, if prev.Some? then Some(prev.value.id) else None, sched)
  {
    if prev.None? { return sched.base; }
    var p := prev.value;
    if (p.height + 1) % sched.epoch != 0 { return p.difficulty; }
    var win: seq<Anchor> := [];
    var cur := prev;
    var i := 0;
    while i < sched.window && cur.Some?
      invariant i <= sched.window
      invariant cur.Some? ==> cur.value.id in s && s[cur.value.id] == cur.value
      invariant Window(s, p.id, sched.window) ==
                  win + if cur.Some? then Window(s, cur.value.id, sched.window - i) else []
      decreases sched.window - i
    {
      win := win + [cur.value];
      cur := if HasParent(s, cur.value) then Some(s[cur.value.prev.value]) else None;
      i := i + 1;
    }
    assert win == Window(s, p.id, sched.window);
    d := Retarget(p.difficulty, win, sched);
  }

  /** Each anchor has the difficulty its parent calls for. */
  ghost predicate Paced(s: Store, sched: Schedule)
    requires WellFormed(s)
  {
    forall id {:trigger HasParent(s, s[id])} :: id in s && HasParent(s, s[id]) ==>
      s[id].difficulty == DifficultyAfter(s, s[id].prev, sched)
  }

  /** Difficulty changes at epoch boundaries only: within an epoch a line has one. */
  lemma {:induction false} EpochIsFlat(s: Store, x: Id, y: Id, sched: Schedule)
    requires WellFormed(s) && Paced(s, sched) && x in s && y in s && IsAncestor(s, x, y)
    requires s[x].height / sched.epoch == s[y].height / sched.epoch
    ensures s[x].difficulty == s[y].difficulty
    decreases s[y].height
  {
    if x != y {
      var p := s[y].prev.value;
      AncestorHeight(s, x, p);
      WithinEpoch(s[x].height, s[p].height, sched.epoch);
      EpochIsFlat(s, x, p, sched);
    }
  }

  lemma WithinEpoch(a: nat, b: nat, e: pos)
    requires a <= b && a / e == (b + 1) / e
    ensures a / e == b / e && (b + 1) % e != 0
  {
    var q := a / e;
    assert a == q * e + a % e && b + 1 == q * e + (b + 1) % e;
    DivIs(b, e, q);
  }

  // ---------- the same difficulty from less history ----------

  /** The last `n` anchors up to `id` are held. */
  ghost predicate RunHeld(s: Store, h: History, id: Id, n: nat)
    requires WellFormed(h.all) && id in h.all
    decreases n
  {
    n == 0 || (id in s && (HasParent(h.all, h.all[id]) ==> RunHeld(s, h, h.all[id].prev.value, n - 1)))
  }

  lemma {:induction false} RunGivesWindow(s: Store, h: History, id: Id, n: nat)
    requires Below(s, h) && id in s && RunHeld(s, h, id, n)
    ensures Window(s, id, n) == Window(h.all, id, n)
    decreases n
  {
    if n > 1 && HasParent(h.all, h.all[id]) {
      RunGivesWindow(s, h, h.all[id].prev.value, n - 1);
    }
  }

  /** The hash-linked run of `ancestry` directly below `floor`: adopt stops at the first gap. */
  function LinkedRun(floor: Anchor, ancestry: seq<Anchor>): seq<Anchor>
    decreases |ancestry|
  {
    if |ancestry| == 0 || floor.prev != Some(ancestry[0].id) || ancestry[0].height + 1 != floor.height then []
    else [ancestry[0]] + LinkedRun(ancestry[0], ancestry[1..])
  }

  /** The anchor given at `i` is the parent of the one before it, the first of them the floor's. */
  predicate LinkAt(floor: Anchor, ancestry: seq<Anchor>, i: nat)
    requires i < |ancestry|
  {
    var child := if i == 0 then floor else ancestry[i - 1];
    child.prev == Some(ancestry[i].id) && ancestry[i].height + 1 == child.height
  }

  predicate Linked(floor: Anchor, ancestry: seq<Anchor>, n: nat) {
    n <= |ancestry| && forall i :: 0 <= i < n ==> LinkAt(floor, ancestry, i)
  }

  /** The run is as long as the links hold, and no longer. */
  lemma {:induction false} LinkedRunIs(floor: Anchor, ancestry: seq<Anchor>)
    ensures LinkedRun(floor, ancestry) <= ancestry
    ensures forall k: nat :: Linked(floor, ancestry, k) <==> k <= |LinkedRun(floor, ancestry)|
    decreases |ancestry|
  {
    var n := |LinkedRun(floor, ancestry)|;
    if |ancestry| > 0 && LinkAt(floor, ancestry, 0) {
      var a, rest := ancestry[0], ancestry[1..];
      LinkedRunIs(a, rest);
      assert ancestry == [a] + rest && LinkedRun(floor, ancestry) == [a] + LinkedRun(a, rest);
      forall i | 0 <= i < |rest| ensures LinkAt(a, rest, i) <==> LinkAt(floor, ancestry, i + 1) {}
      assert Linked(a, rest, n - 1) && (n < |ancestry| ==> !LinkAt(floor, ancestry, n)) by {
        if n < |ancestry| { assert !Linked(a, rest, n); }
      }
      forall i | 0 <= i < n ensures LinkAt(floor, ancestry, i) {
        if i > 0 { assert LinkAt(a, rest, i - 1); }
      }
    }
  }

  /** adopt's condition: an epoch boundary, and as many linked ancestors as a window is longer than an epoch. */
  lemma AdoptMeans(floor: Anchor, ancestry: seq<Anchor>, sched: Schedule)
    ensures AdoptAllowed(floor, ancestry, sched) <==>
              && floor.height % sched.epoch == 0
              && (sched.window <= sched.epoch || Linked(floor, ancestry, sched.window - sched.epoch))
  {
    LinkedRunIs(floor, ancestry);
  }

  /** adopt's safety condition on the schedule. */
  predicate AdoptAllowed(floor: Anchor, ancestry: seq<Anchor>, sched: Schedule) {
    && floor.height % sched.epoch == 0
    && (sched.window > sched.epoch ==> |LinkedRun(floor, ancestry)| >= sched.window - sched.epoch)
  }

  lemma {:induction false} LinkedRunHeld(s: Store, h: History, floor: Anchor, ancestry: seq<Anchor>, n: nat)
    requires WellFormed(h.all) && floor.id in h.all && h.all[floor.id] == floor && floor.id in s
    requires forall i :: 0 <= i < |ancestry| ==> ancestry[i].id in h.all ==> h.all[ancestry[i].id] == ancestry[i]
    requires forall a :: a in LinkedRun(floor, ancestry) ==> a.id in s
    requires n <= |LinkedRun(floor, ancestry)| + 1
    ensures RunHeld(s, h, floor.id, n)
    decreases n
  {
    if n > 1 {
      var a := ancestry[0];
      assert a in LinkedRun(floor, ancestry);
      if HasParent(h.all, floor) {
        forall b | b in LinkedRun(a, ancestry[1..]) ensures b.id in s { assert b in LinkedRun(floor, ancestry); }
        LinkedRunHeld(s, h, a, ancestry[1..], n - 1);
      }
    }
  }

  lemma {:induction false} RunAcrossFloor(s: Store, h: History, floor: Id, id: Id, deep: nat, n: nat)
    requires WellFormed(h.all) && floor in h.all && id in h.all && IsAncestor(h.all, floor, id)
    requires RunHeld(s, h, floor, deep) && n <= (h.all[id].height - h.all[floor].height) + deep
    requires forall x | x in h.all && IsAncestor(h.all, floor, x) && h.all[x].height <= h.all[id].height ::
               IsAncestor(h.all, x, id) ==> x in s
    ensures RunHeld(s, h, id, n)
    decreases n
  {
    AncestorHeight(h.all, floor, id);
    if id == floor {
      RunShorter(s, h, floor, deep, n);
    } else if n > 0 {
      var p := h.all[id].prev.value;
      AncestorHeight(h.all, floor, p);
      RunAcrossFloor(s, h, floor, p, deep, n - 1);
    }
  }

  lemma {:induction false} RunShorter(s: Store, h: History, id: Id, n: nat, k: nat)
    requires WellFormed(h.all) && id in h.all && RunHeld(s, h, id, n) && k <= n
    ensures RunHeld(s, h, id, k)
    decreases k
  {
    if k > 0 && HasParent(h.all, h.all[id]) { RunShorter(s, h, h.all[id].prev.value, n - 1, k - 1); }
  }

  /** Whenever adopt succeeds, a node holding the floor, its linked ancestry and everything it added
      since computes the full chain's difficulty from every anchor at or above the floor. */
  lemma BootstrapDifficulty(s: Store, h: History, floor: Anchor, ancestry: seq<Anchor>, prev: Id, sched: Schedule)
    requires Below(s, h) && floor.id in s && s[floor.id] == floor && AdoptAllowed(floor, ancestry, sched)
    requires forall i :: 0 <= i < |ancestry| ==> ancestry[i].id in h.all ==> h.all[ancestry[i].id] == ancestry[i]
    requires forall a :: a in LinkedRun(floor, ancestry) ==> a.id in s
    requires prev in s && IsAncestor(h.all, floor.id, prev)
    requires forall x :: x in h.all && IsAncestor(h.all, floor.id, x) && IsAncestor(h.all, x, prev) ==> x in s
    ensures DifficultyAfter(s, Some(prev), sched) == DifficultyAfter(h.all, Some(prev), sched)
  {
    var p := h.all[prev];
    AncestorHeight(h.all, floor.id, prev);
    if (p.height + 1) % sched.epoch == 0 {
      NextBoundary(floor.height, p.height + 1, sched.epoch);
      LinkedRunHeld(s, h, floor, ancestry, DipOf(sched));
      BootstrapWindow(s, h, floor.id, prev, DipOf(sched), sched.window);
    }
    SameWindow(s, h, prev, sched);
  }

  /** The floor itself and the ancestors the deepest window above it dips to. */
  function DipOf(sched: Schedule): nat {
    if sched.window > sched.epoch then sched.window - sched.epoch + 1 else 1
  }

  lemma SameWindow(s: Store, h: History, prev: Id, sched: Schedule)
    requires Below(s, h) && prev in s
    requires (s[prev].height + 1) % sched.epoch == 0 ==>
               Window(s, prev, sched.window) == Window(h.all, prev, sched.window)
    ensures DifficultyAfter(s, Some(prev), sched) == DifficultyAfter(h.all, Some(prev), sched)
  {
  }

  lemma BootstrapWindow(s: Store, h: History, floor: Id, prev: Id, deep: nat, n: nat)
    requires Below(s, h) && floor in s && prev in s && IsAncestor(h.all, floor, prev)
    requires forall x :: x in h.all && IsAncestor(h.all, floor, x) && IsAncestor(h.all, x, prev) ==> x in s
    requires RunHeld(s, h, floor, deep) && s[floor].height + n <= s[prev].height + deep
    ensures Window(s, prev, n) == Window(h.all, prev, n)
  {
    RunAcrossFloor(s, h, floor, prev, deep, n);
    RunGivesWindow(s, h, prev, n);
  }

  lemma NextBoundary(a: nat, b: nat, e: pos)
    requires a % e == 0 && b % e == 0 && a < b
    ensures a + e <= b
  {
    var i, j := a / e, b / e;
    assert a == e * i && b == e * j;
    if j <= i {
      ProductOrder(j, i, e);
    } else {
      ProductOrder(i + 1, j, e);
    }
  }

  /** Pruning changes no difficulty computed from an anchor at least a window above the floor. */
  lemma PrunedDifficulty(s: Store, h: History, floor: nat, prev: Id, sched: Schedule)
    requires KeepsFrom(s, h, floor) && prev in s && floor + sched.window <= s[prev].height + 1
    ensures DifficultyAfter(s, Some(prev), sched) == DifficultyAfter(h.all, Some(prev), sched)
  {
    WindowHeld(s, h, floor, prev, sched.window);
  }
}
