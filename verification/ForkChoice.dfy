/** Weighing a branch that conflicts with the lock (heavier and resolveFork in
    src/consensus/chain.ts), and why both sides of a split reach one verdict. */
module ForkChoice {
  import opened Primitives
  import opened Anchors
  import opened Store

  const FORK_WINDOW: nat := 64
  const GENESIS_PRODUCER: string := "0000000000000000000000000000000000000000000000000000000000000000"

  predicate Heavier(a: Anchor, b: Anchor) {
    if a.weight != b.weight then a.weight > b.weight else StrLess(a.id, b.id)
  }

  lemma HeavierTotal(a: Anchor, b: Anchor, c: Anchor)
    ensures a.id != b.id ==> (Heavier(a, b) <==> !Heavier(b, a))
    ensures !Heavier(a, a)
    ensures Heavier(a, b) && Heavier(b, c) ==> Heavier(a, c)
  {
    StrTrichotomy(a.id, b.id);
    StrTrichotomy(a.id, a.id);
    if StrLess(a.id, b.id) && StrLess(b.id, c.id) { StrTransitive(a.id, b.id, c.id); }
  }

  /** The last anchor of `x`'s ancestry that is also in `t`'s. */
  ghost function ForkPoint(s: Store, x: Id, t: Id): (f: Option<Id>)
    requires WellFormed(s) && x in s && t in s
    ensures f.Some? ==> f.value in s
    decreases s[x].height
  {
    if IsAncestor(s, x, t) then Some(x)
    else if HasParent(s, s[x]) then ForkPoint(s, s[x].prev.value, t)
    else None
  }

  lemma {:induction false} ForkPointIsLast(s: Store, x: Id, t: Id)
    requires WellFormed(s) && x in s && t in s
    ensures forall g :: IsAncestor(s, g, x) && IsAncestor(s, g, t) ==>
              ForkPoint(s, x, t).Some? && IsAncestor(s, g, ForkPoint(s, x, t).value)
    ensures ForkPoint(s, x, t).Some? ==>
              var f := ForkPoint(s, x, t).value;
              f in s && IsAncestor(s, f, x) && IsAncestor(s, f, t)
    decreases s[x].height
  {
    if !IsAncestor(s, x, t) && HasParent(s, s[x]) {
      ForkPointIsLast(s, s[x].prev.value, t);
    }
  }

  lemma ForkPointSymmetric(s: Store, x: Id, t: Id)
    requires WellFormed(s) && x in s && t in s
    ensures ForkPoint(s, x, t) == ForkPoint(s, t, x)
  {
    ForkPointIsLast(s, x, t);
    ForkPointIsLast(s, t, x);
    if ForkPoint(s, x, t).Some? {
      var f, g := ForkPoint(s, x, t).value, ForkPoint(s, t, x).value;
      AncestorHeight(s, f, g);
      AncestorHeight(s, g, f);
    }
  }

  /** Producers of the anchors from `x` down to, and not including, `f`. */
  ghost function Producers(s: Store, x: Id, f: Id): set<string>
    requires WellFormed(s) && x in s
    decreases s[x].height
  {
    if x == f then {}
    else {s[x].producer} + if HasParent(s, s[x]) then Producers(s, s[x].prev.value, f) else {}
  }

  /** The anchors ending at `f` whose producers carry the reference weights, newest first. */
  ghost function Window(s: Store, f: Id, n: nat): seq<Anchor>
    requires WellFormed(s) && f in s
    decreases n
  {
    if n == 0 then []
    else [s[f]] + if HasParent(s, s[f]) then Window(s, s[f].prev.value, n - 1) else []
  }

  /** Each anchor of a window lies as many links below its end as its place in it, and a short window ends where
      nothing deeper is held. */
  lemma {:induction false} WindowIs(s: Store, f: Id, n: nat)
    requires WellFormed(s) && f in s
    ensures |Window(s, f, n)| <= n
    ensures forall i :: 0 <= i < |Window(s, f, n)| ==>
              && Window(s, f, n)[i] == Up(s, f, i) && Window(s, f, n)[i].height + i == s[f].height
    ensures |Window(s, f, n)| < n ==> |Window(s, f, n)| > 0 && !HasParent(s, Window(s, f, n)[|Window(s, f, n)| - 1])
    decreases n
  {
    var w := Window(s, f, n);
    if n > 0 && HasParent(s, s[f]) {
      WindowIs(s, s[f].prev.value, n - 1);
      forall i | 1 <= i < |w|
        ensures w[i] == Up(s, f, i) && w[i].height + i == s[f].height
      {
        assert w[i] == Window(s, s[f].prev.value, n - 1)[i - 1];
      }
    }
  }

  /** Anchors of the window won by producers in `who`; genesis has no producer. */
  function Won(win: seq<Anchor>, who: set<string>): nat
    decreases |win|
  {
    if |win| == 0 then 0
    else (if win[0].producer != GENESIS_PRODUCER && win[0].producer in who then 1 else 0) + Won(win[1..], who)
  }

  function Cast(win: seq<Anchor>): nat
    decreases |win|
  {
    if |win| == 0 then 0
    else (if win[0].producer != GENESIS_PRODUCER then 1 else 0) + Cast(win[1..])
  }

  lemma {:induction false} WonDisjoint(win: seq<Anchor>, a: set<string>, b: set<string>)
    requires a !! b
    ensures Won(win, a + b) == Won(win, a) + Won(win, b)
    ensures Won(win, a) + Won(win, b) <= Cast(win)
    decreases |win|
  {
    if |win| > 0 { WonDisjoint(win[1..], a, b); }
  }

  lemma {:induction false} WonAppend(win: seq<Anchor>, a: Anchor, who: set<string>)
    ensures Won(win + [a], who) == Won(win, who) + if a.producer != GENESIS_PRODUCER && a.producer in who then 1 else 0
    ensures Cast(win + [a]) == Cast(win) + if a.producer != GENESIS_PRODUCER then 1 else 0
    decreases |win|
  {
    if |win| == 0 {
      assert win + [a] == [a];
    } else {
      assert (win + [a])[1..] == win[1..] + [a];
      WonAppend(win[1..], a, who);
    }
  }

  /** `weight` counts the anchors each producer won. */
  ghost predicate Weighs(weight: map<string, nat>, win: seq<Anchor>) {
    forall p :: Won(win, {p}) == if p in weight then weight[p] else 0
  }

  function AddWeight(weight: map<string, nat>, a: Anchor): map<string, nat> {
    if a.producer == GENESIS_PRODUCER then weight
    else weight[a.producer := (if a.producer in weight then weight[a.producer] else 0) + 1]
  }

  lemma WeighsAppend(weight: map<string, nat>, win: seq<Anchor>, a: Anchor)
    requires Weighs(weight, win)
    ensures Weighs(AddWeight(weight, a), win + [a])
  {
    forall p
      ensures Won(win + [a], {p}) == if p in AddWeight(weight, a) then AddWeight(weight, a)[p] else 0
    {
      WonAppend(win, a, {p});
    }
  }

  /** A branch is final when producers who built on it, and not on the other, won a strict majority
      of the window. */
  predicate Majority(win: seq<Anchor>, mine: set<string>, other: set<string>) {
    2 * Won(win, mine - other) > Cast(win)
  }

  lemma OneMajority(win: seq<Anchor>, a: set<string>, b: set<string>)
    ensures !(Majority(win, a, b) && Majority(win, b, a))
  {
    WonDisjoint(win, a - b, b - a);
  }

  datatype Verdict = Keep | SwitchFinal(lock: Id) | SwitchIfHeavier(lock: Id)

  /** The first anchor of `x`'s branch above `f`. */
  ghost function FirstAbove(s: Store, x: Id, f: Id): Id
    requires WellFormed(s) && x in s
    decreases s[x].height
  {
    if HasParent(s, s[x]) && s[x].prev.value != f then FirstAbove(s, s[x].prev.value, f) else x
  }

  ghost function VerdictOf(s: Store, x: Id, t: Id): Verdict
    requires WellFormed(s) && x in s && t in s
  {
    match ForkPoint(s, x, t)
    case None => Keep
    case Some(f) =>
      var win := Window(s, f, FORK_WINDOW);
      var ours, theirs := Producers(s, t, f), Producers(s, x, f);
      if Majority(win, ours, theirs) then Keep
      else if Majority(win, theirs, ours) then SwitchFinal(FirstAbove(s, x, f))
      else SwitchIfHeavier(f)
  }

  lemma {:induction false} FirstAboveOnBranch(s: Store, x: Id, f: Id)
    requires WellFormed(s) && x in s && f in s && IsAncestor(s, f, x) && x != f
    ensures FirstAbove(s, x, f) in s && IsAncestor(s, FirstAbove(s, x, f), x) && IsAncestor(s, f, FirstAbove(s, x, f))
    decreases s[x].height
  {
    if s[x].prev.value != f { FirstAboveOnBranch(s, s[x].prev.value, f); }
  }

  lemma {:induction false} WonByNobody(win: seq<Anchor>)
    ensures Won(win, {}) == 0
    decreases |win|
  {
    if |win| > 0 { WonByNobody(win[1..]); }
  }

  /** The lock a switch re-anchors to lies on the incoming branch at or just above the fork. */
  lemma SwitchLock(s: Store, x: Id, t: Id)
    requires WellFormed(s) && x in s && t in s
    ensures !VerdictOf(s, x, t).Keep? ==>
              && ForkPoint(s, x, t).Some? && VerdictOf(s, x, t).lock in s
              && IsAncestor(s, ForkPoint(s, x, t).value, VerdictOf(s, x, t).lock)
              && IsAncestor(s, VerdictOf(s, x, t).lock, x)
  {
    ForkPointIsLast(s, x, t);
    if ForkPoint(s, x, t).Some? {
      var f := ForkPoint(s, x, t).value;
      if x != f {
        FirstAboveOnBranch(s, x, f);
      } else {
        WonByNobody(Window(s, f, FORK_WINDOW));
        assert {} - Producers(s, t, f) == {};
      }
    }
  }

  /** Which of the two tips a node on `t`, whose lock `x` abandons, ends on. */
  ghost function Winner(s: Store, t: Id, x: Id): Id
    requires WellFormed(s) && x in s && t in s
  {
    match VerdictOf(s, x, t)
    case Keep => t
    case SwitchFinal(_) => x
    case SwitchIfHeavier(_) => if Heavier(s[x], s[t]) then x else t
  }

  /** Nodes holding the same history agree whichever side of the split each is on. */
  lemma SidesAgree(s: Store, a: Id, b: Id)
    requires WellFormed(s) && a in s && b in s && a != b && ForkPoint(s, a, b).Some?
    ensures Winner(s, a, b) == Winner(s, b, a)
  {
    ForkPointSymmetric(s, a, b);
    ForkPointIsLast(s, a, b);
    var f := ForkPoint(s, a, b).value;
    OneMajority(Window(s, f, FORK_WINDOW), Producers(s, a, f), Producers(s, b, f));
    HeavierTotal(s[a], s[b], s[b]);
  }

  // ---------- the verdict from a pruned store ----------

  lemma {:induction false} ForkPointHeld(s: Store, h: History, floor: nat, x: Id, t: Id)
    requires KeepsFrom(s, h, floor) && x in s && t in s
    requires ForkPoint(h.all, x, t).Some?
    requires floor <= h.all[ForkPoint(h.all, x, t).value].height
    ensures ForkPoint(s, x, t) == ForkPoint(h.all, x, t)
    decreases s[x].height
  {
    var f := ForkPoint(h.all, x, t).value;
    ForkPointIsLast(h.all, x, t);
    AncestorHeight(h.all, f, x);
    AncestorHeld(s, h, floor, x, t);
    if x != f {
      AncestorHeight(h.all, f, h.all[x].prev.value);
      ForkPointHeld(s, h, floor, s[x].prev.value, t);
    }
  }

  lemma {:induction false} ProducersHeld(s: Store, h: History, floor: nat, x: Id, f: Id)
    requires KeepsFrom(s, h, floor) && x in s && f in h.all && floor <= h.all[f].height && IsAncestor(h.all, f, x)
    ensures Producers(s, x, f) == Producers(h.all, x, f)
    ensures x != f ==> FirstAbove(s, x, f) == FirstAbove(h.all, x, f)
    decreases s[x].height
  {
    if x != f {
      AncestorHeight(h.all, f, h.all[x].prev.value);
      ProducersHeld(s, h, floor, s[x].prev.value, f);
    }
  }

  lemma {:induction false} WindowHeld(s: Store, h: History, floor: nat, f: Id, n: nat)
    requires KeepsFrom(s, h, floor) && f in s && (floor == 0 || floor + n <= s[f].height + 1)
    ensures Window(s, f, n) == Window(h.all, f, n)
    decreases n
  {
    if n > 1 && HasParent(h.all, h.all[f]) {
      WindowHeld(s, h, floor, s[f].prev.value, n - 1);
    }
  }

  /** Nothing of the reference window of a fork at that height lies below the floor. */
  predicate HasWindow(floor: nat, fork: nat) {
    floor == 0 || floor + FORK_WINDOW <= fork + 1
  }

  /** A node that kept the reference window reaches the verdict of the full history. */
  lemma VerdictHeld(s: Store, h: History, floor: nat, x: Id, t: Id)
    requires KeepsFrom(s, h, floor) && x in s && t in s && !IsAncestor(h.all, x, t)
    requires ForkPoint(h.all, x, t).Some?
    requires HasWindow(floor, h.all[ForkPoint(h.all, x, t).value].height)
    ensures VerdictOf(s, x, t) == VerdictOf(h.all, x, t)
  {
    var f := ForkPoint(h.all, x, t).value;
    ForkPointIsLast(h.all, x, t);
    ForkPointHeld(s, h, floor, x, t);
    ProducersHeld(s, h, floor, x, f);
    ProducersHeld(s, h, floor, t, f);
    WindowHeld(s, h, floor, f, FORK_WINDOW);
  }

  /** Two nodes, each locked above the fork point on its own branch and each holding the reference
      window, pick the same winner. ForkPrune.AgreesAtIff: without it they may not. */
  lemma ForkAgreement(sa: Store, sb: Store, h: History, fa: nat, fb: nat, a: Id, b: Id)
    requires KeepsFrom(sa, h, fa) && KeepsFrom(sb, h, fb) && a in sa && b in sa && a in sb && b in sb
    requires !IsAncestor(h.all, a, b) && !IsAncestor(h.all, b, a)
    requires ForkPoint(h.all, a, b).Some?
    requires HasWindow(fa, h.all[ForkPoint(h.all, a, b).value].height)
    requires HasWindow(fb, h.all[ForkPoint(h.all, a, b).value].height)
    ensures Winner(sa, a, b) == Winner(sb, b, a)
  {
    ForkPointSymmetric(h.all, a, b);
    VerdictHeld(sa, h, fa, b, a);
    VerdictHeld(sb, h, fb, a, b);
    SidesAgree(h.all, a, b);
  }
}
