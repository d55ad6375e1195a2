/** What fork choice decides, without its own terms: a branch is final when the farmers who built only on it won most
    of the 64 anchors up to the fork (resolveFork in src/consensus/chain.ts). */
module Ballot {
  import opened Primitives
  import opened Anchors
  import opened Store
  import opened ForkChoice

  /** One of the last `n` anchors up to `f`, and not an installed block 0. */
  ghost predicate Counts(s: Store, f: Id, n: nat, y: Id)
    requires WellFormed(s) && f in s
  {
    y in s && IsAncestor(s, y, f) && s[f].height < s[y].height + n && s[y].producer != GENESIS_PRODUCER
  }

  ghost function Reference(s: Store, f: Id, n: nat): set<Id>
    requires WellFormed(s) && f in s
  {
    set y | y in s && Counts(s, f, n, y)
  }

  ghost function WonBy(s: Store, f: Id, n: nat, who: set<string>): set<Id>
    requires WellFormed(s) && f in s
  {
    set y | y in s && Counts(s, f, n, y) && s[y].producer in who
  }

  lemma CountsBelow(s: Store, f: Id, n: nat, y: Id)
    requires WellFormed(s) && f in s && y in s
    ensures !Counts(s, f, 0, y)
    ensures n > 0 ==> (Counts(s, f, n, y) <==>
                         if y == f then s[f].producer != GENESIS_PRODUCER
                         else HasParent(s, s[f]) && Counts(s, s[f].prev.value, n - 1, y))
  {
    if IsAncestor(s, y, f) { AncestorHeight(s, y, f); }
  }

  /** The set one link further down, and the anchor above it. */
  lemma WonBelow(s: Store, f: Id, n: nat, who: set<string>, below: set<Id>)
    requires WellFormed(s) && f in s && n > 0
    requires below == if HasParent(s, s[f]) then WonBy(s, s[f].prev.value, n - 1, who) else {}
    ensures f !in below
    ensures WonBy(s, f, n, who) ==
              if s[f].producer != GENESIS_PRODUCER && s[f].producer in who then below + {f} else below
  {
    forall y | y in s
      ensures y in WonBy(s, f, n, who) <==>
                if y == f then s[f].producer != GENESIS_PRODUCER && s[f].producer in who else y in below
    {
      CountsBelow(s, f, n, y);
    }
    if HasParent(s, s[f]) && Counts(s, s[f].prev.value, n - 1, f) { AncestorHeight(s, f, s[f].prev.value); }
  }

  lemma {:induction false} WindowCounts(s: Store, f: Id, n: nat, who: set<string>)
    requires WellFormed(s) && f in s
    ensures Won(Window(s, f, n), who) == |WonBy(s, f, n, who)|
    decreases n
  {
    if n == 0 {
      forall y | y in s ensures !Counts(s, f, n, y) { CountsBelow(s, f, n, y); }
      assert WonBy(s, f, n, who) == {};
    } else {
      var p, up := if HasParent(s, s[f]) then s[f].prev.value else f, HasParent(s, s[f]);
      if up { WindowCounts(s, p, n - 1, who); }
      WonBelow(s, f, n, who, if up then WonBy(s, p, n - 1, who) else {});
    }
  }

  /** Every vote cast was won by somebody. */
  lemma {:induction false} CastIsWon(win: seq<Anchor>, all: set<string>)
    requires forall i :: 0 <= i < |win| ==> win[i].producer in all
    ensures Cast(win) == Won(win, all)
    decreases |win|
  {
    if |win| > 0 { CastIsWon(win[1..], all); }
  }

  lemma ReferenceCounts(s: Store, f: Id, n: nat)
    requires WellFormed(s) && f in s
    ensures Cast(Window(s, f, n)) == |Reference(s, f, n)|
  {
    var win := Window(s, f, n);
    var all := (set a | a in win :: a.producer) + set y | y in s :: s[y].producer;
    CastIsWon(win, all);
    WindowCounts(s, f, n, all);
    assert WonBy(s, f, n, all) == Reference(s, f, n);
  }

  /** A farmer has an anchor on the branch from `f` to `x`. */
  ghost predicate BuiltOn(s: Store, f: Id, x: Id, farmer: string)
    requires WellFormed(s) && x in s
  {
    exists y :: y in s && IsAncestor(s, y, x) && IsAncestor(s, f, y) && y != f && s[y].producer == farmer
  }

  lemma {:induction false} ProducersBuilt(s: Store, x: Id, f: Id, farmer: string)
    requires WellFormed(s) && x in s && IsAncestor(s, f, x)
    ensures farmer in Producers(s, x, f) <==> BuiltOn(s, f, x, farmer)
    decreases s[x].height
  {
    if x == f {
      if BuiltOn(s, f, x, farmer) {
        var y :| y in s && IsAncestor(s, y, x) && IsAncestor(s, f, y) && y != f;
        AncestorHeight(s, y, x);
        AncestorHeight(s, f, y);
        assert false;
      }
    } else {
      ProducersBuilt(s, s[x].prev.value, f, farmer);
      assert IsAncestor(s, x, x);
    }
  }

  /** The reference anchors won by farmers who built on the branch to `mine`, and not on the other. */
  ghost function Backing(s: Store, f: Id, mine: Id, other: Id): set<Id>
    requires WellFormed(s) && f in s && mine in s && other in s
  {
    set y | y in s && Counts(s, f, 64, y) && BuiltOn(s, f, mine, s[y].producer) && !BuiltOn(s, f, other, s[y].producer)
  }

  lemma BackingWon(s: Store, f: Id, mine: Id, other: Id, n: nat)
    requires WellFormed(s) && f in s && mine in s && other in s && IsAncestor(s, f, mine) && IsAncestor(s, f, other)
    requires n == 64
    ensures Won(Window(s, f, n), Producers(s, mine, f) - Producers(s, other, f)) == |Backing(s, f, mine, other)|
    ensures Cast(Window(s, f, n)) == |Reference(s, f, n)|
  {
    var who := Producers(s, mine, f) - Producers(s, other, f);
    WindowCounts(s, f, n, who);
    ReferenceCounts(s, f, n);
    forall y | y in s
      ensures s[y].producer in who <==> BuiltOn(s, f, mine, s[y].producer) && !BuiltOn(s, f, other, s[y].producer)
    {
      ProducersBuilt(s, mine, f, s[y].producer);
      ProducersBuilt(s, other, f, s[y].producer);
    }
    assert WonBy(s, f, n, who) == Backing(s, f, mine, other);
  }

  /** `f` is the last anchor both lines share. */
  ghost predicate Parts(s: Store, x: Id, t: Id, f: Id)
    requires WellFormed(s) && x in s && t in s
  {
    && f in s && IsAncestor(s, f, x) && IsAncestor(s, f, t)
    && forall g :: g in s && IsAncestor(s, g, x) && IsAncestor(s, g, t) ==> IsAncestor(s, g, f)
  }

  lemma {:induction false} FirstAboveFork(s: Store, x: Id, f: Id)
    requires WellFormed(s) && x in s && IsAncestor(s, f, x) && x != f
    ensures FirstAbove(s, x, f) in s && s[FirstAbove(s, x, f)].prev == Some(f)
    decreases s[x].height
  {
    if s[x].prev.value != f { FirstAboveFork(s, s[x].prev.value, f); }
  }

  /** The verdict on a branch to `x` against the tip `t`: kept if the tip's own farmers won most of the reference
      anchors, final if the branch's did, with the lock on its first anchor; else a matter of weight, with the lock
      on the fork. Nothing is decided where no common anchor is held. */
  lemma VerdictMeans(s: Store, x: Id, t: Id, f: Id)
    requires WellFormed(s) && x in s && t in s && Parts(s, x, t, f)
    ensures var v, all := VerdictOf(s, x, t), |Reference(s, f, 64)|;
            && (v.Keep? <==> 2 * |Backing(s, f, t, x)| > all)
            && (v.SwitchFinal? <==> 2 * |Backing(s, f, x, t)| > all)
            && (v.SwitchFinal? ==> v.lock in s && s[v.lock].prev == Some(f) && IsAncestor(s, v.lock, x))
            && (v.SwitchIfHeavier? ==> v.lock == f)
  {
    ForkPointIsLast(s, x, t);
    var g := ForkPoint(s, x, t).value;
    AncestorHeight(s, f, g);
    AncestorHeight(s, g, f);
    BackingWon(s, f, t, x, FORK_WINDOW);
    BackingWon(s, f, x, t, FORK_WINDOW);
    OneMajority(Window(s, f, FORK_WINDOW), Producers(s, t, f), Producers(s, x, f));
    SwitchLock(s, x, t);
    if x != f { FirstAboveFork(s, x, f); } else { NobodyBacks(s, f, t); }
  }

  lemma NobodyBacks(s: Store, f: Id, t: Id)
    requires WellFormed(s) && f in s && t in s
    ensures Backing(s, f, f, t) == {}
  {
    forall y | y in s && IsAncestor(s, y, f) && IsAncestor(s, f, y) ensures y == f {
      AncestorHeight(s, y, f);
      AncestorHeight(s, f, y);
    }
  }

  lemma NothingShared(s: Store, x: Id, t: Id)
    requires WellFormed(s) && x in s && t in s
    ensures (forall g :: g in s ==> !(IsAncestor(s, g, x) && IsAncestor(s, g, t))) ==> VerdictOf(s, x, t).Keep?
    ensures (exists g :: g in s && IsAncestor(s, g, x) && IsAncestor(s, g, t)) ==> exists f :: Parts(s, x, t, f)
  {
    ForkPointIsLast(s, x, t);
    if ForkPoint(s, x, t).Some? { assert Parts(s, x, t, ForkPoint(s, x, t).value); }
  }
}
