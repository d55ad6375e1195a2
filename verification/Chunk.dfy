/** Putting relay-sized parts back together within bounds (Reassembler in src/sync/chunk.ts). */
module Chunks {
  import opened Primitives
  import opened Base64

  datatype Partial = Partial(total: nat, parts: seq<Option<string>>, have: nat, bytes: nat, at: int)

  /** Sender and message id. */
  type Key = (string, string)

  type Inbox = map<string, Partial>

  const DONE_CAP: nat := 4096

  // ---------- one message ----------

  function Filled(parts: seq<Option<string>>): nat
    decreases |parts|
  {
    if |parts| == 0 then 0 else Filled(parts[..|parts| - 1]) + if parts[|parts| - 1].Some? then 1 else 0
  }

  function Stored(parts: seq<Option<string>>): nat
    decreases |parts|
  {
    if |parts| == 0 then 0
    else Stored(parts[..|parts| - 1]) + match parts[|parts| - 1] case None => 0 case Some(s) => |s|
  }

  /** The counters say what the slots hold. */
  ghost predicate Exact(p: Partial) {
    |p.parts| == p.total && 1 <= p.total <= MAX_PARTS && p.have == Filled(p.parts) && p.bytes == Stored(p.parts)
  }

  function Fill(p: Partial, index: nat, part: string, now: int): Partial
    requires index < |p.parts|
  {
    if p.parts[index].None?
    then Partial(p.total, p.parts[index := Some(part)], p.have + 1, p.bytes + |part|, now)
    else p.(at := now)
  }

  lemma {:induction false} FillCounts(parts: seq<Option<string>>, index: nat, part: string)
    requires index < |parts| && parts[index].None?
    ensures Filled(parts[index := Some(part)]) == Filled(parts) + 1
    ensures Stored(parts[index := Some(part)]) == Stored(parts) + |part|
    decreases |parts|
  {
    var k := |parts| - 1;
    var after := parts[index := Some(part)];
    if index == k {
      assert after[..k] == parts[..k];
    } else {
      assert after[..k] == parts[..k][index := Some(part)];
      FillCounts(parts[..k], index, part);
    }
  }

  lemma {:induction false} FilledAll(parts: seq<Option<string>>)
    ensures Filled(parts) <= |parts|
    ensures Filled(parts) == |parts| <==> forall i :: 0 <= i < |parts| ==> parts[i].Some?
    decreases |parts|
  {
    if |parts| > 0 {
      var k := |parts| - 1;
      FilledAll(parts[..k]);
      if forall i :: 0 <= i < k ==> parts[i].Some? {
        forall i | 0 <= i < k ensures parts[..k][i].Some? {}
      }
      if Filled(parts[..k]) == k {
        forall i | 0 <= i < k ensures parts[i].Some? { assert parts[..k][i].Some?; }
      }
    }
  }

  function Empty(n: nat): seq<Option<string>> {
    seq(n, _ => None)
  }

  lemma {:induction false} EmptyCounts(n: nat)
    ensures Filled(Empty(n)) == 0 && Stored(Empty(n)) == 0
  {
    if n > 0 {
      EmptyCounts(n - 1);
      assert Empty(n)[..n - 1] == Empty(n - 1);
    }
  }

  function Texts(parts: seq<Option<string>>): seq<string>
    requires forall i :: 0 <= i < |parts| ==> parts[i].Some?
  {
    seq(|parts|, i requires 0 <= i < |parts| => parts[i].value)
  }

  // ---------- the books ----------

  ghost function Sizes(flat: map<Key, Partial>): map<Key, nat> {
    map k | k in flat :: flat[k].bytes
  }

  /** The nested maps and the flat one hold the same partials. */
  ghost predicate Mirrors(boxes: map<string, Inbox>, flat: map<Key, Partial>) {
    && (forall s, i :: (s, i) in flat <==> s in boxes && i in boxes[s])
    && (forall k :: k in flat ==> flat[k] == boxes[k.0][k.1])
  }

  ghost predicate AllExact(flat: map<Key, Partial>) {
    forall k :: k in flat ==> Exact(flat[k])
  }

  ghost predicate Counted(flat: map<Key, Partial>, bytes: nat) {
    AllExact(flat) && bytes == Total(Sizes(flat))
  }

  ghost predicate NoneEmpty(boxes: map<string, Inbox>) {
    forall s :: s in boxes ==> boxes[s] != map[]
  }

  lemma DropCounts(flat: map<Key, Partial>, bytes: nat, k: Key)
    requires Counted(flat, bytes) && k in flat
    ensures flat[k].bytes <= bytes && Counted(flat - {k}, bytes - flat[k].bytes)
  {
    TotalRemove(Sizes(flat), k);
    assert Sizes(flat - {k}) == Sizes(flat) - {k};
  }

  lemma PutCounts(flat: map<Key, Partial>, bytes: nat, k: Key, p: Partial)
    requires Counted(flat, bytes) && Exact(p)
    ensures k !in flat ==> Counted(flat[k := p], bytes + p.bytes)
    ensures k in flat && flat[k].bytes <= p.bytes ==> Counted(flat[k := p], bytes + p.bytes - flat[k].bytes)
  {
    if k !in flat {
      TotalAdd(Sizes(flat), k, p.bytes);
      assert Sizes(flat[k := p]) == Sizes(flat)[k := p.bytes];
    } else {
      DropCounts(flat, bytes, k);
      TotalAdd(Sizes(flat - {k}), k, p.bytes);
      assert Sizes(flat[k := p]) == Sizes(flat - {k})[k := p.bytes];
    }
  }

  lemma DropMirrors(boxes: map<string, Inbox>, flat: map<Key, Partial>, s: string, i: string)
    requires Mirrors(boxes, flat) && NoneEmpty(boxes) && (s, i) in flat
    ensures var rest := boxes[s] - {i};
            var boxes' := if rest == map[] then boxes - {s} else boxes[s := rest];
            Mirrors(boxes', flat - {(s, i)}) && NoneEmpty(boxes')
  {
    var rest := boxes[s] - {i};
    var boxes' := if rest == map[] then boxes - {s} else boxes[s := rest];
    forall x, y
      ensures (x, y) in flat - {(s, i)} <==> x in boxes' && y in boxes'[x]
    {
      if x == s { assert y in rest <==> y in boxes[s] && y != i; }
    }
  }

  lemma PutMirrors(boxes: map<string, Inbox>, flat: map<Key, Partial>, s: string, i: string, p: Partial)
    requires Mirrors(boxes, flat) && NoneEmpty(boxes)
    ensures var box := if s in boxes then boxes[s] else map[];
            Mirrors(boxes[s := box[i := p]], flat[(s, i) := p]) && NoneEmpty(boxes[s := box[i := p]])
  {
    var box := if s in boxes then boxes[s] else map[];
    assert i in box[i := p];
    PutFlat(boxes, flat, s, i, p, box);
  }

  lemma PutFlat(boxes: map<string, Inbox>, flat: map<Key, Partial>, s: string, i: string, p: Partial, box: Inbox)
    requires Mirrors(boxes, flat) && box == if s in boxes then boxes[s] else map[]
    ensures Mirrors(boxes[s := box[i := p]], flat[(s, i) := p])
  {
    var all, one := boxes[s := box[i := p]], flat[(s, i) := p];
    forall x, y ensures (x, y) in one <==> x in all && y in all[x] {
      assert (x, y) in flat <==> x in boxes && y in boxes[x];
    }
  }

  ghost predicate Within(a: map<Key, Partial>, b: map<Key, Partial>) {
    a.Keys <= b.Keys && forall k :: k in a ==> a[k] == b[k]
  }

  ghost predicate Narrower(a: map<string, Inbox>, b: map<string, Inbox>) {
    forall s :: s in a ==> s in b && a[s].Keys <= b[s].Keys
  }

  lemma WithinChain(a: map<Key, Partial>, b: map<Key, Partial>, c: map<Key, Partial>)
    requires Within(a, b) && Within(b, c)
    ensures Within(a, c)
  {
  }

  ghost predicate KeepsOthers(a: map<string, Inbox>, b: map<string, Inbox>, s: string) {
    forall x :: x in b && x != s ==> x in a
  }

  lemma OthersChain(a: map<string, Inbox>, b: map<string, Inbox>, c: map<string, Inbox>, s: string)
    requires KeepsOthers(a, b, s) && KeepsOthers(b, c, s)
    ensures KeepsOthers(a, c, s)
  {
  }

  lemma NarrowerChain(a: map<string, Inbox>, b: map<string, Inbox>, c: map<string, Inbox>)
    requires Narrower(a, b) && Narrower(b, c)
    ensures Narrower(a, c)
  {
  }

  ghost predicate WithinCaps(boxes: map<string, Inbox>, cap: nat) {
    forall s :: s in boxes ==> |boxes[s]| <= cap
  }

  ghost predicate Unfinished(flat: map<Key, Partial>) {
    forall k :: k in flat ==> flat[k].have < flat[k].total
  }

  lemma SmallerBox(a: Inbox, b: Inbox)
    requires a.Keys <= b.Keys
    ensures |a| <= |b|
  {
    SmallerSet(a.Keys, b.Keys);
    assert |a.Keys| == |a| && |b.Keys| == |b|;
  }

  lemma {:induction false} SmallerSet(a: set<string>, b: set<string>)
    requires a <= b
    ensures |a| <= |b|
    decreases a
  {
    if a != {} {
      var x :| x in a;
      SmallerSet(a - {x}, b - {x});
    }
  }

  lemma NarrowerCaps(a: map<string, Inbox>, b: map<string, Inbox>, cap: nat)
    requires Narrower(a, b) && WithinCaps(b, cap)
    ensures WithinCaps(a, cap)
  {
    forall s | s in a ensures |a[s]| <= cap { SmallerBox(a[s], b[s]); }
  }

  /** One partial is gone, and none was quieter. */
  ghost predicate EvictedOldest(before: map<Key, Partial>, after: map<Key, Partial>, k: Key) {
    k in before && after == before - {k} && forall j :: j in before ==> before[k].at <= before[j].at
  }

  /** Only the quietest went. */
  ghost predicate OldestWent(before: map<Key, Partial>, after: map<Key, Partial>) {
    Within(after, before)
    && forall k, j :: k in before && k !in after && j in after ==> before[k].at <= after[j].at
  }

  /** Without the last of them that went, the cap would still be passed. */
  ghost predicate NoneTooMany(before: map<Key, Partial>, after: map<Key, Partial>, bytes: nat, cap: nat) {
    after == before
    || exists k :: k in before && k !in after && bytes + before[k].bytes > cap
         && forall j :: j in before && j !in after ==> before[j].at <= before[k].at
  }

  lemma ShedStep(all: map<Key, Partial>, before: map<Key, Partial>, after: map<Key, Partial>, k: Key, bytes: nat,
                 cap: nat)
    requires OldestWent(all, before) && EvictedOldest(before, after, k) && bytes + before[k].bytes > cap
    ensures OldestWent(all, after) && NoneTooMany(all, after, bytes, cap) && |after| < |before|
  {
    EvictedSmaller(before, after, k);
    assert k in all && k !in after && all[k] == before[k];
  }

  /** One of the sender's partials is gone, and none of its others was quieter. */
  ghost predicate EvictedOldestOf(before: map<Key, Partial>, after: map<Key, Partial>, s: string) {
    exists i :: (s, i) in before && after == before - {(s, i)}
      && forall j :: (s, j) in before ==> before[(s, i)].at <= before[(s, j)].at
  }

  lemma PutCaps(boxes: map<string, Inbox>, s: string, i: string, p: Partial, cap: nat)
    requires WithinCaps(boxes, cap) && cap >= 1 && (s in boxes ==> |boxes[s]| < cap || i in boxes[s])
    ensures WithinCaps(boxes[s := (if s in boxes then boxes[s] else map[])[i := p]], cap)
  {
    var box := if s in boxes then boxes[s] else map[];
    assert box[i := p].Keys == box.Keys + {i};
    assert |box[i := p].Keys| == |box[i := p]| && |box.Keys| == |box|;
    if i in box { assert box.Keys + {i} == box.Keys; }
  }

  lemma EvictedSmaller(before: map<Key, Partial>, after: map<Key, Partial>, k: Key)
    requires EvictedOldest(before, after, k)
    ensures |after| < |before| && Within(after, before)
  {
    assert before.Keys == after.Keys + {k};
  }

  lemma NothingCounted(flat: map<Key, Partial>, bytes: nat)
    requires Counted(flat, bytes) && flat == map[]
    ensures bytes == 0
  {
    assert Sizes(flat) == map[];
  }

  class Reassembler {
    const ttl: nat
    const maxPartialPerSender: nat
    const maxBytes: nat
    const maxPartLen: nat
    var bySender: map<string, Inbox>
    var done: seq<(string, int)>
    var bytes: nat
    ghost var flat: map<Key, Partial>

    ghost predicate Valid()
      reads this
    {
      Mirrors(bySender, flat) && NoneEmpty(bySender) && Counted(flat, bytes)
    }

    constructor (ttl: nat, maxPartialPerSender: nat, maxBytes: nat, maxPartLen: nat)
      ensures Valid() && flat == map[] && done == [] && bytes == 0
    {
      this.ttl, this.maxPartialPerSender := ttl, maxPartialPerSender;
      this.maxBytes, this.maxPartLen := maxBytes, maxPartLen;
      bySender, done, bytes, flat := map[], [], 0, map[];
    }

    /** Forget one partial, and its sender's map with the last of them. */
    method Drop(s: string, i: string)
      requires Valid() && (s, i) in flat
      modifies this`bySender, this`bytes, this`flat
      ensures Valid() && flat == old(flat) - {(s, i)} && bytes == old(bytes) - old(flat)[(s, i)].bytes
      ensures bySender == if old(bySender)[s] - {i} == map[] then old(bySender) - {s}
                          else old(bySender)[s := old(bySender)[s] - {i}]
    {
      DropMirrors(bySender, flat, s, i);
      DropCounts(flat, bytes, (s, i));
      var rest := bySender[s] - {i};
      Settle(if rest == map[] then bySender - {s} else bySender[s := rest],
             bytes - bySender[s][i].bytes, flat - {(s, i)});
    }

    method Settle(boxes: map<string, Inbox>, total: nat, ghost all: map<Key, Partial>)
      requires Mirrors(boxes, all) && NoneEmpty(boxes) && Counted(all, total)
      modifies this`bySender, this`bytes, this`flat
      ensures Valid() && bySender == boxes && bytes == total && flat == all
    {
      bySender, bytes, flat := boxes, total, all;
    }

    method Put(s: string, i: string, p: Partial, grown: nat)
      requires Valid() && Exact(p)
      requires (s, i) !in flat ==> grown == p.bytes
      requires (s, i) in flat ==> p.bytes == flat[(s, i)].bytes + grown
      modifies this`bySender, this`bytes, this`flat
      ensures Valid() && flat == old(flat)[(s, i) := p] && bytes == old(bytes) + grown
      ensures bySender == old(bySender)[s := (if s in old(bySender) then old(bySender)[s] else map[])[i := p]]
    {
      PutMirrors(bySender, flat, s, i, p);
      PutCounts(flat, bytes, (s, i), p);
      var box := if s in bySender then bySender[s] else map[];
      Settle(bySender[s := box[i := p]], bytes + grown, flat[(s, i) := p]);
    }

    method OldestOf(box: Inbox) returns (oldest: Option<string>)
      ensures oldest.None? <==> box == map[]
      ensures oldest.Some? ==> oldest.value in box && forall i :: i in box ==> box[oldest.value].at <= box[i].at
    {
      oldest := None;
      var todo := box.Keys;
      while todo != {}
        invariant todo <= box.Keys && (oldest.None? <==> todo == box.Keys)
        invariant oldest.Some? ==> oldest.value in box && forall i :: i in box && i !in todo ==>
                    box[oldest.value].at <= box[i].at
        decreases todo
      {
        var i :| i in todo;
        todo := todo - {i};
        if oldest.None? || box[i].at < box[oldest.value].at { oldest := Some(i); }
      }
    }

    /** Drop a sender's quietest partial. */
    method EvictOldestOf(s: string)
      requires Valid() && s in bySender
      modifies this`bySender, this`bytes, this`flat
      ensures Valid() && EvictedOldestOf(old(flat), flat, s) && bytes <= old(bytes)
      ensures Narrower(bySender, old(bySender)) && (s in bySender ==> |bySender[s]| < |old(bySender)[s]|)
    {
      var oldest := OldestOf(bySender[s]);
      assert (s, oldest.value) in flat;
      ghost var box := bySender[s];
      assert (box - {oldest.value}).Keys == box.Keys - {oldest.value};
      assert |box.Keys| == |box| && |(box - {oldest.value}).Keys| == |box - {oldest.value}|;
      forall j | (s, j) in flat ensures flat[(s, oldest.value)].at <= flat[(s, j)].at {}
      Drop(s, oldest.value);
    }

    /** Drop the quietest partial of all, if there is one. */
    method EvictOldest() returns (evicted: bool, ghost k: Key)
      requires Valid()
      modifies this`bySender, this`bytes, this`flat
      ensures Valid() && (evicted <==> old(flat) != map[])
      ensures !evicted ==> unchanged(this)
      ensures evicted ==> EvictedOldest(old(flat), flat, k) && old(bytes) == bytes + old(flat)[k].bytes
      ensures Narrower(bySender, old(bySender))
    {
      var target := Oldest();
      if target.None? { return false, ("", ""); }
      k := target.value;
      Drop(target.value.0, target.value.1);
      evicted := true;
    }

    method Oldest() returns (target: Option<Key>)
      requires Valid()
      ensures target.None? <==> flat == map[]
      ensures target.Some? ==> target.value in flat && forall k :: k in flat ==> flat[target.value].at <= flat[k].at
    {
      target := None;
      var todo := bySender.Keys;
      while todo != {}
        invariant todo <= bySender.Keys && (target.None? <==> todo == bySender.Keys)
        invariant target.Some? ==> target.value in flat
        invariant target.Some? ==> forall k :: k in flat && k.0 !in todo ==> flat[target.value].at <= flat[k].at
        decreases todo
      {
        var s :| s in todo;
        todo := todo - {s};
        var i := OldestOf(bySender[s]);
        assert (s, i.value) in flat;
        if target.None? || bySender[s][i.value].at < bySender[target.value.0][target.value.1].at {
          target := Some((s, i.value));
        }
      }
      if target.None? {
        assert forall k :: k in flat ==> k.0 in bySender;
      }
    }

    /** Shed the oldest partials until back under the cap. */
    method Shed()
      requires Valid()
      modifies this`bySender, this`bytes, this`flat
      ensures Valid() && bytes <= maxBytes
      ensures OldestWent(old(flat), flat) && NoneTooMany(old(flat), flat, bytes, maxBytes)
      ensures old(bytes) <= maxBytes ==> unchanged(this)
      ensures Narrower(bySender, old(bySender))
    {
      while bytes > maxBytes
        invariant Valid() && OldestWent(old(flat), flat) && NoneTooMany(old(flat), flat, bytes, maxBytes)
        invariant Narrower(bySender, old(bySender))
        invariant old(bytes) <= maxBytes ==> bySender == old(bySender) && bytes == old(bytes) && flat == old(flat)
        decreases |flat|
      {
        var evicted := ShedOne(old(flat), old(bySender));
        if !evicted { break; }
      }
    }

    method ShedOne(ghost all: map<Key, Partial>, ghost boxes: map<string, Inbox>) returns (evicted: bool)
      requires Valid() && bytes > maxBytes && OldestWent(all, flat) && Narrower(bySender, boxes)
      modifies this`bySender, this`bytes, this`flat
      ensures Valid() && OldestWent(all, flat) && NoneTooMany(all, flat, bytes, maxBytes) && Narrower(bySender, boxes)
      ensures evicted && |flat| < |old(flat)|
    {
      ghost var before, was := flat, bySender;
      ghost var k;
      evicted, k := EvictOldest();
      if !evicted {
        NothingCounted(flat, bytes);
        assert false;
      } else {
        ShedStep(all, before, flat, k, bytes, maxBytes);
        NarrowerChain(bySender, was, boxes);
      }
    }

    // ---------- sweeping ----------

    predicate Quiet(p: Partial, now: int) {
      now - p.at > ttl
    }

    method DropIfQuiet(s: string, i: string, now: int)
      requires Valid() && (s, i) in flat
      modifies this`bySender, this`bytes, this`flat
      ensures Valid() && flat == if Quiet(old(flat)[(s, i)], now) then old(flat) - {(s, i)} else old(flat)
      ensures Narrower(bySender, old(bySender)) && KeepsOthers(bySender, old(bySender), s)
    {
      if Quiet(bySender[s][i], now) { Drop(s, i); }
    }

    /** Those of one sender still to be looked at, and everything that is not quiet. */
    ghost function Sift(all: map<Key, Partial>, s: string, todo: set<string>, now: int): map<Key, Partial> {
      map k | k in all && (k.0 != s || k.1 in todo || !Quiet(all[k], now)) :: all[k]
    }

    lemma SiftNext(all: map<Key, Partial>, s: string, todo: set<string>, i: string, now: int)
      requires (s, i) in all && i in todo
      ensures (s, i) in Sift(all, s, todo, now) && Sift(all, s, todo, now)[(s, i)] == all[(s, i)]
      ensures Sift(all, s, todo - {i}, now) ==
              if Quiet(all[(s, i)], now) then Sift(all, s, todo, now) - {(s, i)} else Sift(all, s, todo, now)
    {
    }

    lemma SiftAll(all: map<Key, Partial>, s: string, todo: set<string>, now: int)
      requires forall k :: k in all && k.0 == s ==> k.1 in todo
      ensures Sift(all, s, todo, now) == all
    {
    }

    method SweepSender(s: string, now: int)
      requires Valid() && s in bySender
      modifies this`bySender, this`bytes, this`flat
      ensures Valid() && Narrower(bySender, old(bySender)) && KeepsOthers(bySender, old(bySender), s)
      ensures flat == Sift(old(flat), s, {}, now)
    {
      var todo := bySender[s].Keys;
      ghost var all, boxes := flat, bySender;
      SiftAll(all, s, todo, now);
      forall i | i in todo ensures (s, i) in all {}
      while todo != {}
        invariant Valid() && Narrower(bySender, boxes) && KeepsOthers(bySender, boxes, s)
        invariant flat == Sift(all, s, todo, now) && forall i :: i in todo ==> (s, i) in all
        decreases todo
      {
        var i :| i in todo;
        SiftNext(all, s, todo, i, now);
        ghost var mid := bySender;
        DropIfQuiet(s, i, now);
        NarrowerChain(bySender, mid, boxes);
        OthersChain(bySender, mid, boxes, s);
        todo := todo - {i};
      }
    }

    function FreshDone(d: seq<(string, int)>, now: int): seq<(string, int)>
      decreases |d|
    {
      if |d| == 0 then []
      else FreshDone(d[..|d| - 1], now) + if now - d[|d| - 1].1 > ttl then [] else [d[|d| - 1]]
    }

    function Capped(d: seq<(string, int)>): seq<(string, int)> {
      if |d| > DONE_CAP then d[|d| - DONE_CAP..] else d
    }

    /** What is still remembered as delivered: at most 4096, none past its time, and of those in time the last. */
    lemma {:induction false} RememberedDone(d: seq<(string, int)>, now: int)
      ensures |Capped(FreshDone(d, now))| <= 4096
      ensures forall e :: e in FreshDone(d, now) <==> e in d && now - e.1 <= ttl
      ensures |FreshDone(d, now)| <= 4096 ==> Capped(FreshDone(d, now)) == FreshDone(d, now)
      ensures |FreshDone(d, now)| > 4096 ==>
                |Capped(FreshDone(d, now))| == 4096
                && FreshDone(d, now) == FreshDone(d, now)[..|FreshDone(d, now)| - 4096] + Capped(FreshDone(d, now))
      decreases |d|
    {
      if |d| > 0 {
        var k := |d| - 1;
        assert d == d[..k] + [d[k]];
        RememberedDone(d[..k], now);
      }
    }

    method SweepDone(now: int)
      modifies this`done
      ensures done == Capped(FreshDone(old(done), now))
    {
      var kept: seq<(string, int)> := [];
      for n := 0 to |done|
        invariant kept == FreshDone(done[..n], now) && done == old(done)
      {
        assert done[..n + 1][..n] == done[..n];
        if now - done[n].1 <= ttl { kept := kept + [done[n]]; }
      }
      assert done[..|done|] == done;
      ghost var all := kept;
      while |kept| > DONE_CAP
        invariant |kept| <= |all| && kept == all[|all| - |kept|..] && (|kept| >= DONE_CAP || kept == all)
      {
        kept := kept[1..];
      }
      done := kept;
    }

    /** Drop what has gone quiet, and expire the record of what was delivered. */
    method Sweep(now: int)
      requires Valid()
      modifies this
      ensures Valid() && Narrower(bySender, old(bySender))
      ensures flat == Awake(old(flat), {}, now)
      ensures forall k :: k in flat <==> k in old(flat) && now - old(flat)[k].at <= ttl
      ensures done == Capped(FreshDone(old(done), now))
    {
      var todo := bySender.Keys;
      ghost var all, boxes := flat, bySender;
      AwakeAll(all, todo, now);
      while todo != {}
        invariant Valid() && Narrower(bySender, boxes) && todo <= bySender.Keys
        invariant flat == Awake(all, todo, now) && done == old(done)
        decreases todo
      {
        var s :| s in todo;
        ghost var mid := bySender;
        AwakeNext(all, todo, s, now);
        SweepSender(s, now);
        NarrowerChain(bySender, mid, boxes);
        todo := todo - {s};
      }
      SweepDone(now);
    }

    /** Everything of the senders still to be looked at, and what is not quiet of the rest. */
    ghost function Awake(all: map<Key, Partial>, todo: set<string>, now: int): map<Key, Partial> {
      map k | k in all && (k.0 in todo || !Quiet(all[k], now)) :: all[k]
    }

    lemma AwakeNext(all: map<Key, Partial>, todo: set<string>, s: string, now: int)
      requires s in todo
      ensures Awake(all, todo - {s}, now) == Sift(Awake(all, todo, now), s, {}, now)
    {
    }

    lemma AwakeAll(all: map<Key, Partial>, todo: set<string>, now: int)
      requires forall k :: k in all ==> k.0 in todo
      ensures Awake(all, todo, now) == all
    {
    }

    // ---------- accepting a part ----------

    /** How many partials one sender may keep; the newest is always let in. */
    function Cap(): nat {
      if maxPartialPerSender == 0 then 1 else maxPartialPerSender
    }

    /** What holds between calls: exact counters, both bounds, and nothing finished left lying. */
    ghost predicate Tidy()
      reads this
    {
      Valid() && bytes <= maxBytes && WithinCaps(bySender, Cap()) && Unfinished(flat)
    }

    predicate WellShaped(index: int, total: int, part: string) {
      1 <= total <= MAX_PARTS && 0 <= index < total && |part| <= maxPartLen
    }

    /** What is there for a message before the part goes in. */
    ghost function Before(all: map<Key, Partial>, k: Key, total: nat, now: int): Partial {
      if k in all && all[k].total == total then all[k] else Partial(total, Empty(total), 0, 0, now)
    }

    method Forget(s: string, i: string)
      requires Valid()
      modifies this`bySender, this`bytes, this`flat
      ensures Valid() && flat == old(flat) - {(s, i)} && Narrower(bySender, old(bySender)) && bytes <= old(bytes)
      ensures (s, i) !in old(flat) ==> unchanged(this)
    {
      if s in bySender && i in bySender[s] {
        Drop(s, i);
      } else {
        assert flat - {(s, i)} == flat;
      }
    }

    /** Cap the flooder: a sender at its limit loses its quietest partial. */
    method MakeRoom(s: string)
      requires Valid() && WithinCaps(bySender, Cap())
      modifies this`bySender, this`bytes, this`flat
      ensures Valid() && Within(flat, old(flat)) && WithinCaps(bySender, Cap()) && bytes <= old(bytes)
      ensures s in bySender ==> |bySender[s]| < Cap()
      ensures (s !in old(bySender) || |old(bySender)[s]| < maxPartialPerSender) ==> unchanged(this)
    {
      if s in bySender && |bySender[s]| >= maxPartialPerSender {
        ghost var boxes := bySender;
        EvictOldestOf(s);
        NarrowerCaps(bySender, boxes, Cap());
      }
    }

    method OpenNew(s: string, i: string, total: nat, now: int)
      requires Valid() && (s, i) !in flat && 1 <= total <= MAX_PARTS && WithinCaps(bySender, Cap())
      modifies this`bySender, this`bytes, this`flat
      ensures Valid() && (s, i) in flat && flat[(s, i)] == Partial(total, Empty(total), 0, 0, now)
      ensures Within(flat - {(s, i)}, old(flat)) && WithinCaps(bySender, Cap()) && bytes <= old(bytes)
      ensures (s !in old(bySender) || |old(bySender)[s]| < maxPartialPerSender) ==>
                flat == old(flat)[(s, i) := Partial(total, Empty(total), 0, 0, now)] && bytes == old(bytes)
    {
      MakeRoom(s);
      EmptyCounts(total);
      var p := Partial(total, Empty(total), 0, 0, now);
      PutCaps(bySender, s, i, p, Cap());
      Put(s, i, p, 0);
    }

    /** A partial of this shape for the message: the one there, or a new one. */
    method Enter(s: string, i: string, total: nat, now: int)
      requires Valid() && 1 <= total <= MAX_PARTS && WithinCaps(bySender, Cap())
      modifies this`bySender, this`bytes, this`flat
      ensures Valid() && (s, i) in flat && flat[(s, i)] == Before(old(flat), (s, i), total, now)
      ensures Within(flat - {(s, i)}, old(flat)) && WithinCaps(bySender, Cap()) && bytes <= old(bytes)
      ensures old(RoomFor(s, i, total)) ==> flat == old(flat)[(s, i) := Before(old(flat), (s, i), total, now)]
    {
      if s in bySender && i in bySender[s] && bySender[s][i].total == total {
        PutSame(flat, (s, i));
        return;
      }
      ghost var all := flat;
      ghost var room := RoomFor(s, i, total);
      ForgetShape(s, i);
      ghost var rest := flat;
      OpenNew(s, i, total, now);
      ReplacedOne(all, rest, flat, (s, i));
    }

    method ForgetShape(s: string, i: string)
      requires Valid() && WithinCaps(bySender, Cap())
      modifies this`bySender, this`bytes, this`flat
      ensures Valid() && flat == old(flat) - {(s, i)} && WithinCaps(bySender, Cap()) && bytes <= old(bytes)
      ensures s !in old(bySender) || |old(bySender)[s]| < maxPartialPerSender ==>
                s !in bySender || |bySender[s]| < maxPartialPerSender
    {
      ghost var boxes := bySender;
      Forget(s, i);
      NarrowerCaps(bySender, boxes, Cap());
      if s in bySender { SmallerBox(bySender[s], boxes[s]); }
    }

    /** No other partial of the sender has to go. */
    ghost predicate RoomFor(s: string, i: string, total: nat)
      reads this
    {
      ((s, i) in flat && flat[(s, i)].total == total) || s !in bySender || |bySender[s]| < maxPartialPerSender
    }

    method FillIn(s: string, i: string, index: nat, part: string, now: int)
      requires Valid() && (s, i) in flat && index < flat[(s, i)].total && WithinCaps(bySender, Cap())
      modifies this`bySender, this`bytes, this`flat
      ensures Valid() && (s, i) in old(flat) && WithinCaps(bySender, Cap())
      ensures flat == old(flat)[(s, i) := Fill(old(flat)[(s, i)], index, part, now)] && bytes <= old(bytes) + |part|
    {
      var p := bySender[s][i];
      if p.parts[index].None? { FillCounts(p.parts, index, part); }
      PutCaps(bySender, s, i, Fill(p, index, part, now), Cap());
      Put(s, i, Fill(p, index, part, now), if p.parts[index].None? then |part| else 0);
    }

    /** Deliver the message if its last part is in and nothing evicted it. */
    method Finish(s: string, i: string, now: int) returns (r: Option<seq<byte>>)
      requires Valid() && bytes <= maxBytes && WithinCaps(bySender, Cap()) && Unfinished(flat - {(s, i)})
      modifies this
      ensures Tidy()
      ensures r.Some? <==> (s, i) in old(flat) && old(flat)[(s, i)].have == old(flat)[(s, i)].total
      ensures r.None? ==> flat == old(flat) && done == old(done)
      ensures r.Some? ==>
                && flat == old(flat) - {(s, i)} && done == old(done) + [(KeyText(s, i), now)]
                && AllIn(old(flat)[(s, i)].parts) && r.value == Decode(Join(Texts(old(flat)[(s, i)].parts)))
    {
      if s !in bySender || i !in bySender[s] {
        DropNothing(flat, (s, i));
        return None;
      }
      var p := bySender[s][i];
      FilledAll(p.parts);
      if p.have != p.total {
        StillUnfinished(flat, (s, i));
        return None;
      }
      r := Some(Decode(Join(Texts(p.parts))));
      Deliver(s, i, now);
    }

    method Deliver(s: string, i: string, now: int)
      requires Valid() && bytes <= maxBytes && WithinCaps(bySender, Cap()) && Unfinished(flat - {(s, i)})
      modifies this
      ensures Tidy() && flat == old(flat) - {(s, i)} && done == old(done) + [(KeyText(s, i), now)]
    {
      ghost var boxes := bySender;
      Forget(s, i);
      NarrowerCaps(bySender, boxes, Cap());
      done := done + [(KeyText(s, i), now)];
    }

    /** A message already delivered and still remembered as such. */
    predicate Remembered(d: seq<(string, int)>, s: string, i: string) {
      exists n :: 0 <= n < |d| && d[n].0 == KeyText(s, i)
    }

    ghost predicate TrueParts(sent: map<Key, seq<string>>, s: string, i: string, index: int, total: int, part: string) {
      (s, i) in sent ==> total == |sent[(s, i)]| && (0 <= index < total ==> part == sent[(s, i)][index])
    }

    /** Take in one part; `p` is its message with the part in. `sent` is, for whatever messages it is known, the
        parts they were really cut into; every part shown for those is one of them. With room for it, the part of a
        message not yet delivered fills its slot among what is not quiet, and completes the message if it was the
        last. */
    method Accept(s: string, i: string, index: int, total: int, part: string, now: int,
                  ghost sent: map<Key, seq<string>>)
      returns (r: Option<seq<byte>>, ghost p: Partial)
      requires Tidy() && Faithful(flat, sent) && TrueParts(sent, s, i, index, total, part)
      modifies this
      ensures Tidy() && Faithful(flat, sent)
      ensures r.Some? && (s, i) in sent ==> r.value == Decode(Join(sent[(s, i)]))
      ensures !WellShaped(index, total, part) ==> r.None? && unchanged(this)
      ensures WellShaped(index, total, part) && r.None? ==> done == StillDone(old(done), now)
      ensures r.Some? ==> done == StillDone(old(done), now) + [(KeyText(s, i), now)] && Remembered(done, s, i)
      ensures WellShaped(index, total, part) && Remembered(StillDone(old(done), now), s, i) ==>
                r.None? && flat == Awake(old(flat), {}, now)
      ensures WellShaped(index, total, part) && !Remembered(StillDone(old(done), now), s, i) ==>
                && p == With(Awake(old(flat), {}, now), (s, i), index, total, part, now)
                && OthersKept(Awake(old(flat), {}, now), flat, (s, i), p, r)
      ensures WellShaped(index, total, part) && !Remembered(StillDone(old(done), now), s, i) && old(Roomy(s, part)) ==>
                FilledIn(Awake(old(flat), {}, now), flat, (s, i), p, r)
    {
      p := With(flat, (s, i), index, total, part, now);
      if total < 1 || total > MAX_PARTS || index < 0 || index >= total || |part| > maxPartLen { return None, p; }
      ghost var boxes := bySender;
      SweepTidy(now, sent);
      if s in bySender { SmallerBox(bySender[s], boxes[s]); }
      var echo := Remembered(done, s, i);
      if echo { return None, p; }
      r, p := TakeIn(s, i, index, total, part, now, sent);
      if r.Some? { assert done[|done| - 1].0 == KeyText(s, i); }
    }

    /** What is left of the record of deliveries at that time. */
    function StillDone(d: seq<(string, int)>, now: int): seq<(string, int)> {
      Capped(FreshDone(d, now))
    }

    /** The sender is below its limit and the bytes below theirs. */
    ghost predicate Roomy(s: string, part: string)
      reads this
    {
      (s !in bySender || |bySender[s]| < maxPartialPerSender) && bytes + |part| <= maxBytes
    }

    /** This message once the part is in. */
    ghost function With(all: map<Key, Partial>, k: Key, index: int, total: int, part: string, now: int): Partial {
      var p := if total < 0 then Partial(0, [], 0, 0, now) else Before(all, k, total, now);
      if 0 <= index < |p.parts| then Fill(p, index, part, now) else p
    }

    /** The slot was filled if it was empty, and the message delivered if none is left. */
    ghost predicate FilledIn(before: map<Key, Partial>, after: map<Key, Partial>, k: Key, p: Partial,
                             r: Option<seq<byte>>)
    {
      && (r.Some? <==> AllIn(p.parts))
      && (r.Some? ==> r.value == Decode(Join(Texts(p.parts))) && after == before - {k})
      && (r.None? ==> after == before[k := p])
    }

    /** Whatever had to go, what is left is as it was, but for this message with its slot filled; and nothing but
        that, whole, is delivered. */
    ghost predicate OthersKept(before: map<Key, Partial>, after: map<Key, Partial>, k: Key, p: Partial,
                               r: Option<seq<byte>>)
    {
      && Within(after - {k}, before) && (k in after ==> after[k] == p)
      && (r.Some? ==> AllIn(p.parts) && r.value == Decode(Join(Texts(p.parts))))
    }

    method SweepTidy(now: int, ghost sent: map<Key, seq<string>>)
      requires Tidy() && Faithful(flat, sent)
      modifies this
      ensures Tidy() && Faithful(flat, sent)
      ensures flat == Awake(old(flat), {}, now) && done == StillDone(old(done), now)
      ensures Narrower(bySender, old(bySender)) && bytes <= old(bytes)
    {
      ghost var boxes, all := bySender, flat;
      Sweep(now);
      NarrowerCaps(bySender, boxes, Cap());
      WithinCounts(flat, bytes, all, old(bytes));
    }

    /** The part goes in; partials may have to go; the message may be whole. With room for it, exactly
        this happens: the slot is filled if it was empty, and the message delivered if none is left. */
    method TakeIn(s: string, i: string, index: nat, total: nat, part: string, now: int,
                  ghost sent: map<Key, seq<string>>)
      returns (r: Option<seq<byte>>, ghost p: Partial)
      requires Tidy() && Faithful(flat, sent) && WellShaped(index, total, part)
                 && TrueParts(sent, s, i, index, total, part)
      modifies this
      ensures p == With(old(flat), (s, i), index, total, part, now)
      ensures Tidy() && Faithful(flat, sent)
      ensures r.Some? && (s, i) in sent ==> r.value == Decode(Join(sent[(s, i)]))
      ensures r.None? ==> done == old(done)
      ensures r.Some? ==> done == old(done) + [(KeyText(s, i), now)]
      ensures old(RoomFor(s, i, total)) && old(bytes) + |part| <= maxBytes ==>
                FilledIn(old(flat), flat, (s, i), p, r)
      ensures OthersKept(old(flat), flat, (s, i), p, r)
    {
      ghost var all, fits := flat, RoomFor(s, i, total) && bytes + |part| <= maxBytes;
      p := With(flat, (s, i), index, total, part, now);
      Insert(s, i, index, total, part, now, sent, p);
      r := TakeRest(s, i, now, sent, p, all, fits);
    }

    method TakeRest(s: string, i: string, now: int, ghost sent: map<Key, seq<string>>, ghost p: Partial,
                    ghost all: map<Key, Partial>, ghost fits: bool)
      returns (r: Option<seq<byte>>)
      requires Valid() && WithinCaps(bySender, Cap()) && Faithful(flat, sent) && Unfinished(flat - {(s, i)})
      requires (s, i) in flat && flat[(s, i)] == p && Within(flat - {(s, i)}, all)
      requires fits ==> flat == all[(s, i) := p] && bytes <= maxBytes
      modifies this
      ensures Tidy() && Faithful(flat, sent)
      ensures r.Some? && (s, i) in sent ==> r.value == Decode(Join(sent[(s, i)]))
      ensures r.None? ==> done == old(done)
      ensures r.Some? ==> done == old(done) + [(KeyText(s, i), now)]
      ensures OthersKept(all, flat, (s, i), p, r) && (fits ==> FilledIn(all, flat, (s, i), p, r))
    {
      ghost var filled := flat;
      r := ShedAndConclude(s, i, now, sent, p);
      TookIn(all, filled, flat, (s, i), p, r);
    }

    lemma TookIn(all: map<Key, Partial>, filled: map<Key, Partial>, after: map<Key, Partial>, k: Key, p: Partial,
                 r: Option<seq<byte>>)
      requires Within(filled - {k}, all) && Within(after, filled) && k in filled && filled[k] == p
      requires r.Some? ==> AllIn(p.parts) && r.value == Decode(Join(Texts(p.parts)))
      ensures OthersKept(all, after, k, p, r)
      ensures filled == all[k := p] && FilledIn(filled, after, k, p, r) ==> FilledIn(all, after, k, p, r)
    {
      forall x | x in after - {k} ensures x in all && (after - {k})[x] == all[x] { assert x in filled - {k}; }
      DropPut(all, k, p);
      if filled == all[k := p] { assert filled[k := p] == filled; }
    }

    method ShedAndConclude(s: string, i: string, now: int, ghost sent: map<Key, seq<string>>, ghost p: Partial)
      returns (r: Option<seq<byte>>)
      requires Valid() && WithinCaps(bySender, Cap()) && Faithful(flat, sent) && Unfinished(flat - {(s, i)})
      requires (s, i) in flat && flat[(s, i)] == p
      modifies this
      ensures Tidy() && Faithful(flat, sent)
      ensures r.Some? && (s, i) in sent ==> r.value == Decode(Join(sent[(s, i)]))
      ensures r.None? ==> done == old(done)
      ensures r.Some? ==> done == old(done) + [(KeyText(s, i), now)]
      ensures Within(flat, old(flat)) && (r.Some? ==> AllIn(p.parts) && r.value == Decode(Join(Texts(p.parts))))
      ensures old(bytes) <= maxBytes ==> FilledIn(old(flat), flat, (s, i), p, r)
    {
      ghost var filled := flat;
      ShedKeeping(s, i, sent);
      r := Conclude(s, i, now, sent);
      PutSame(filled, (s, i));
    }

    method Conclude(s: string, i: string, now: int, ghost sent: map<Key, seq<string>>) returns (r: Option<seq<byte>>)
      requires Valid() && bytes <= maxBytes && WithinCaps(bySender, Cap()) && Faithful(flat, sent)
                 && Unfinished(flat - {(s, i)})
      modifies this
      ensures Tidy() && Faithful(flat, sent)
      ensures r.Some? && (s, i) in sent ==> r.value == Decode(Join(sent[(s, i)]))
      ensures r.None? ==> done == old(done)
      ensures r.Some? ==> done == old(done) + [(KeyText(s, i), now)]
      ensures r.Some? <==> (s, i) in old(flat) && AllIn(old(flat)[(s, i)].parts)
      ensures r.Some? ==> r.value == Decode(Join(Texts(old(flat)[(s, i)].parts))) && flat == old(flat) - {(s, i)}
      ensures r.None? ==> flat == old(flat)
    {
      ghost var all := flat;
      if (s, i) in flat { FilledAll(flat[(s, i)].parts); }
      if (s, i) in sent && (s, i) in flat && AllIn(flat[(s, i)].parts) { WholeFaithful(flat[(s, i)], sent[(s, i)]); }
      r := Finish(s, i, now);
      WithinFaithful(flat, all, sent);
    }

    method Insert(s: string, i: string, index: nat, total: nat, part: string, now: int,
                  ghost sent: map<Key, seq<string>>, ghost p: Partial)
      requires Tidy() && Faithful(flat, sent) && WellShaped(index, total, part)
                 && TrueParts(sent, s, i, index, total, part)
      requires p == With(flat, (s, i), index, total, part, now)
      modifies this`bySender, this`bytes, this`flat
      ensures Valid() && WithinCaps(bySender, Cap()) && Faithful(flat, sent) && (s, i) in flat
                && Unfinished(flat - {(s, i)})
      ensures flat[(s, i)] == p && bytes <= old(bytes) + |part| && Within(flat - {(s, i)}, old(flat))
      ensures old(RoomFor(s, i, total)) ==> flat == old(flat)[(s, i) := p]
    {
      ghost var all := flat;
      Enter(s, i, total, now);
      ghost var mid := flat;
      FillIn(s, i, index, part, now);
      Inserted(all, mid, flat, (s, i), total, index, part, now, sent);
      UpdateTwice(all, (s, i), mid[(s, i)], p);
    }

    lemma Inserted(all: map<Key, Partial>, mid: map<Key, Partial>, after: map<Key, Partial>, k: Key, total: nat,
                   index: nat, part: string, now: int, sent: map<Key, seq<string>>)
      requires Unfinished(all) && AllExact(all) && Faithful(all, sent) && 0 <= index < total <= MAX_PARTS
      requires k in mid && mid[k] == Before(all, k, total, now) && Within(mid - {k}, all)
      requires |mid[k].parts| == total && after == mid[k := Fill(mid[k], index, part, now)]
      requires k in sent ==> total == |sent[k]| && part == sent[k][index]
      ensures Faithful(after, sent) && Unfinished(after - {k}) && Within(after - {k}, all)
    {
      assert after - {k} == mid - {k};
      if k in sent { FillFaithful(mid[k], sent[k], index, now); }
      PutFaithful(all, after, k, sent);
    }

    method ShedKeeping(s: string, i: string, ghost sent: map<Key, seq<string>>)
      requires Valid() && WithinCaps(bySender, Cap()) && Faithful(flat, sent) && Unfinished(flat - {(s, i)})
      modifies this`bySender, this`bytes, this`flat
      ensures Valid() && bytes <= maxBytes && WithinCaps(bySender, Cap()) && Faithful(flat, sent)
                && Unfinished(flat - {(s, i)})
      ensures Within(flat, old(flat)) && (old(bytes) <= maxBytes ==> unchanged(this))
    {
      ghost var boxes, all := bySender, flat;
      Shed();
      NarrowerCaps(bySender, boxes, Cap());
      forall k | k in flat - {(s, i)} ensures flat[k].have < flat[k].total { assert k in all - {(s, i)}; }
    }
  }

  lemma {:induction false} WithinCounts(a: map<Key, Partial>, bytesA: nat, b: map<Key, Partial>, bytesB: nat)
    requires Within(a, b) && Counted(a, bytesA) && Counted(b, bytesB)
    ensures bytesA <= bytesB
  {
    var rest := Sizes(b) - Sizes(a).Keys;
    assert Sizes(b) == Sizes(a) + rest;
    TotalDisjoint(Sizes(a), rest);
  }

  lemma DropPut(all: map<Key, Partial>, k: Key, p: Partial)
    ensures all[k := p] - {k} == all - {k} && k in all[k := p] && all[k := p][k] == p
  {
  }

  lemma WithinFaithful(a: map<Key, Partial>, b: map<Key, Partial>, sent: map<Key, seq<string>>)
    requires Faithful(b, sent) && Within(a, b)
    ensures Faithful(a, sent)
  {
  }

  lemma DropNothing(flat: map<Key, Partial>, k: Key)
    requires k !in flat
    ensures flat - {k} == flat
  {
  }

  lemma StillUnfinished(flat: map<Key, Partial>, k: Key)
    requires k in flat && Unfinished(flat - {k}) && flat[k].have < flat[k].total
    ensures Unfinished(flat)
  {
    forall x | x in flat ensures flat[x].have < flat[x].total {
      if x != k { assert x in flat - {k}; }
    }
  }

  lemma PutSame(flat: map<Key, Partial>, k: Key)
    requires k in flat
    ensures flat[k := flat[k]] == flat && Within(flat - {k}, flat)
  {
  }

  lemma ReplacedOne(all: map<Key, Partial>, rest: map<Key, Partial>, after: map<Key, Partial>, k: Key)
    requires rest == all - {k} && k in after && Within(after - {k}, rest)
    ensures Within(after - {k}, all)
    ensures after == rest[k := after[k]] ==> after == all[k := after[k]]
  {
  }

  function KeyText(s: string, i: string): string {
    s + "|" + i
  }

  predicate AllIn(parts: seq<Option<string>>) {
    forall i :: 0 <= i < |parts| ==> parts[i].Some?
  }

  // ---------- the parts are what was sent ----------

  /** Every slot filled holds the true part. */
  ghost predicate PartsOf(p: Partial, sent: seq<string>) {
    p.total == |sent| && |p.parts| == |sent| && forall i :: 0 <= i < |sent| && p.parts[i].Some? ==>
        p.parts[i].value == sent[i]
  }

  ghost predicate Faithful(flat: map<Key, Partial>, sent: map<Key, seq<string>>) {
    forall k :: k in flat && k in sent ==> PartsOf(flat[k], sent[k])
  }

  lemma FillFaithful(p: Partial, sent: seq<string>, index: nat, now: int)
    requires PartsOf(p, sent) && index < |sent|
    ensures PartsOf(Fill(p, index, sent[index], now), sent)
  {
  }

  lemma WholeFaithful(p: Partial, sent: seq<string>)
    requires PartsOf(p, sent) && AllIn(p.parts)
    ensures Texts(p.parts) == sent
  {
  }

  lemma PutFaithful(before: map<Key, Partial>, after: map<Key, Partial>, k: Key, sent: map<Key, seq<string>>)
    requires Faithful(before, sent) && Within(after - {k}, before) && k in after
               && (k in sent ==> PartsOf(after[k], sent[k]))
    ensures Faithful(after, sent)
  {
    forall x | x in after && x in sent ensures PartsOf(after[x], sent[x]) {
      if x != k { assert x in after - {k}; }
    }
  }
}
