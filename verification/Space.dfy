/** The stand-in proof of space: a Merkle tree over a plot's leaves, the best leaf for a challenge, and
    its recovery by a verifier (src/pos/space.ts). */
module Space {
  import opened Primitives
  import opened Anchors

  /** The three uses of SHA-256: a tree node, a leaf of an identity's plot, a leaf's quality. */
  datatype Hashes = Hashes(node: (string, string) -> string, leaf: (string, nat) -> string,
                           quality: (string, string) -> string)

  function Pow2(k: nat): pos {
    if k == 0 then 1 else 2 * Pow2(k - 1)
  }

  // ---------- the tree ----------

  /** The layer above, its last node paired with itself when it has no partner. */
  function NextLayer(h: Hashes, cur: seq<string>): seq<string> {
    seq((|cur| + 1) / 2, i requires 0 <= i < (|cur| + 1) / 2 =>
      h.node(cur[2 * i], if 2 * i + 1 < |cur| then cur[2 * i + 1] else cur[2 * i]))
  }

  function Layers(h: Hashes, leaves: seq<string>): seq<seq<string>>
    decreases |leaves|
  {
    if |leaves| <= 1 then [leaves] else [leaves] + Layers(h, NextLayer(h, leaves))
  }

  function Root(h: Hashes, leaves: seq<string>): string
    requires |leaves| > 0
    decreases |leaves|
  {
    if |leaves| == 1 then leaves[0] else Root(h, NextLayer(h, leaves))
  }

  /** `i ^ 1`. */
  function Partner(i: nat): nat {
    if i % 2 == 1 then i - 1 else i + 1
  }

  function Sibling(cur: seq<string>, i: nat): string
    requires i < |cur|
  {
    if Partner(i) < |cur| then cur[Partner(i)] else cur[i]
  }

  function PathOf(h: Hashes, leaves: seq<string>, i: nat): seq<string>
    requires i < |leaves|
    decreases |leaves|
  {
    if |leaves| <= 1 then [] else [Sibling(leaves, i)] + PathOf(h, NextLayer(h, leaves), i / 2)
  }

  /** What a verifier computes from a leaf and a path. */
  function Climb(h: Hashes, x: string, i: nat, path: seq<string>): string
    decreases |path|
  {
    if |path| == 0 then x
    else Climb(h, if i % 2 == 1 then h.node(path[0], x) else h.node(x, path[0]), i / 2, path[1..])
  }

  method PairUp(h: Hashes, cur: seq<string>) returns (next: seq<string>)
    ensures next == NextLayer(h, cur)
  {
    next := [];
    var i := 0;
    while i < |cur|
      invariant 0 <= i <= |cur| + 1 && i == 2 * |next| && |next| <= |NextLayer(h, cur)|
      invariant forall j :: 0 <= j < |next| ==> next[j] == NextLayer(h, cur)[j]
      decreases |cur| + 1 - i
    {
      var right := if i + 1 < |cur| then cur[i + 1] else cur[i];
      next := next + [h.node(cur[i], right)];
      i := i + 2;
    }
  }

  method BuildMerkle(h: Hashes, leaves: seq<string>) returns (layers: seq<seq<string>>)
    ensures layers == Layers(h, leaves)
  {
    layers := [leaves];
    var cur := leaves;
    while |cur| > 1
      invariant |layers| > 0 && layers[|layers| - 1] == cur
      invariant Layers(h, leaves) == layers[..|layers| - 1] + Layers(h, cur)
      decreases |cur|
    {
      var next := PairUp(h, cur);
      ghost var before := layers;
      layers := layers + [next];
      assert layers[..|layers| - 1] == before == before[..|before| - 1] + [cur];
      cur := next;
    }
    assert layers == layers[..|layers| - 1] + [cur];
  }

  /** Each layer is paired up from the one below, until one node is left. */
  ghost predicate Stacked(h: Hashes, layers: seq<seq<string>>) {
    && |layers| > 0 && |layers[|layers| - 1]| <= 1
    && forall l {:trigger layers[l]} :: 0 <= l < |layers| - 1 ==> |layers[l]| > 1 && Above(h, layers, l)
  }

  ghost predicate Above(h: Hashes, layers: seq<seq<string>>, l: nat)
    requires l + 1 < |layers|
  {
    layers[l + 1] == NextLayer(h, layers[l])
  }

  lemma {:induction false} LayersStacked(h: Hashes, leaves: seq<string>)
    ensures Stacked(h, Layers(h, leaves)) && Layers(h, leaves)[0] == leaves
    decreases |leaves|
  {
    if |leaves| > 1 {
      var all, rest := Layers(h, leaves), Layers(h, NextLayer(h, leaves));
      LayersStacked(h, NextLayer(h, leaves));
      forall l | 0 <= l < |all| - 1 ensures |all[l]| > 1 && Above(h, all, l) {
        if l > 0 { assert rest[l - 1] == all[l] && rest[l] == all[l + 1] && Above(h, rest, l - 1); }
      }
    }
  }

  lemma {:induction false} RootIsLast(h: Hashes, leaves: seq<string>)
    requires |leaves| > 0
    ensures var layers := Layers(h, leaves); |layers[|layers| - 1]| == 1 && layers[|layers| - 1][0] == Root(h, leaves)
    decreases |leaves|
  {
    if |leaves| > 1 { RootIsLast(h, NextLayer(h, leaves)); }
  }

  lemma PathNext(h: Hashes, cur: seq<string>, i: nat)
    requires i < |cur| && |cur| > 1
    ensures i / 2 < |NextLayer(h, cur)| && PathOf(h, cur, i) == [Sibling(cur, i)] + PathOf(h, NextLayer(h, cur), i / 2)
  {
  }

  method SiblingIn(layer: seq<string>, i: nat) returns (node: string)
    requires i < |layer|
    ensures node == Sibling(layer, i)
  {
    var sib := Partner(i);
    node := if sib < |layer| then layer[sib] else layer[i];
  }

  method MerklePath(h: Hashes, layers: seq<seq<string>>, index: nat) returns (path: seq<string>)
    requires Stacked(h, layers) && index < |layers[0]|
    ensures path == PathOf(h, layers[0], index)
  {
    path := [];
    var idx: nat := index;
    for l := 0 to |layers| - 1
      invariant idx < |layers[l]| && PathOf(h, layers[0], index) == path + PathOf(h, layers[l], idx)
    {
      assert Above(h, layers, l);
      PathNext(h, layers[l], idx);
      ghost var rest := PathOf(h, layers[l + 1], idx / 2);
      var node := SiblingIn(layers[l], idx);
      assert path + ([node] + rest) == (path + [node]) + rest;
      path := path + [node];
      idx := idx / 2;
    }
  }

  method VerifyMerkle(h: Hashes, leaf: string, index: nat, path: seq<string>, root: string) returns (ok: bool)
    ensures ok <==> Climb(h, leaf, index, path) == root
  {
    var x := leaf;
    var idx: nat := index;
    for n := 0 to |path|
      invariant Climb(h, leaf, index, path) == Climb(h, x, idx, path[n..])
    {
      x := if idx % 2 == 1 then h.node(path[n], x) else h.node(x, path[n]);
      idx := idx / 2;
      assert path[n..][1..] == path[n + 1..];
    }
    ok := x == root;
  }

  lemma PairAt(h: Hashes, cur: seq<string>, i: nat)
    requires i < |cur| && |cur| > 1
    ensures i / 2 < |NextLayer(h, cur)|
    ensures NextLayer(h, cur)[i / 2] ==
              if i % 2 == 1 then h.node(Sibling(cur, i), cur[i]) else h.node(cur[i], Sibling(cur, i))
  {
  }

  /** The path of any leaf of any tree, odd layers included, leads to the root. */
  lemma {:induction false} PathComplete(h: Hashes, leaves: seq<string>, i: nat)
    requires i < |leaves|
    ensures Climb(h, leaves[i], i, PathOf(h, leaves, i)) == Root(h, leaves)
    decreases |leaves|
  {
    if |leaves| > 1 {
      PairAt(h, leaves, i);
      PathComplete(h, NextLayer(h, leaves), i / 2);
      var path := PathOf(h, leaves, i);
      assert path[1..] == PathOf(h, NextLayer(h, leaves), i / 2);
    }
  }

  ghost predicate CollisionFree(h: Hashes) {
    forall a, b, c, d :: h.node(a, b) == h.node(c, d) ==> a == c && b == d
  }

  /** A leaf of a plot is never a node over two others: their hashes are of different inputs. */
  ghost predicate LeavesApart(h: Hashes) {
    forall s, n, a, b {:trigger h.leaf(s, n), h.node(a, b)} :: h.leaf(s, n) != h.node(a, b)
  }

  ghost predicate IsLeaf(h: Hashes, x: string) {
    exists s, n {:trigger h.leaf(s, n)} :: h.leaf(s, n) == x
  }

  ghost predicate AllLeaves(h: Hashes, xs: seq<string>) {
    forall i :: 0 <= i < |xs| ==> IsLeaf(h, xs[i])
  }

  /** Only that leaf has a path of that length to it. */
  lemma {:induction false} SoundAtDepth(h: Hashes, leaves: seq<string>, i: nat, x: string, path: seq<string>)
    requires i < |leaves| && CollisionFree(h) && |path| == |PathOf(h, leaves, i)|
    requires Climb(h, x, i, path) == Root(h, leaves)
    ensures x == leaves[i] && path == PathOf(h, leaves, i)
    decreases |leaves|
  {
    if |leaves| > 1 {
      PairAt(h, leaves, i);
      var up := if i % 2 == 1 then h.node(path[0], x) else h.node(x, path[0]);
      SoundAtDepth(h, NextLayer(h, leaves), i / 2, up, path[1..]);
    }
  }

  /** The last step of a climb hashes what the rest of it reached. */
  lemma {:induction false} ClimbLast(h: Hashes, x: string, i: nat, path: seq<string>)
    requires |path| > 0
    ensures exists a, b :: Climb(h, x, i, path) == h.node(a, b)
              && (a == Climb(h, x, i, path[..|path| - 1]) || b == Climb(h, x, i, path[..|path| - 1]))
    decreases |path|
  {
    var up := if i % 2 == 1 then h.node(path[0], x) else h.node(x, path[0]);
    if |path| == 1 {
      assert path[..0] == [] && Climb(h, x, i, path) == up;
    } else {
      ClimbLast(h, up, i / 2, path[1..]);
      assert path[..|path| - 1][1..] == path[1..][..|path| - 2];
    }
  }

  lemma NodeAbove(h: Hashes, layers: seq<seq<string>>, j: nat, v: string) returns (l: string, r: string)
    requires Stacked(h, layers) && 0 < j < |layers| && v in layers[j]
    ensures v == h.node(l, r) && l in layers[j - 1] && r in layers[j - 1]
  {
    assert Above(h, layers, j - 1);
    var cur := layers[j - 1];
    var k :| 0 <= k < |layers[j]| && layers[j][k] == v;
    l, r := cur[2 * k], if 2 * k + 1 < |cur| then cur[2 * k + 1] else cur[2 * k];
  }

  lemma LeafIsNoNode(h: Hashes, x: string, a: string, b: string)
    requires LeavesApart(h) && IsLeaf(h, x)
    ensures x != h.node(a, b)
  {
    var s, n :| h.leaf(s, n) == x;
    assert h.leaf(s, n) != h.node(a, b);
  }

  /** A node `j` layers up is reached from a leaf only by climbing `j` steps. */
  lemma {:induction false} ClimbsItsHeight(h: Hashes, layers: seq<seq<string>>, j: nat, x: string, i: nat,
                                           path: seq<string>)
    requires Stacked(h, layers) && AllLeaves(h, layers[0]) && IsLeaf(h, x) && CollisionFree(h) && LeavesApart(h)
    requires j < |layers| && Climb(h, x, i, path) in layers[j]
    ensures |path| == j
    decreases j
  {
    var v := Climb(h, x, i, path);
    if |path| == 0 {
      if j > 0 {
        var l, r := NodeAbove(h, layers, j, v);
        LeafIsNoNode(h, x, l, r);
      }
    } else {
      ClimbLast(h, x, i, path);
      var y := Climb(h, x, i, path[..|path| - 1]);
      var a, b :| v == h.node(a, b) && (a == y || b == y);
      if j == 0 {
        LeafIsNoNode(h, v, a, b);
      } else {
        var l, r := NodeAbove(h, layers, j, v);
        ClimbsItsHeight(h, layers, j - 1, x, i, path[..|path| - 1]);
      }
    }
  }

  lemma {:induction false} DepthIsLayers(h: Hashes, leaves: seq<string>, i: nat)
    requires i < |leaves|
    ensures |PathOf(h, leaves, i)| + 1 == |Layers(h, leaves)|
    decreases |leaves|
  {
    if |leaves| > 1 { DepthIsLayers(h, NextLayer(h, leaves), i / 2); }
  }

  /** And a path of any length to the root, from a leaf of any plot, is that leaf's own. */
  lemma PathSound(h: Hashes, leaves: seq<string>, i: nat, x: string, path: seq<string>)
    requires i < |leaves| && AllLeaves(h, leaves) && IsLeaf(h, x) && CollisionFree(h) && LeavesApart(h)
    requires Climb(h, x, i, path) == Root(h, leaves)
    ensures x == leaves[i] && path == PathOf(h, leaves, i)
  {
    LayersStacked(h, leaves);
    RootIsLast(h, leaves);
    var layers := Layers(h, leaves);
    ClimbsItsHeight(h, layers, |layers| - 1, x, i, path);
    DepthIsLayers(h, leaves, i);
    SoundAtDepth(h, leaves, i, x, path);
  }

  // ---------- plots ----------

  datatype Plot = Plot(seed: string, k: nat, leaves: seq<string>, layers: seq<seq<string>>, root: string)

  function LeavesOf(h: Hashes, seed: string, n: nat): seq<string> {
    seq(n, i requires 0 <= i < n => h.leaf(seed, i))
  }

  ghost predicate Built(h: Hashes, p: Plot) {
    && |p.leaves| == Pow2(p.k) && p.leaves == LeavesOf(h, p.seed, Pow2(p.k))
    && Stacked(h, p.layers) && p.layers[0] == p.leaves && p.root == Root(h, p.leaves)
  }

  /** A plot of 2^k leaves bound to an identity, for k from 1 to 24. */
  method NewPlot(h: Hashes, seed: string, k: int) returns (r: Option<Plot>)
    ensures r.Some? <==> 1 <= k <= 24
    ensures r.Some? ==> Built(h, r.value) && r.value.seed == seed && r.value.k == k
  {
    if k < 1 || k > 24 { return None; }
    var leaves: seq<string> := [];
    for i := 0 to Pow2(k)
      invariant leaves == LeavesOf(h, seed, i)
    {
      leaves := leaves + [h.leaf(seed, i)];
    }
    var layers := BuildMerkle(h, leaves);
    LayersStacked(h, leaves);
    RootIsLast(h, leaves);
    r := Some(Plot(seed, k, leaves, layers, layers[|layers| - 1][0]));
  }

  /** The first leaf of the lowest quality. */
  ghost predicate Best(h: Hashes, leaves: seq<string>, challenge: string, n: nat, best: nat)
    requires n <= |leaves|
  {
    && best < n
    && (forall j :: 0 <= j < n ==> !StrLess(h.quality(leaves[j], challenge), h.quality(leaves[best], challenge)))
    && (forall j :: 0 <= j < best ==> StrLess(h.quality(leaves[best], challenge), h.quality(leaves[j], challenge)))
  }

  method BestLeaf(h: Hashes, leaves: seq<string>, challenge: string) returns (best: nat)
    requires |leaves| > 0
    ensures Best(h, leaves, challenge, |leaves|, best)
  {
    best := 0;
    var quality := h.quality(leaves[0], challenge);
    StrTrichotomy(quality, quality);
    for i := 1 to |leaves|
      invariant Best(h, leaves, challenge, i, best) && quality == h.quality(leaves[best], challenge)
    {
      var q := h.quality(leaves[i], challenge);
      BestNext(h, leaves, challenge, i, best);
      if StrLess(q, quality) {
        quality := q;
        best := i;
      }
    }
  }

  lemma BestNext(h: Hashes, leaves: seq<string>, challenge: string, i: nat, best: nat)
    requires i < |leaves| && Best(h, leaves, challenge, i, best)
    ensures Best(h, leaves, challenge, i + 1,
                 if StrLess(h.quality(leaves[i], challenge), h.quality(leaves[best], challenge)) then i else best)
  {
    var q, b := h.quality(leaves[i], challenge), h.quality(leaves[best], challenge);
    StrTrichotomy(q, q);
    StrTrichotomy(q, b);
    if StrLess(q, b) {
      forall j | 0 <= j < i
        ensures StrLess(q, h.quality(leaves[j], challenge)) && !StrLess(h.quality(leaves[j], challenge), q)
      {
        var x := h.quality(leaves[j], challenge);
        StrTrichotomy(x, b);
        if StrLess(b, x) { StrTransitive(q, b, x); }
        StrTrichotomy(q, x);
      }
    }
  }

  /** Answer a challenge with the best leaf and its path. */
  method Prove(h: Hashes, p: Plot, challenge: string) returns (proof: SpaceAnswer, quality: string)
    requires Built(h, p)
    ensures Best(h, p.leaves, challenge, |p.leaves|, proof.index)
    ensures proof == SpaceAnswer(proof.index, p.leaves[proof.index], PathOf(h, p.leaves, proof.index))
    ensures quality == h.quality(p.leaves[proof.index], challenge)
    ensures QualityOf(h, p.seed, p.root, p.k, challenge, proof) == Some(quality)
  {
    var best := BestLeaf(h, p.leaves, challenge);
    var path := MerklePath(h, p.layers, best);
    proof := SpaceAnswer(best, p.leaves[best], path);
    quality := h.quality(p.leaves[best], challenge);
    PathComplete(h, p.leaves, best);
  }

  /** The quality of a leaf that is this identity's, at this index, in the committed plot. */
  function QualityOf(h: Hashes, producer: string, root: string, k: nat, challenge: string,
                     proof: SpaceAnswer): Option<string> {
    var leaf := h.leaf(producer, proof.index);
    if proof.index < Pow2(k) && leaf == proof.value && Climb(h, leaf, proof.index, proof.path) == root
    then Some(h.quality(leaf, challenge)) else None
  }

  method RecoverSpaceQuality(h: Hashes, producer: string, root: string, k: nat, challenge: string, proof: SpaceAnswer)
      returns (r: Option<string>)
    ensures r == QualityOf(h, producer, root, k, challenge, proof)
  {
    if proof.index >= Pow2(k) { return None; }
    var leaf := h.leaf(producer, proof.index);
    if leaf != proof.value { return None; }
    var member := VerifyMerkle(h, leaf, proof.index, proof.path, root);
    if !member { return None; }
    r := Some(h.quality(leaf, challenge));
  }

  /** An answer recovered against a real plot is the leaf that plot holds at that index, and none is
      better than the one the plot itself would have answered with. */
  lemma RecoveredIsHeld(h: Hashes, p: Plot, challenge: string, proof: SpaceAnswer, best: nat)
    requires Built(h, p) && QualityOf(h, p.seed, p.root, p.k, challenge, proof).Some?
    requires Best(h, p.leaves, challenge, |p.leaves|, best)
    ensures proof.value == p.leaves[proof.index]
    ensures !StrLess(QualityOf(h, p.seed, p.root, p.k, challenge, proof).value, h.quality(p.leaves[best], challenge))
  {
  }

  /** Whatever its length, an accepted path is the one the plot itself would have given. */
  lemma AcceptedIsOwnPath(h: Hashes, p: Plot, challenge: string, proof: SpaceAnswer)
    requires Built(h, p) && CollisionFree(h) && LeavesApart(h)
    requires QualityOf(h, p.seed, p.root, p.k, challenge, proof).Some?
    ensures proof == SpaceAnswer(proof.index, p.leaves[proof.index], PathOf(h, p.leaves, proof.index))
  {
    forall i | 0 <= i < |p.leaves| ensures IsLeaf(h, p.leaves[i]) { assert p.leaves[i] == h.leaf(p.seed, i); }
    assert h.leaf(p.seed, proof.index) == proof.value;
    PathSound(h, p.leaves, proof.index, proof.value, proof.path);
  }
}
