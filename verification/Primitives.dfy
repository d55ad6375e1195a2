/** Shared vocabulary: optional values, the order JavaScript's `<` gives to strings,
    and finite sums over maps. */
module Primitives {

  datatype Option<+T> = None | Some(value: T)

  type Id = string

  /** Amounts the parser lets through are at least one base unit. */
  type pos = n: int | 1 <= n witness 1

  // ---------- string order ----------

  predicate StrLess(a: string, b: string) {
    if |b| == 0 then false
    else if |a| == 0 then true
    else if a[0] != b[0] then a[0] < b[0]
    else StrLess(a[1..], b[1..])
  }

  lemma {:induction false} StrTrichotomy(a: string, b: string)
    ensures a == b || StrLess(a, b) || StrLess(b, a)
    ensures !(StrLess(a, b) && StrLess(b, a))
    ensures StrLess(a, b) ==> a != b
  {
    if |a| > 0 && |b| > 0 && a[0] == b[0] {
      StrTrichotomy(a[1..], b[1..]);
      assert a == [a[0]] + a[1..] && b == [b[0]] + b[1..];
    } else if |a| == |b| == 0 {
    }
  }

  lemma {:induction false} StrTransitive(a: string, b: string, c: string)
    requires StrLess(a, b) && StrLess(b, c)
    ensures StrLess(a, c)
  {
    if |a| > 0 && a[0] == b[0] == c[0] {
      StrTransitive(a[1..], b[1..], c[1..]);
    }
  }

  /** `a` and `b` are alike up to `k`, where `a` ends or has the lower code unit. */
  predicate LessFrom(a: string, b: string, k: nat) {
    && k <= |a| && k < |b| && (forall i :: 0 <= i < k ==> a[i] == b[i])
    && (k == |a| || a[k] < b[k])
  }

  /** The first difference decides, and of a string and a longer one it begins, the shorter comes first. */
  lemma {:induction false} StrLessAt(a: string, b: string)
    ensures StrLess(a, b) <==> exists k: nat :: LessFrom(a, b, k)
    decreases |a|
  {
    if |a| == 0 {
      if |b| > 0 { assert LessFrom(a, b, 0); }
    } else if |b| > 0 {
      if a[0] == b[0] {
        StrLessAt(a[1..], b[1..]);
        if k: nat :| LessFrom(a[1..], b[1..], k) { assert LessFrom(a, b, k + 1); }
        if k: nat :| LessFrom(a, b, k) { assert LessFrom(a[1..], b[1..], k - 1); }
      } else {
        if a[0] < b[0] { assert LessFrom(a, b, 0); }
      }
    }
  }

  // ---------- products and quotients ----------

  function CeilDiv(a: nat, b: pos): nat {
    (a + b - 1) / b
  }

  lemma Distribute(a: int, b: int, c: int)
    ensures (a + b) * c == a * c + b * c
  {
  }

  lemma ProductCommutes(a: int, b: int)
    ensures a * b == b * a
  {
  }

  lemma ProductOrder(x: int, y: int, d: nat)
    requires x <= y
    ensures x * d <= y * d && d * x <= d * y
  {
  }

  lemma DivIs(n: nat, d: pos, q: nat)
    requires q * d <= n < q * d + d
    ensures n / d == q
  {
    var z := n / d;
    assert n == z * d + n % d;
    if z < q {
      ProductOrder(z + 1, q, d);
    } else if z > q {
      ProductOrder(q + 1, z, d);
    }
  }

  lemma DivNext(n: nat, d: pos)
    ensures (n + d) / d == n / d + 1
  {
    var q := n / d;
    assert n == q * d + n % d;
    assert (q + 1) * d == q * d + d;
    DivIs(n + d, d, q + 1);
  }

  // ---------- sums over maps ----------

  ghost function Total<K>(m: map<K, nat>): nat {
    if m == map[] then 0 else var k :| k in m; m[k] + Total(m - {k})
  }

  lemma {:induction false} TotalRemove<K>(m: map<K, nat>, k: K)
    requires k in m
    ensures Total(m) == m[k] + Total(m - {k})
    decreases m
  {
    var j :| j in m && Total(m) == m[j] + Total(m - {j});
    if j != k {
      TotalRemove(m - {j}, k);
      TotalRemove(m - {k}, j);
      assert m - {j} - {k} == m - {k} - {j};
    }
  }

  lemma TotalAdd<K>(m: map<K, nat>, k: K, v: nat)
    requires k !in m
    ensures Total(m[k := v]) == Total(m) + v
  {
    TotalRemove(m[k := v], k);
    assert m[k := v] - {k} == m;
  }

  /** Taking one more key out of `todo` brings its value into the sum over the rest. */
  lemma TotalNext<K>(m: map<K, nat>, todo: set<K>, k: K)
    requires k in m && k in todo
    ensures Total(m - (todo - {k})) == Total(m - todo) + m[k]
  {
    assert m - (todo - {k}) == (m - todo)[k := m[k]];
    TotalAdd(m - todo, k, m[k]);
  }

  lemma {:induction false} TotalDisjoint<K>(a: map<K, nat>, b: map<K, nat>)
    requires a.Keys !! b.Keys
    ensures Total(a + b) == Total(a) + Total(b)
    decreases b
  {
    if b == map[] {
      assert a + b == a;
    } else {
      var k :| k in b;
      TotalDisjoint(a, b - {k});
      TotalRemove(b, k);
      TotalRemove(a + b, k);
      assert a + b - {k} == a + (b - {k});
    }
  }

  lemma {:induction false} TotalBelow<K>(a: map<K, nat>, b: map<K, nat>)
    requires a.Keys == b.Keys
    requires forall k :: k in a ==> a[k] <= b[k]
    ensures Total(a) <= Total(b)
    decreases a
  {
    if a != map[] {
      var k :| k in a;
      TotalRemove(a, k);
      TotalRemove(b, k);
      TotalBelow(a - {k}, b - {k});
    }
  }

  lemma TotalPositive<K>(m: map<K, nat>)
    requires forall k :: k in m ==> 1 <= m[k]
    ensures Total(m) == 0 <==> m == map[]
  {
    if m != map[] {
      var k :| k in m;
      TotalRemove(m, k);
    }
  }

  /** A map covered by three disjoint parts sums to their sums. */
  lemma TotalCover<K>(all: map<K, nat>, a: map<K, nat>, b: map<K, nat>, c: map<K, nat>)
    requires a.Keys !! b.Keys && a.Keys !! c.Keys && b.Keys !! c.Keys
    requires all == a + b + c
    ensures Total(all) == Total(a) + Total(b) + Total(c)
  {
    TotalDisjoint(a, b);
    TotalDisjoint(a + b, c);
  }

  lemma SetSame<K, V>(m: map<K, V>, k: K)
    requires k in m
    ensures m[k := m[k]] == m
  {
  }

  lemma UpdateTwice<K, V>(m: map<K, V>, k: K, a: V, b: V)
    ensures m[k := a][k := b] == m[k := b]
  {
  }

  ghost function Elements<T>(q: seq<T>): set<T> {
    set x | x in q
  }

  lemma Shift<T>(done: seq<T>, rest: seq<T>)
    requires |rest| > 0
    ensures done + rest == (done + [rest[0]]) + rest[1..]
  {
  }
}
