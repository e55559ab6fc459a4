/**
 * PHP arrays used as dictionaries: keys kept in first-insertion order,
 * `$a[$k] = $v` updating an existing key in place and appending a new one.
 * The dashboard builds its histograms and per-client rollups this way.
 */
module OrderedMap {
  import opened Php

  type Entries<V> = seq<(string, V)>

  predicate HasKey<V>(m: Entries<V>, k: string) {
    exists i :: 0 <= i < |m| && m[i].0 == k
  }

  predicate DistinctKeys<V>(m: Entries<V>) {
    forall i, j :: 0 <= i < j < |m| ==> m[i].0 != m[j].0
  }

  /** Position of key k, if present: the first entry carrying it. */
  function Find<V>(m: Entries<V>, k: string): (r: Option<nat>)
    ensures r.Some? ==> r.value < |m| && m[r.value].0 == k
    ensures r.Some? ==> forall j :: 0 <= j < r.value ==> m[j].0 != k
    ensures r.None? <==> !HasKey(m, k)
  {
    if m == [] then None
    else if m[0].0 == k then Some(0)
    else
      match Find(m[1..], k)
      case Some(j) =>
        assert m[1..][j] == m[j + 1];
        Some(j + 1)
      case None =>
        assert forall i :: 1 <= i < |m| ==> m[i] == m[1..][i - 1];
        None
  }

  /** Two arrays with the same keys at the same positions find every key at
      the same place. */
  lemma {:induction false} FindSameKeys<V>(m: Entries<V>, n: Entries<V>, k: string)
    requires |m| == |n|
    requires forall j :: 0 <= j < |m| ==> m[j].0 == n[j].0
    ensures Find(m, k) == Find(n, k)
  {
    if m != [] && m[0].0 != k {
      FindSameKeys(m[1..], n[1..], k);
    }
  }

  /** Appending a different key leaves every other key where it was. */
  lemma {:induction false} FindAppend<V>(m: Entries<V>, e: (string, V), k: string)
    requires e.0 != k
    ensures Find(m + [e], k) == Find(m, k)
  {
    if m != [] && m[0].0 != k {
      assert (m + [e])[1..] == m[1..] + [e];
      FindAppend(m[1..], e, k);
    }
  }

  /** $m[$k] ?? $default */
  function GetOr<V>(m: Entries<V>, k: string, default: V): (r: V)
    ensures !HasKey(m, k) ==> r == default
  {
    match Find(m, k)
    case Some(i) => m[i].1
    case None => default
  }

  /** A present key reads the same whatever default is offered. */
  lemma GetOrIgnoresDefault<V>(m: Entries<V>, k: string, d1: V, d2: V)
    requires HasKey(m, k)
    ensures GetOr(m, k, d1) == GetOr(m, k, d2)
  {
  }

  /** array_values() */
  function ValuesOf<V>(m: Entries<V>): (r: seq<V>)
    ensures |r| == |m| && forall i :: 0 <= i < |m| ==> r[i] == m[i].1
  {
    seq(|m|, i requires 0 <= i < |m| => m[i].1)
  }

  /** $m[$k] = $v: overwrite in place if k is present, append otherwise. */
  function Put<V>(m: Entries<V>, k: string, v: V): (r: Entries<V>)
    ensures !HasKey(m, k) ==> r == m + [(k, v)]
  {
    match Find(m, k)
    case Some(i) => m[i := (k, v)]
    case None => m + [(k, v)]
  }

  /** After a Put, k reads v and every other key reads as before; the keys
      are the old ones plus k, in place, and stay distinct. */
  lemma PutFacts<V(!new)>(m: Entries<V>, k: string, v: V)
    ensures HasKey(m, k) ==> |Put(m, k, v)| == |m|
    ensures forall j :: 0 <= j < |m| && m[j].0 != k ==> Put(m, k, v)[j] == m[j]
    ensures forall k' :: HasKey(Put(m, k, v), k') <==> HasKey(m, k') || k' == k
    ensures forall d :: GetOr(Put(m, k, v), k, d) == v
    ensures forall k', d :: k' != k ==> GetOr(Put(m, k, v), k', d) == GetOr(m, k', d)
    ensures DistinctKeys(m) ==> DistinctKeys(Put(m, k, v))
  {
    var r := Put(m, k, v);
    match Find(m, k)
    case Some(i) =>
      assert forall k' :: Find(r, k') == Find(m, k') by {
        forall k' ensures Find(r, k') == Find(m, k') { FindSameKeys(r, m, k'); }
      }
      assert forall k' :: HasKey(r, k') <==> HasKey(m, k') by {
        forall k' ensures HasKey(r, k') <==> HasKey(m, k') {
          assert Find(r, k') == Find(m, k');
        }
      }
    case None =>
      assert r[|m|].0 == k;
      assert Find(r, k) == Some(|m|);
      assert forall k' :: k' != k ==> Find(r, k') == Find(m, k') by {
        forall k' | k' != k ensures Find(r, k') == Find(m, k') { FindAppend(m, (k, v), k'); }
      }
  }

  /** Sum of f over the values, in order. */
  function SumBy<V>(m: Entries<V>, f: V -> int): int {
    if m == [] then 0 else f(m[0].1) + SumBy(m[1..], f)
  }

  lemma {:induction false} SumByAppend<V>(m: Entries<V>, e: (string, V), f: V -> int)
    ensures SumBy(m + [e], f) == SumBy(m, f) + f(e.1)
  {
    if m != [] {
      assert (m + [e])[1..] == m[1..] + [e];
      SumByAppend(m[1..], e, f);
    }
  }

  lemma {:induction false} SumByUpdate<V>(m: Entries<V>, i: nat, e: (string, V), f: V -> int)
    requires i < |m|
    ensures SumBy(m[i := e], f) == SumBy(m, f) - f(m[i].1) + f(e.1)
  {
    if i > 0 {
      assert m[i := e][1..] == m[1..][i - 1 := e];
      SumByUpdate(m[1..], i - 1, e, f);
    }
  }

  /** Overwriting a key replaces its value's share of the sum; adding a key
      adds the new value's share. */
  lemma SumByPut<V>(m: Entries<V>, k: string, v: V, old_v: V, f: V -> int)
    requires HasKey(m, k) ==> old_v == GetOr(m, k, old_v)
    ensures HasKey(m, k) ==> SumBy(Put(m, k, v), f) == SumBy(m, f) - f(old_v) + f(v)
    ensures !HasKey(m, k) ==> SumBy(Put(m, k, v), f) == SumBy(m, f) + f(v)
  {
    match Find(m, k)
    case Some(i) => SumByUpdate(m, i, (k, v), f);
    case None => SumByAppend(m, (k, v), f);
  }

  // Counters: the `if (empty($c[$k])) { $c[$k] = 0; } $c[$k]++;` idiom.

  function CountOf(n: nat): int { n }

  /** Sum of all the counts. */
  function Total(c: Entries<nat>): int {
    SumBy(c, CountOf)
  }

  /** One more of k: `$c[$k] = ($c[$k] ?? 0) + 1`. */
  function Bump(c: Entries<nat>, k: string): Entries<nat> {
    Put(c, k, GetOr(c, k, 0) + 1)
  }

  /** A bump adds one to k's count and to the total, and touches no other
      count. */
  lemma BumpFacts(c: Entries<nat>, k: string)
    ensures Total(Bump(c, k)) == Total(c) + 1
    ensures GetOr(Bump(c, k), k, 0) == GetOr(c, k, 0) + 1
    ensures forall k' :: k' != k ==> GetOr(Bump(c, k), k', 0) == GetOr(c, k', 0)
    ensures forall k' :: HasKey(Bump(c, k), k') <==> HasKey(c, k') || k' == k
    ensures DistinctKeys(c) ==> DistinctKeys(Bump(c, k))
  {
    SumByPut(c, k, GetOr(c, k, 0) + 1, GetOr(c, k, 0), CountOf);
    PutFacts(c, k, GetOr(c, k, 0) + 1);
  }

  /** The source's counter idiom, `if (empty($c[$k])) { $c[$k] = 0; }
      $c[$k]++;`: a key holding 0 or missing is (re)set to 0 first. */
  function Increment(c: Entries<nat>, k: string): (r: Entries<nat>)
  {
    var c1 := if GetOr(c, k, 0) == 0 then Put(c, k, 0) else c;
    Put(c1, k, GetOr(c1, k, 0) + 1)
  }

  /** The reset is invisible: the idiom is Bump. */
  lemma IncrementIsBump(c: Entries<nat>, k: string)
    ensures Increment(c, k) == Bump(c, k)
  {
    if GetOr(c, k, 0) == 0 {
      match Find(c, k)
      case Some(i) =>
        assert c[i] == (k, 0);
        assert Put(c, k, 0) == c;
      case None =>
        var c1 := c + [(k, 0)];
        assert Put(c, k, 0) == c1;
        assert Find(c1, k) == Some(|c|) by {
          assert c1[|c|].0 == k;
          assert HasKey(c1, k);
        }
        assert Put(c1, k, 1) == c + [(k, 1)];
    }
  }

  /** The counter a foreach of Bump steps builds from an empty array. */
  function Tally(xs: seq<string>): Entries<nat> {
    if xs == [] then [] else Bump(Tally(xs[..|xs| - 1]), xs[|xs| - 1])
  }

  /** Each key's count is its number of occurrences; the counts add up to the
      number of items; keys are exactly the items seen, each once. */
  lemma {:induction false} TallyCounts(xs: seq<string>)
    ensures DistinctKeys(Tally(xs))
    ensures Total(Tally(xs)) == |xs|
    ensures forall k :: GetOr(Tally(xs), k, 0) == multiset(xs)[k]
    ensures forall k :: HasKey(Tally(xs), k) <==> k in xs
  {
    if xs != [] {
      var init, last := xs[..|xs| - 1], xs[|xs| - 1];
      TallyCounts(init);
      var before := Tally(init);
      assert Tally(xs) == Bump(before, last);
      BumpFacts(before, last);
      assert xs == init + [last];
      assert multiset(xs) == multiset(init) + multiset{last};
      forall k ensures GetOr(Tally(xs), k, 0) == multiset(xs)[k] {
        if k == last {
          assert GetOr(Tally(xs), k, 0) == GetOr(before, k, 0) + 1;
        } else {
          assert GetOr(Tally(xs), k, 0) == GetOr(before, k, 0);
        }
      }
      forall k ensures HasKey(Tally(xs), k) <==> k in xs {
        assert k in xs <==> k in init || k == last;
      }
    }
  }
}
