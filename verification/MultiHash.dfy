/** Qt's `QMultiHash`: a key holds a list of values, newest first.

    Iterating visits every pair once. The order of the keys is unspecified, the values of one key
    come newest first. Every theorem below therefore speaks of an arbitrary listing. */
module MultiHashes {

  type MultiHash<K(==), V> = m: map<K, seq<V>> | forall k :: k in m ==> m[k] != []
    witness map[]

  function Get<K, V>(m: MultiHash<K, V>, k: K): seq<V> {
    if k in m then m[k] else []
  }

  /** `QMultiHash::insert`: an existing key keeps its older values behind the new one. */
  function Insert<K, V>(m: MultiHash<K, V>, k: K, v: V): MultiHash<K, V> {
    m[k := [v] + Get(m, k)]
  }

  function InsertAll<K, V>(m: MultiHash<K, V>, pairs: seq<(K, V)>): MultiHash<K, V>
    decreases |pairs|
  {
    if pairs == [] then m else InsertAll(Insert(m, pairs[0].0, pairs[0].1), pairs[1..])
  }

  function FromPairs<K(==), V>(pairs: seq<(K, V)>): MultiHash<K, V> {
    InsertAll(map[], pairs)
  }

  /** The values that a listing gives for one key, in listing order. */
  function Select<K(==), V>(pairs: seq<(K, V)>, k: K): seq<V> {
    if pairs == [] then []
    else (if pairs[0].0 == k then [pairs[0].1] else []) + Select(pairs[1..], k)
  }

  /** `pairs` is a possible iteration of `m`. */
  ghost predicate Lists<K(!new), V>(pairs: seq<(K, V)>, m: MultiHash<K, V>) {
    forall k :: Select(pairs, k) == Get(m, k)
  }

  /** Equality of two hashes as multisets of (key, value) pairs. */
  ghost predicate SamePairs<K(!new), V>(m: MultiHash<K, V>, n: MultiHash<K, V>) {
    forall k :: multiset(Get(m, k)) == multiset(Get(n, k))
  }

  function Reverse<T>(s: seq<T>): (r: seq<T>)
    ensures |r| == |s|
  {
    if s == [] then [] else Reverse(s[1..]) + [s[0]]
  }

  function ReverseEach<K, V>(m: MultiHash<K, V>): MultiHash<K, V> {
    map k | k in m :: Reverse(m[k])
  }

  lemma {:induction false} ReverseAppend<T>(a: seq<T>, b: seq<T>)
    ensures Reverse(a + b) == Reverse(b) + Reverse(a)
  {
    if a == [] {
      assert a + b == b;
    } else {
      assert (a + b)[1..] == a[1..] + b;
      ReverseAppend(a[1..], b);
    }
  }

  lemma {:induction false} ReverseTwice<T>(s: seq<T>)
    ensures Reverse(Reverse(s)) == s
  {
    if s != [] {
      ReverseTwice(s[1..]);
      ReverseAppend(Reverse(s[1..]), [s[0]]);
      assert Reverse([s[0]]) == [s[0]];
    }
  }

  lemma {:induction false} ReverseMultiset<T>(s: seq<T>)
    ensures multiset(Reverse(s)) == multiset(s)
  {
    if s != [] {
      ReverseMultiset(s[1..]);
      assert s == [s[0]] + s[1..];
    }
  }

  lemma {:induction false} SelectAppend<K, V>(a: seq<(K, V)>, b: seq<(K, V)>, k: K)
    ensures Select(a + b, k) == Select(a, k) + Select(b, k)
  {
    if a == [] {
      assert a + b == b;
    } else {
      assert (a + b)[1..] == a[1..] + b && (a + b)[0] == a[0];
      SelectAppend(a[1..], b, k);
      var own := if a[0].0 == k then [a[0].1] else [];
      assert own + (Select(a[1..], k) + Select(b, k)) == own + Select(a[1..], k) + Select(b, k);
    }
  }

  lemma ReverseFirst<T>(x: T, s: seq<T>, tail: seq<T>)
    ensures Reverse([x] + s) + tail == Reverse(s) + ([x] + tail)
  {
    assert ([x] + s)[1..] == s;
  }

  lemma SelectFirst<K, V>(pairs: seq<(K, V)>, k: K)
    requires pairs != []
    ensures Select(pairs, k) ==
            if pairs[0].0 == k then [pairs[0].1] + Select(pairs[1..], k) else Select(pairs[1..], k)
  {}

  /** Inserting a listing puts each key's listed values, reversed, in front of the old ones. */
  lemma {:induction false} InsertAllGet<K, V>(m: MultiHash<K, V>, pairs: seq<(K, V)>, k: K)
    ensures Get(InsertAll(m, pairs), k) == Reverse(Select(pairs, k)) + Get(m, k)
    decreases |pairs|
  {
    if pairs != [] {
      hide Reverse, Select;
      var (key, v) := pairs[0];
      InsertAllGet(Insert(m, key, v), pairs[1..], k);
      SelectFirst(pairs, k);
      ReverseFirst(v, Select(pairs[1..], k), Get(m, k));
    }
  }

  /** Re-inserting any iteration of a hash reverses the values of every key and nothing else. */
  lemma ReinsertReverses<K(!new), V>(pairs: seq<(K, V)>, m: MultiHash<K, V>)
    requires Lists(pairs, m)
    ensures FromPairs(pairs) == ReverseEach(m)
  {
    var r := FromPairs(pairs);
    forall k
      ensures Get(r, k) == Get(ReverseEach(m), k)
    {
      InsertAllGet(map[], pairs, k);
      assert Select(pairs, k) == Get(m, k);
    }
    EqualByGet(r, ReverseEach(m));
  }

  lemma EqualByGet<K(!new), V>(m: MultiHash<K, V>, n: MultiHash<K, V>)
    requires forall k :: Get(m, k) == Get(n, k)
    ensures m == n
  {
    forall k
      ensures k in m <==> k in n
      ensures k in m ==> m[k] == n[k]
    {
      assert Get(m, k) == Get(n, k);
    }
  }

  lemma ReverseEachSamePairs<K(!new), V>(m: MultiHash<K, V>)
    ensures SamePairs(m, ReverseEach(m))
  {
    forall k
      ensures multiset(Get(m, k)) == multiset(Get(ReverseEach(m), k))
    {
      ReverseMultiset(Get(m, k));
    }
  }

  lemma ReverseEachTwice<K(!new), V>(m: MultiHash<K, V>)
    ensures ReverseEach(ReverseEach(m)) == m
  {
    forall k | k in m
      ensures Reverse(Reverse(m[k])) == m[k]
    {
      ReverseTwice(m[k]);
    }
  }

  lemma {:induction false} PairCount<K, V>(pairs: seq<(K, V)>, k: K, v: V)
    ensures multiset(pairs)[(k, v)] == multiset(Select(pairs, k))[v]
  {
    if pairs != [] {
      PairCount(pairs[1..], k, v);
      assert pairs == [pairs[0]] + pairs[1..];
    }
  }

  lemma {:induction false} Selected<K, V>(pairs: seq<(K, V)>, i: nat)
    requires i < |pairs|
    ensures pairs[i].1 in Select(pairs, pairs[i].0)
  {
    if i > 0 {
      Selected(pairs[1..], i - 1);
    }
  }

  /** Two iterations of one hash visit the same pairs equally often. */
  lemma ListingsArePermutations<K(!new), V(!new)>(a: seq<(K, V)>, b: seq<(K, V)>, m: MultiHash<K, V>)
    requires Lists(a, m) && Lists(b, m)
    ensures multiset(a) == multiset(b) && |a| == |b|
  {
    forall p: (K, V)
      ensures multiset(a)[p] == multiset(b)[p]
    {
      PairCount(a, p.0, p.1);
      PairCount(b, p.0, p.1);
      assert Select(a, p.0) == Get(m, p.0) == Select(b, p.0);
    }
    assert multiset(a) == multiset(b);
    assert |a| == |multiset(a)| && |b| == |multiset(b)|;
  }

  /** `QMultiHash::size`: the number of pairs. */
  ghost function Size<K, V>(m: MultiHash<K, V>): nat
    decreases |m|
  {
    if m == map[] then 0
    else
      var k :| k in m;
      |m[k]| + Size(m - {k})
  }

  function Without<K(==), V>(pairs: seq<(K, V)>, k: K): seq<(K, V)> {
    if pairs == [] then [] else (if pairs[0].0 == k then [] else [pairs[0]]) + Without(pairs[1..], k)
  }

  lemma {:induction false} WithoutSelect<K, V>(pairs: seq<(K, V)>, k: K, q: K)
    ensures Select(Without(pairs, k), q) == if q == k then [] else Select(pairs, q)
    ensures |pairs| == |Select(pairs, k)| + |Without(pairs, k)|
  {
    if pairs != [] {
      WithoutSelect(pairs[1..], k, q);
      var rest := Without(pairs[1..], k);
      assert ([pairs[0]] + rest)[1..] == rest && [] + rest == rest;
    }
  }

  /** Every iteration visits as many pairs as the hash holds. */
  lemma {:induction false} ListingSize<K(!new), V>(pairs: seq<(K, V)>, m: MultiHash<K, V>)
    requires Lists(pairs, m)
    ensures |pairs| == Size(m)
    decreases |m|
  {
    assert pairs != [] ==> Select(pairs, pairs[0].0) == Get(m, pairs[0].0);
    if m != map[] {
      forall k | k in m
        ensures |m[k]| + Size(m - {k}) == |pairs|
      {
        var rest: MultiHash<K, V> := m - {k};
        forall q
          ensures Select(Without(pairs, k), q) == Get(rest, q)
        {
          WithoutSelect(pairs, k, q);
          assert Select(pairs, q) == Get(m, q);
        }
        ListingSize(Without(pairs, k), rest);
        WithoutSelect(pairs, k, k);
        assert Select(pairs, k) == Get(m, k);
      }
    }
  }

  function Tag<K, V>(k: K, vs: seq<V>): seq<(K, V)> {
    seq(|vs|, i requires 0 <= i < |vs| => (k, vs[i]))
  }

  lemma {:induction false} SelectTag<K, V>(k: K, vs: seq<V>, q: K)
    ensures Select(Tag(k, vs), q) == if q == k then vs else []
  {
    if vs != [] {
      assert Tag(k, vs)[1..] == Tag(k, vs[1..]);
      SelectTag(k, vs[1..], q);
    }
  }

  /** One pass of `for(const auto &[key, value] : hash.asKeyValueRange())`: the keys come in an
      order that the caller cannot predict. */
  method Iterate<K(!new, ==), V>(m: MultiHash<K, V>) returns (pairs: seq<(K, V)>)
    ensures Lists(pairs, m)
  {
    pairs := [];
    var left := m.Keys;
    while left != {}
      invariant left <= m.Keys
      invariant forall k :: Select(pairs, k) == if k in left then [] else Get(m, k)
      decreases |left|
    {
      var k :| k in left;
      forall q
        ensures Select(pairs + Tag(k, m[k]), q) == if q in left - {k} then [] else Get(m, q)
      {
        SelectAppend(pairs, Tag(k, m[k]), q);
        SelectTag(k, m[k], q);
      }
      pairs := pairs + Tag(k, m[k]);
      left := left - {k};
    }
  }
}
