/** Sequence helpers standing for `Array.prototype.filter`, `find` and the
    `reduce` into a counting record (`acc[k] = (acc[k] || 0) + 1`) that the
    dashboard uses. A counting record is kept as an association list in
    insertion order, which is the order `Object.entries` reports for the
    non-numeric keys involved. */
module Seqs {

  /** `s.filter(p)`: the elements satisfying `p`, in their original order. */
  function Filter<T(!new)>(s: seq<T>, p: T -> bool): (r: seq<T>)
    ensures |r| <= |s|
    ensures forall x :: x in r <==> x in s && p(x)
    decreases |s|
  {
    if |s| == 0 then [] else (if p(s[0]) then [s[0]] else []) + Filter(s[1..], p)
  }

  /** Filtering distributes over concatenation, so it keeps the relative
      order of the elements it retains. */
  lemma {:induction false} FilterAppend<T(!new)>(a: seq<T>, b: seq<T>, p: T -> bool)
    ensures Filter(a + b, p) == Filter(a, p) + Filter(b, p)
    decreases |a|
  {
    if |a| == 0 {
      assert a + b == b;
    } else {
      assert (a + b)[0] == a[0];
      assert (a + b)[1..] == a[1..] + b;
      FilterAppend(a[1..], b, p);
    }
  }

  /** `s.filter(p).length`. */
  function Count<T(!new)>(s: seq<T>, p: T -> bool): nat {
    |Filter(s, p)|
  }

  /** Counting splits over a disjunction of two exclusive conditions. */
  lemma {:induction false} CountDisjoint<T(!new)>(s: seq<T>, p: T -> bool, q: T -> bool, pq: T -> bool)
    requires forall x :: pq(x) == (p(x) || q(x))
    requires forall x :: !(p(x) && q(x))
    ensures Count(s, pq) == Count(s, p) + Count(s, q)
    decreases |s|
  {
    if |s| > 0 {
      CountDisjoint(s[1..], p, q, pq);
    }
  }

  /** Every element satisfies exactly one of `p` and its negation `np`. */
  lemma {:induction false} CountComplement<T(!new)>(s: seq<T>, p: T -> bool, np: T -> bool)
    requires forall x :: np(x) == !p(x)
    ensures Count(s, p) + Count(s, np) == |s|
    decreases |s|
  {
    if |s| > 0 {
      CountComplement(s[1..], p, np);
    }
  }

  /** `s.map(f)`. */
  function Map<T, U>(s: seq<T>, f: T -> U): (r: seq<U>)
    ensures |r| == |s|
    ensures forall i :: 0 <= i < |s| ==> r[i] == f(s[i])
  {
    seq(|s|, i requires 0 <= i < |s| => f(s[i]))
  }

  /** Counting a key among the mapped values is counting the elements that
      map to it. */
  lemma {:induction false} OccurrencesOfMap<T(!new), K(!new)>(s: seq<T>, f: T -> K, k: K, p: T -> bool)
    requires forall x :: p(x) == (f(x) == k)
    ensures Occurrences(Map(s, f), k) == Count(s, p)
    decreases |s|
  {
    if |s| > 0 {
      OccurrencesOfMap(s[1..], f, k, p);
      assert Map(s, f)[1..] == Map(s[1..], f);
    }
  }

  /** Number of occurrences of `k` in `s`. */
  function Occurrences<K(==,!new)>(s: seq<K>, k: K): nat {
    Count(s, x => x == k)
  }

  /** `s.find(p)`, as the position of the first element satisfying `p`. */
  function FindIndex<T>(s: seq<T>, p: T -> bool): (r: int)
    ensures -1 <= r < |s|
    ensures r >= 0 ==> p(s[r]) && forall j :: 0 <= j < r ==> !p(s[j])
    ensures r == -1 <==> forall j :: 0 <= j < |s| ==> !p(s[j])
    decreases |s|
  {
    if |s| == 0 then -1
    else if p(s[0]) then 0
    else
      var i := FindIndex(s[1..], p);
      if i == -1 then -1 else i + 1
  }

  // ---------------------------------------------------------------------
  // Counting records
  // ---------------------------------------------------------------------

  type Tallies<K> = seq<(K, nat)>

  /** The keys of a record kept as key/value pairs, in insertion order. */
  function Keys<K, V>(t: seq<(K, V)>): (ks: seq<K>)
    ensures |ks| == |t|
  {
    seq(|t|, i requires 0 <= i < |t| => t[i].0)
  }

  predicate DistinctKeys<K(==)>(t: Tallies<K>) {
    forall i, j :: 0 <= i < j < |t| ==> t[i].0 != t[j].0
  }

  predicate PositiveCounts<K>(t: Tallies<K>) {
    forall i :: 0 <= i < |t| ==> t[i].1 >= 1
  }

  /** `acc[k] || 0`. */
  function Lookup<K(==)>(t: Tallies<K>, k: K): nat
    decreases |t|
  {
    if |t| == 0 then 0 else if t[0].0 == k then t[0].1 else Lookup(t[1..], k)
  }

  /** Sum of the counts in a record. */
  function Total<K>(t: Tallies<K>): nat
    decreases |t|
  {
    if |t| == 0 then 0 else t[0].1 + Total(t[1..])
  }

  /** `acc[k] = (acc[k] || 0) + 1`. */
  function Bump<K(==)>(t: Tallies<K>, k: K): Tallies<K>
    decreases |t|
  {
    if |t| == 0 then [(k, 1)]
    else if t[0].0 == k then [(k, t[0].1 + 1)] + t[1..]
    else [t[0]] + Bump(t[1..], k)
  }

  /** The keys of a record with an entry put in front. */
  lemma KeysCons<K, V>(x: (K, V), t: seq<(K, V)>)
    ensures Keys([x] + t) == [x.0] + Keys(t)
  {
    assert forall i :: 0 <= i < |t| ==> Keys([x] + t)[i + 1] == Keys(t)[i];
  }

  /** Bumping keeps the existing keys in place and appends a new key at the end. */
  lemma {:induction false} BumpKeys<K>(t: Tallies<K>, k: K)
    ensures Keys(Bump(t, k)) == if k in Keys(t) then Keys(t) else Keys(t) + [k]
    decreases |t|
  {
    if |t| == 0 {
      assert Keys(Bump(t, k)) == [k];
    } else {
      assert t == [t[0]] + t[1..];
      KeysCons(t[0], t[1..]);
      if t[0].0 == k {
        KeysCons((k, t[0].1 + 1), t[1..]);
      } else {
        BumpKeys(t[1..], k);
        KeysCons(t[0], Bump(t[1..], k));
      }
    }
  }

  /** An entry whose key is new keeps the keys distinct when put in front. */
  lemma DistinctCons<K>(x: (K, nat), t: Tallies<K>)
    requires DistinctKeys(t) && x.0 !in Keys(t)
    ensures DistinctKeys([x] + t)
  {
    var r := [x] + t;
    forall i, j | 0 <= i < j < |r|
      ensures r[i].0 != r[j].0
    {
      if i == 0 {
        assert r[j].0 == Keys(t)[j - 1];
      } else {
        assert r[i] == t[i - 1] && r[j] == t[j - 1];
      }
    }
  }

  /** The first key of a record with distinct keys does not reappear when a
      different key is bumped in the rest of it. */
  lemma FirstKeyStaysUnique<K>(t: Tallies<K>, k: K)
    requires |t| > 0 && t[0].0 != k && DistinctKeys(t)
    ensures t[0].0 !in Keys(Bump(t[1..], k))
  {
    BumpKeys(t[1..], k);
    forall m | 0 <= m < |t| - 1
      ensures Keys(t[1..])[m] != t[0].0
    {
      assert Keys(t[1..])[m] == t[m + 1].0;
    }
  }

  /** Bumping keeps keys distinct and counts positive. */
  lemma {:induction false} BumpWellFormed<K>(t: Tallies<K>, k: K)
    requires DistinctKeys(t) && PositiveCounts(t)
    ensures DistinctKeys(Bump(t, k)) && PositiveCounts(Bump(t, k))
    decreases |t|
  {
    if |t| > 0 && t[0].0 != k {
      BumpWellFormed(t[1..], k);
      FirstKeyStaysUnique(t, k);
      DistinctCons(t[0], Bump(t[1..], k));
    }
  }

  /** Bumping adds one to the count of `k` and changes no other count. */
  lemma {:induction false} BumpLookup<K>(t: Tallies<K>, k: K, j: K)
    ensures Lookup(Bump(t, k), j) == Lookup(t, j) + (if j == k then 1 else 0)
    decreases |t|
  {
    if |t| > 0 && t[0].0 != k {
      BumpLookup(t[1..], k, j);
      assert ([t[0]] + Bump(t[1..], k))[1..] == Bump(t[1..], k);
    } else if |t| > 0 {
      assert ([(k, t[0].1 + 1)] + t[1..])[1..] == t[1..];
    }
  }

  /** Bumping adds one to the total. */
  lemma {:induction false} BumpTotal<K>(t: Tallies<K>, k: K)
    ensures Total(Bump(t, k)) == Total(t) + 1
    decreases |t|
  {
    if |t| > 0 && t[0].0 != k {
      BumpTotal(t[1..], k);
      assert ([t[0]] + Bump(t[1..], k))[1..] == Bump(t[1..], k);
    } else if |t| > 0 {
      assert ([(k, t[0].1 + 1)] + t[1..])[1..] == t[1..];
    }
  }

  /** The record `keys.reduce` builds: one entry per distinct key, holding
      that key's number of occurrences; the counts add up to the number of
      keys. The entries' order is not stated. */
  function Tally<K(==,!new)>(keys: seq<K>): (r: Tallies<K>)
    ensures DistinctKeys(r) && PositiveCounts(r)
    ensures forall k :: k in Keys(r) <==> k in keys
    ensures forall k :: Lookup(r, k) == Occurrences(keys, k)
    ensures Total(r) == |keys|
    decreases |keys|
  {
    if |keys| == 0 then []
    else
      var init := keys[..|keys| - 1];
      var last := keys[|keys| - 1];
      var prev := Tally(init);
      var r := Bump(prev, last);
      assert keys == init + [last];
      BumpKeys(prev, last);
      BumpWellFormed(prev, last);
      BumpTotal(prev, last);
      forall k
        ensures Lookup(r, k) == Occurrences(keys, k)
      {
        BumpLookup(prev, last, k);
        FilterAppend(init, [last], x => x == k);
      }
      r
  }

  /** A key that is absent from the record reads as 0, and a present one
      reads as at least 1. */
  lemma {:induction false} LookupPositive<K(!new)>(t: Tallies<K>, k: K)
    requires PositiveCounts(t)
    ensures k in Keys(t) <==> Lookup(t, k) >= 1
    decreases |t|
  {
    if |t| > 0 {
      assert Keys(t) == [t[0].0] + Keys(t[1..]);
      LookupPositive(t[1..], k);
    }
  }
}
