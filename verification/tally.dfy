/** Group-by-count in order of first appearance.

    This is the fold that the dashboard runs twice over a list of click
    records: an accumulator object starts empty and, for each key,
    `acc[key] = (acc[key] || 0) + 1`; `Object.keys` later lists the keys.
    The fold here treats the accumulator as a clean map that lists keys in
    insertion order, which is what a JavaScript object does for keys that
    are neither integer-like nor names inherited from `Object.prototype`
    (such as `__proto__` or `constructor`). Here the accumulator is a sequence of
    buckets, and the reference meaning of a count is the multiplicity of the
    key in the input, `multiset(keys)[k]`. */
module Tally {

  datatype Bucket = Bucket(key: string, clicks: nat)

  /** The keys of the buckets, in order. */
  function Keys(b: seq<Bucket>): (ks: seq<string>)
    ensures |ks| == |b|
    ensures forall i :: 0 <= i < |b| ==> ks[i] == b[i].key
  {
    if |b| == 0 then [] else [b[0].key] + Keys(b[1..])
  }

  /** No key is listed twice. */
  predicate DistinctKeys(b: seq<Bucket>)
  {
    forall i, j :: 0 <= i < j < |b| ==> b[i].key != b[j].key
  }

  /** Every reported count is at least one. */
  predicate AllPositive(b: seq<Bucket>)
  {
    forall i :: 0 <= i < |b| ==> b[i].clicks >= 1
  }

  /** The count reported for `k`, reading the first bucket with that key;
      zero when no bucket has it (`acc[k] || 0`). */
  function CountOf(b: seq<Bucket>, k: string): nat
  {
    if |b| == 0 then 0
    else if b[0].key == k then b[0].clicks
    else CountOf(b[1..], k)
  }

  /** The sum of all reported counts. */
  function Total(b: seq<Bucket>): nat
  {
    if |b| == 0 then 0 else b[0].clicks + Total(b[1..])
  }

  /** Position of the first occurrence of `k` in `s`. */
  function FirstIndex(s: seq<string>, k: string): (i: nat)
    requires k in s
    ensures i < |s| && s[i] == k
    ensures forall j :: 0 <= j < i ==> s[j] != k
  {
    if s[0] == k then 0 else 1 + FirstIndex(s[1..], k)
  }

  /** One step of the fold: `acc[k] = (acc[k] || 0) + 1`. */
  function Bump(b: seq<Bucket>, k: string): (r: seq<Bucket>)
  {
    if |b| == 0 then [Bucket(k, 1)]
    else if b[0].key == k then [Bucket(k, b[0].clicks + 1)] + b[1..]
    else [b[0]] + Bump(b[1..], k)
  }

  /** The whole fold, one `Bump` per key, left to right. */
  function Count(keys: seq<string>): (r: seq<Bucket>)
  {
    if |keys| == 0 then []
    else Bump(Count(keys[..|keys| - 1]), keys[|keys| - 1])
  }

  // ---------------------------------------------------------------------
  // One step

  /** A bump raises the count of its own key by one and no other count. */
  lemma {:induction false} BumpCountOf(b: seq<Bucket>, k: string, j: string)
    ensures CountOf(Bump(b, k), j) == CountOf(b, j) + (if j == k then 1 else 0)
  {
    if |b| == 0 {
    } else if b[0].key == k {
      assert Bump(b, k)[1..] == b[1..];
    } else {
      assert Bump(b, k)[1..] == Bump(b[1..], k);
      BumpCountOf(b[1..], k, j);
    }
  }

  /** A bump adds exactly one to the total. */
  lemma {:induction false} BumpTotal(b: seq<Bucket>, k: string)
    ensures Total(Bump(b, k)) == Total(b) + 1
  {
    if |b| == 0 {
    } else if b[0].key == k {
      assert Bump(b, k)[1..] == b[1..];
    } else {
      assert Bump(b, k)[1..] == Bump(b[1..], k);
      BumpTotal(b[1..], k);
    }
  }

  /** A bump keeps the key list when the key is already there, and appends
      the key at the end otherwise. */
  lemma {:induction false} BumpKeys(b: seq<Bucket>, k: string)
    ensures k in Keys(b) ==> Keys(Bump(b, k)) == Keys(b)
    ensures k !in Keys(b) ==> Keys(Bump(b, k)) == Keys(b) + [k]
  {
    if |b| == 0 {
    } else if b[0].key == k {
      assert Bump(b, k)[1..] == b[1..];
      assert Keys(Bump(b, k)) == [k] + Keys(b[1..]);
    } else {
      assert Bump(b, k)[1..] == Bump(b[1..], k);
      BumpKeys(b[1..], k);
      assert Keys(b) == [b[0].key] + Keys(b[1..]);
      assert k in Keys(b) <==> k in Keys(b[1..]);
      assert Keys(Bump(b, k)) == [b[0].key] + Keys(Bump(b[1..], k));
    }
  }

  /** A bump never creates a zero count. */
  lemma {:induction false} BumpPositive(b: seq<Bucket>, k: string)
    requires AllPositive(b)
    ensures AllPositive(Bump(b, k))
  {
    if |b| == 0 {
    } else if b[0].key == k {
      assert Bump(b, k)[1..] == b[1..];
    } else {
      assert AllPositive(b[1..]) by {
        forall i | 0 <= i < |b[1..]| ensures b[1..][i].clicks >= 1 {
          assert b[1..][i] == b[i + 1];
        }
      }
      BumpPositive(b[1..], k);
      var r := Bump(b, k);
      assert r == [b[0]] + Bump(b[1..], k);
      forall i | 0 <= i < |r| ensures r[i].clicks >= 1 {
        if i > 0 {
          assert r[i] == Bump(b[1..], k)[i - 1];
        }
      }
    }
  }

  // ---------------------------------------------------------------------
  // The whole fold

  /** Splitting off the last key: `Count` over `s + [x]` is one more bump. */
  lemma CountSnoc(s: seq<string>, x: string)
    ensures Count(s + [x]) == Bump(Count(s), x)
  {
  }

  /** Each key's count is its number of occurrences in the input; in
      particular a key is reported (count above zero) exactly when it occurs. */
  lemma {:induction false} CountMatchesOccurrences(keys: seq<string>, k: string)
    ensures CountOf(Count(keys), k) == multiset(keys)[k]
  {
    if |keys| > 0 {
      var n := |keys| - 1;
      var prefix := keys[..n];
      assert keys == prefix + [keys[n]];
      CountMatchesOccurrences(prefix, k);
      BumpCountOf(Count(prefix), keys[n], k);
    }
  }

  /** The counts add up to the number of input keys. */
  lemma {:induction false} CountTotal(keys: seq<string>)
    ensures Total(Count(keys)) == |keys|
  {
    if |keys| > 0 {
      var n := |keys| - 1;
      CountTotal(keys[..n]);
      BumpTotal(Count(keys[..n]), keys[n]);
    }
  }

  /** The reported keys are exactly the input's distinct keys, each listed
      once, and every reported count is at least one. */
  lemma {:induction false} CountWellFormed(keys: seq<string>)
    ensures DistinctKeys(Count(keys))
    ensures AllPositive(Count(keys))
    ensures forall k :: k in Keys(Count(keys)) <==> k in keys
  {
    if |keys| > 0 {
      var n := |keys| - 1;
      var prefix := keys[..n];
      var x := keys[n];
      assert keys == prefix + [x];
      CountWellFormed(prefix);
      var b := Count(prefix);
      BumpKeys(b, x);
      BumpPositive(b, x);
      var r := Count(keys);
      assert r == Bump(b, x);
      forall i, j | 0 <= i < j < |r| ensures r[i].key != r[j].key {
        assert Keys(r)[i] == r[i].key && Keys(r)[j] == r[j].key;
        if x in Keys(b) {
          assert Keys(b)[i] == b[i].key && Keys(b)[j] == b[j].key;
        } else if j < |b| {
          assert Keys(b)[i] == b[i].key && Keys(b)[j] == b[j].key;
        } else {
          assert Keys(b)[i] == b[i].key;
        }
      }
    }
  }

  /** Buckets appear in the order in which their keys first appear in the
      input. */
  lemma {:induction false} CountFirstAppearanceOrder(keys: seq<string>)
    ensures forall k :: k in Keys(Count(keys)) ==> k in keys
    ensures forall i, j :: 0 <= i < j < |Count(keys)| ==>
      Count(keys)[i].key in keys && Count(keys)[j].key in keys &&
      FirstIndex(keys, Count(keys)[i].key) < FirstIndex(keys, Count(keys)[j].key)
  {
    CountWellFormed(keys);
    if |keys| > 0 {
      var n := |keys| - 1;
      var prefix := keys[..n];
      var x := keys[n];
      assert keys == prefix + [x];
      CountFirstAppearanceOrder(prefix);
      CountWellFormed(prefix);
      var b := Count(prefix);
      BumpKeys(b, x);
      var r := Count(keys);
      assert r == Bump(b, x);
      forall i, j | 0 <= i < j < |r|
        ensures r[i].key in keys && r[j].key in keys
        ensures FirstIndex(keys, r[i].key) < FirstIndex(keys, r[j].key)
      {
        assert Keys(r)[i] == r[i].key && Keys(r)[j] == r[j].key;
        assert Keys(b)[i] == b[i].key;
        assert b[i].key in Keys(b);
        FirstIndexExtend(prefix, x, b[i].key);
        if j < |b| {
          assert Keys(b)[j] == b[j].key;
          assert b[j].key in Keys(b);
          FirstIndexExtend(prefix, x, b[j].key);
        } else {
          assert x !in Keys(b) && r[j].key == x && x !in prefix;
          FirstIndexNew(prefix, x);
        }
      }
    }
  }

  /** Three keys of one day and one of another give two buckets, in that
      order, with counts three and one. */
  lemma TwoDayExample(d1: string, d2: string)
    requires d1 != d2
    ensures Count([d1, d1, d1, d2]) == [Bucket(d1, 3), Bucket(d2, 1)]
  {
    CountSnoc([], d1);
    assert [] + [d1] == [d1];
    CountSnoc([d1], d1);
    assert [d1] + [d1] == [d1, d1];
    CountSnoc([d1, d1], d1);
    assert [d1, d1] + [d1] == [d1, d1, d1];
    CountSnoc([d1, d1, d1], d2);
    assert [d1, d1, d1] + [d2] == [d1, d1, d1, d2];
  }

  /** Extending a sequence does not move the first occurrence of a key it
      already holds. */
  lemma {:induction false} FirstIndexExtend(s: seq<string>, x: string, k: string)
    requires k in s
    ensures k in s + [x]
    ensures FirstIndex(s + [x], k) == FirstIndex(s, k)
  {
    if s[0] != k {
      assert (s + [x])[1..] == s[1..] + [x];
      FirstIndexExtend(s[1..], x, k);
    }
  }

  /** A key appended to a sequence that lacks it first occurs at the end. */
  lemma FirstIndexNew(s: seq<string>, x: string)
    requires x !in s
    ensures FirstIndex(s + [x], x) == |s|
  {
  }
}
