/**
  Cost breakdowns as maps from a key to a real: accumulation into an entry
  that may not exist yet (a Go map's zero default), and the sum of all
  values, which does not depend on the order the entries are visited in.
 */
module MapSum {

  /** Value of entry `k`, or 0 when it is absent. */
  function Get<K>(b: map<K, real>, k: K): real {
    if k in b then b[k] else 0.0
  }

  /** `b[k] += x`: creates the entry when it is missing. */
  function Add<K>(b: map<K, real>, k: K, x: real): (b': map<K, real>)
    ensures b'.Keys == b.Keys + {k}
    ensures b'[k] == Get(b, k) + x
    ensures forall j :: j in b && j != k ==> b'[j] == b[j]
  {
    b[k := Get(b, k) + x]
  }

  /** Some key of a non-empty map; which one is left unspecified. */
  ghost function Pick<K>(b: map<K, real>): (k: K)
    requires b != map[]
    ensures k in b
  {
    var k :| k in b; k
  }

  /** Two `+=` into the same entry add up. */
  lemma AddTwice<K>(b: map<K, real>, k: K, x: real, y: real)
    ensures Add(Add(b, k, x), k, y) == Add(b, k, x + y)
  {
  }

  /** A run of `+=` into one entry, in order. */
  function AddAll<K>(b: map<K, real>, k: K, xs: seq<real>): (b': map<K, real>)
    decreases |xs|
    ensures b'.Keys == if |xs| == 0 then b.Keys else b.Keys + {k}
    ensures forall j :: j in b && j != k ==> b'[j] == b[j]
  {
    if |xs| == 0 then b else AddAll(Add(b, k, xs[0]), k, xs[1..])
  }

  function SumSeq(xs: seq<real>): real {
    if |xs| == 0 then 0.0 else xs[0] + SumSeq(xs[1..])
  }

  /** A run of `+=` adds the sum of its amounts to the entry. */
  lemma {:induction false} AddAllSum<K>(b: map<K, real>, k: K, xs: seq<real>)
    decreases |xs|
    ensures Get(AddAll(b, k, xs), k) == Get(b, k) + SumSeq(xs)
  {
    if |xs| > 0 {
      var b' := Add(b, k, xs[0]);
      AddAllSum(b', k, xs[1..]);
      assert Get(b', k) == Get(b, k) + xs[0];
    }
  }

  /** ... and leaves every other entry as it was. */
  lemma AddAllOther<K>(b: map<K, real>, k: K, xs: seq<real>, j: K)
    requires j != k
    ensures Get(AddAll(b, k, xs), j) == Get(b, j)
  {
  }

  lemma {:induction false} SumSeqNonneg(xs: seq<real>)
    requires forall i :: 0 <= i < |xs| ==> xs[i] >= 0.0
    ensures SumSeq(xs) >= 0.0
  {
    if |xs| > 0 {
      SumSeqNonneg(xs[1..]);
    }
  }

  /** Sum of all values, visiting the keys in an unspecified order. */
  ghost function SumMap<K>(b: map<K, real>): real
    decreases |b|
  {
    if b == map[] then 0.0
    else
      var k := Pick(b);
      RemoveShrinks(b, k);
      b[k] + SumMap(b - {k})
  }

  lemma RemoveShrinks<K>(b: map<K, real>, k: K)
    requires k in b
    ensures |b - {k}| == |b| - 1
  {
    assert (b - {k}).Keys == b.Keys - {k};
    assert |b.Keys - {k}| == |b.Keys| - 1;
  }

  /** Any entry may be visited first: the sum is independent of the visiting order. */
  lemma {:induction false} SumMapRemove<K>(b: map<K, real>, k: K)
    requires k in b
    ensures SumMap(b) == b[k] + SumMap(b - {k})
    decreases |b|
  {
    RemoveShrinks(b, k);
    var j := Pick(b);
    assert SumMap(b) == b[j] + SumMap(b - {j});
    if j != k {
      RemoveShrinks(b, j);
      SumMapRemove(b - {j}, k);
      SumMapRemove(b - {k}, j);
      assert b - {j} - {k} == b - {k} - {j};
    }
  }

  /** Sum of the entries named in `ks` that are present, in that order. */
  function SumOver<K>(b: map<K, real>, ks: seq<K>): real {
    if |ks| == 0 then 0.0
    else Get(b, ks[0]) + SumOver(b, ks[1..])
  }

  lemma {:induction false} SumOverIgnores<K>(b: map<K, real>, k: K, ks: seq<K>)
    requires k !in ks
    ensures SumOver(b - {k}, ks) == SumOver(b, ks)
  {
    if |ks| > 0 {
      SumOverIgnores(b, k, ks[1..]);
    }
  }

  /** Summing in a fixed order over a duplicate-free list that covers every key is the map's sum. */
  lemma {:induction false} SumOverIsSumMap<K>(b: map<K, real>, ks: seq<K>)
    requires forall i, j :: 0 <= i < j < |ks| ==> ks[i] != ks[j]
    requires forall k :: k in b ==> k in ks
    ensures SumOver(b, ks) == SumMap(b)
  {
    if |ks| == 0 {
      assert b == map[];
    } else {
      var k := ks[0];
      var rest := ks[1..];
      assert k !in rest by {
        forall i | 0 <= i < |rest| ensures rest[i] != k {
          assert rest[i] == ks[i + 1];
        }
      }
      SumOverIgnores(b, k, rest);
      SumOverIsSumMap(b - {k}, rest);
      if k in b {
        SumMapRemove(b, k);
      } else {
        assert b - {k} == b;
      }
    }
  }

  /** With no negative entry, the sum is not negative. */
  lemma {:induction false} SumMapNonneg<K>(b: map<K, real>)
    requires forall k :: k in b ==> b[k] >= 0.0
    ensures SumMap(b) >= 0.0
    decreases |b|
  {
    if b != map[] {
      var k := Pick(b);
      SumMapRemove(b, k);
      RemoveShrinks(b, k);
      SumMapNonneg(b - {k});
    }
  }
}
