/**
 * PHP's ordered associative arrays with string keys, as a sequence of
 * (key, value) pairs in insertion order. Lookup, `isset`, assignment
 * `$a[$k] = $v`, `unset($a[$k])` and `array_merge`.
 */
module Dict {
  import opened Php

  type Dict<V> = seq<(string, V)>

  predicate HasKey<V>(d: Dict<V>, k: string)
    ensures HasKey(d, k) <==> exists j :: 0 <= j < |d| && d[j].0 == k
  {
    d != [] && (d[0].0 == k || HasKey(d[1..], k))
  }

  /** $a[$k], the value of the first entry with key k. */
  function Get<V>(d: Dict<V>, k: string): (r: Option<V>)
    ensures r.Some? <==> HasKey(d, k)
  {
    if d == [] then None else if d[0].0 == k then Some(d[0].1) else Get(d[1..], k)
  }

  /** isset($a[$k]): the key is present and its value is not null. */
  predicate IsSet(d: Dict<Value>, k: string)
  {
    Get(d, k).Some? && Get(d, k).value != Null
  }

  function Keys<V>(d: Dict<V>): seq<string>
  {
    seq(|d|, i requires 0 <= i < |d| => d[i].0)
  }

  /** What PHP guarantees of every array: no key occurs twice. */
  predicate UniqueKeys<V>(d: Dict<V>)
  {
    forall i, j :: 0 <= i < j < |d| ==> d[i].0 != d[j].0
  }

  /** With unique keys, the value of a key is the value of the one entry holding it. */
  lemma {:induction false} GetAt<V>(d: Dict<V>, i: nat)
    requires UniqueKeys(d) && i < |d|
    ensures Get(d, d[i].0) == Some(d[i].1)
  {
    if i > 0 {
      assert d[0].0 != d[i].0;
      assert UniqueKeys(d[1..]) by {
        forall a, b | 0 <= a < b < |d| - 1 ensures d[1..][a].0 != d[1..][b].0 {
          assert d[1..][a] == d[a + 1] && d[1..][b] == d[b + 1];
        }
      }
      GetAt(d[1..], i - 1);
    }
  }

  /**
   * $a[$k] = $v: an existing key keeps its position and gets the new value,
   * a new key is appended at the end.
   */
  function Put<V>(d: Dict<V>, k: string, v: V): (r: Dict<V>)
    ensures Get(r, k) == Some(v)
    ensures forall k' :: k' != k ==> Get(r, k') == Get(d, k')
    ensures HasKey(d, k) ==> |r| == |d| && forall i :: 0 <= i < |d| ==> r[i].0 == d[i].0
    ensures !HasKey(d, k) ==> r == d + [(k, v)]
    ensures UniqueKeys(d) ==> UniqueKeys(r)
  {
    if d == [] then [(k, v)]
    else if d[0].0 == k then [(k, v)] + d[1..]
    else [d[0]] + Put(d[1..], k, v)
  }

  /** After `$a[$k] = $v` the keys are the old keys and k. */
  lemma PutHasKey<V>(d: Dict<V>, k: string, v: V, k': string)
    ensures HasKey(Put(d, k, v), k') <==> k' == k || HasKey(d, k')
  {
    if k' != k {
      assert Get(Put(d, k, v), k') == Get(d, k');
    }
  }

  /**
   * unset($a[$k]): the entry with key k goes, every other entry stays, in
   * the same order.
   */
  function Unset<V>(d: Dict<V>, k: string): (r: Dict<V>)
    ensures !HasKey(r, k)
    ensures forall k' :: k' != k ==> Get(r, k') == Get(d, k')
    ensures !HasKey(d, k) ==> r == d
  {
    if d == [] then []
    else if d[0].0 == k then Unset(d[1..], k)
    else [d[0]] + Unset(d[1..], k)
  }

  /** With unique keys, unset removes exactly the one entry whose key is k. */
  lemma {:induction false} UnsetRemovesOne<V>(d: Dict<V>, k: string, i: nat)
    requires UniqueKeys(d) && i < |d| && d[i].0 == k
    ensures Unset(d, k) == d[..i] + d[i + 1..]
  {
    if i > 0 {
      var tail := d[1..];
      assert d[0].0 != k;
      assert UniqueKeys(tail) by {
        forall a, b | 0 <= a < b < |tail| ensures tail[a].0 != tail[b].0 {
          assert tail[a] == d[a + 1] && tail[b] == d[b + 1];
        }
      }
      UnsetRemovesOne(tail, k, i - 1);
      calc {
        Unset(d, k);
        [d[0]] + Unset(tail, k);
        [d[0]] + (tail[..i - 1] + tail[i..]);
        { assert tail[..i - 1] == d[1..i] && tail[i..] == d[i + 1..]; }
        [d[0]] + d[1..i] + d[i + 1..];
        { assert [d[0]] + d[1..i] == d[..i]; }
        d[..i] + d[i + 1..];
      }
    }
  }

  /**
   * array_merge of two arrays with string keys: the second array's values
   * win for keys in both, the rest keep the first array's values.
   */
  function Merge<V>(a: Dict<V>, b: Dict<V>): (r: Dict<V>)
    requires UniqueKeys(b)
    ensures forall k :: Get(r, k) == if HasKey(b, k) then Get(b, k) else Get(a, k)
    decreases |b|
  {
    if b == [] then a
    else
      assert forall j :: 0 < j < |b| ==> b[j].0 != b[0].0;
      Merge(Put(a, b[0].0, b[0].1), b[1..])
  }
}
