/**
 * A Python dict as the core uses it: a map together with the order in which
 * iteration visits its keys. Assignment to an existing key keeps its place,
 * a new key goes last, and `pop` removes the key from the order.
 */
module OrderedDicts {
  import opened Wrappers

  predicate Distinct<K(==)>(s: seq<K>) {
    forall i, j | 0 <= i < j < |s| :: s[i] != s[j]
  }

  datatype OrderedDict<K(==), V> = OrderedDict(keys: seq<K>, items: map<K, V>)

  predicate WellFormed<K(==), V>(d: OrderedDict<K, V>) {
    && Distinct(d.keys)
    && (forall k | k in d.items :: k in d.keys)
    && (forall i | 0 <= i < |d.keys| :: d.keys[i] in d.items)
  }

  type Dict<K(==), V> = d: OrderedDict<K, V> | WellFormed(d) witness OrderedDict([], map[])

  function Empty<K(==), V>(): (d: Dict<K, V>)
    ensures d.keys == [] && d.items == map[]
  {
    OrderedDict([], map[])
  }

  /** `d.get(k)`: the value stored under `k`, if any. */
  function Get<K(==), V>(d: Dict<K, V>, k: K): (r: Option<V>)
    ensures r.Some? <==> k in d.keys
    ensures r.Some? ==> r.value == d.items[k]
  {
    if k in d.items then Some(d.items[k]) else None
  }

  /** `d.get(k, default)`. */
  function GetOr<K(==), V>(d: Dict<K, V>, k: K, default: V): (r: V)
    ensures k in d.keys ==> r == d.items[k]
    ensures k !in d.keys ==> r == default
  {
    if k in d.items then d.items[k] else default
  }

  /** `d[k] = v`. */
  function Put<K(==), V>(d: Dict<K, V>, k: K, v: V): (r: Dict<K, V>)
    ensures r.items == d.items[k := v]
    ensures k in d.keys ==> r.keys == d.keys
    ensures k !in d.keys ==> r.keys == d.keys + [k]
  {
    if k in d.items then OrderedDict(d.keys, d.items[k := v])
    else
      var r := OrderedDict(d.keys + [k], d.items[k := v]);
      assert forall i | 0 <= i < |d.keys| :: r.keys[i] == d.keys[i];
      r
  }

  /** Assigning a key twice leaves the second value, in the key's place. */
  lemma PutPut<K, V>(d: Dict<K, V>, k: K, v1: V, v2: V)
    ensures Put(Put(d, k, v1), k, v2) == Put(d, k, v2)
  {
  }

  /** Inserting the next key of a distinct key order extends the dict's order by that key. */
  lemma PutNext<K, V>(d: Dict<K, V>, ks: seq<K>, j: nat, v: V)
    requires Distinct(ks) && j < |ks| && d.keys == ks[..j]
    ensures Put(d, ks[j], v).keys == ks[..j + 1]
    ensures Put(d, ks[j], v).items == d.items[ks[j] := v]
  {
    assert ks[j] !in d.keys by {
      forall m | 0 <= m < j
        ensures d.keys[m] != ks[j]
      {
        assert d.keys[m] == ks[m];
      }
    }
    assert ks[..j + 1] == ks[..j] + [ks[j]];
  }

  /** The key order with `k` taken out. */
  function Without<K(==)>(s: seq<K>, k: K): (r: seq<K>)
    ensures forall x | x in r :: x in s && x != k
    ensures forall x | x in s && x != k :: x in r
    ensures |r| <= |s|
    ensures Distinct(s) ==> Distinct(r)
    ensures Distinct(s) && k in s ==> |r| == |s| - 1
    ensures k !in s ==> r == s
  {
    if s == [] then []
    else
      var t := s[1..];
      var rest := Without(t, k);
      assert s == [s[0]] + t;
      if s[0] == k then
        assert Distinct(s) ==> s[0] !in t by {
          if Distinct(s) {
            DistinctTail(s);
          }
        }
        rest
      else
        assert Distinct(s) ==> Distinct([s[0]] + rest) by {
          if Distinct(s) {
            DistinctTail(s);
            DistinctCons(s[0], rest);
          }
        }
        [s[0]] + rest
  }

  lemma DistinctTail<K>(s: seq<K>)
    requires Distinct(s) && s != []
    ensures Distinct(s[1..]) && s[0] !in s[1..]
  {
    forall i, j | 0 <= i < j < |s| - 1
      ensures s[1..][i] != s[1..][j]
    {
      assert s[1..][i] == s[i + 1] && s[1..][j] == s[j + 1];
    }
    forall i | 0 <= i < |s| - 1
      ensures s[1..][i] != s[0]
    {
      assert s[1..][i] == s[i + 1];
    }
  }

  lemma DistinctCons<K>(x: K, t: seq<K>)
    requires x !in t && Distinct(t)
    ensures Distinct([x] + t)
  {
    var s := [x] + t;
    forall i, j | 0 <= i < j < |s|
      ensures s[i] != s[j]
    {
      assert s[j] == t[j - 1];
      if i > 0 {
        assert s[i] == t[i - 1];
      }
    }
  }

  /** `d.pop(k)` for a key that is present: what remains of the dict. */
  function Remove<K(==), V>(d: Dict<K, V>, k: K): (r: Dict<K, V>)
    ensures r.items == d.items - {k}
    ensures r.keys == Without(d.keys, k)
    ensures |r.keys| == |d.keys| - (if k in d.keys then 1 else 0)
  {
    var ks := Without(d.keys, k);
    assert forall i | 0 <= i < |ks| :: ks[i] in d.items by {
      forall i | 0 <= i < |ks| ensures ks[i] in d.items {
        assert ks[i] in ks;
      }
    }
    OrderedDict(ks, d.items - {k})
  }

  /** The values in iteration order: `d.values()`. */
  function Values<K(==), V>(d: Dict<K, V>): (r: seq<V>)
    ensures |r| == |d.keys|
    ensures forall i | 0 <= i < |d.keys| :: r[i] == d.items[d.keys[i]]
  {
    seq(|d.keys|, i requires 0 <= i < |d.keys| => d.items[d.keys[i]])
  }

  /** The position of a key in the iteration order. */
  function IndexOf<K(==)>(s: seq<K>, k: K): (i: nat)
    requires k in s
    ensures i < |s| && s[i] == k
    ensures forall j | 0 <= j < i :: s[j] != k
  {
    if s[0] == k then 0 else 1 + IndexOf(s[1..], k)
  }
}
