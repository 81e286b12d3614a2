// A JavaScript Map keyed by strings: entries plus the order in which the keys
// were inserted.  The session coordinator uses the order to evict the oldest key.
module InsertionOrderedMap {

  ghost predicate Distinct<T>(s: seq<T>) {
    forall i, j :: 0 <= i < j < |s| ==> s[i] != s[j]
  }

  /** The keys of `order` that are not in `ks`, in their old order. */
  function Minus(order: seq<string>, ks: set<string>): (r: seq<string>)
    ensures forall k :: k in r <==> k in order && k !in ks
    ensures |r| <= |order|
  {
    if order == [] then [] else
    (if order[0] in ks then [] else [order[0]]) + Minus(order[1..], ks)
  }

  lemma {:induction false} MinusDistinct(order: seq<string>, ks: set<string>)
    requires Distinct(order)
    ensures Distinct(Minus(order, ks))
  {
    if order != [] {
      MinusDistinct(order[1..], ks);
      assert order[0] !in order[1..];
    }
  }

  lemma {:induction false} MinusMinus(order: seq<string>, a: set<string>, b: set<string>)
    ensures Minus(Minus(order, a), b) == Minus(order, a + b)
  {
    if order != [] {
      var h, t := order[0], order[1..];
      MinusMinus(t, a, b);
      if h in a {
        assert Minus(order, a) == [] + Minus(t, a) == Minus(t, a);
        assert Minus(order, a + b) == [] + Minus(t, a + b);
      } else {
        var kept := [h] + Minus(t, a);
        assert kept[1..] == Minus(t, a);
        assert Minus(kept, b) == (if h in b then [] else [h]) + Minus(kept[1..], b);
      }
    }
  }

  lemma {:induction false} MinusNothing(order: seq<string>, ks: set<string>)
    requires forall k :: k in order ==> k !in ks
    ensures Minus(order, ks) == order
  {
    if order != [] {
      MinusNothing(order[1..], ks);
    }
  }

  lemma {:induction false} MinusOne(order: seq<string>, k: string)
    requires Distinct(order) && k in order
    ensures |Minus(order, {k})| == |order| - 1
  {
    if order[0] == k {
      MinusNothing(order[1..], {k});
    } else {
      MinusOne(order[1..], k);
    }
  }

  datatype OrderedMap<V> = OrderedMap(order: seq<string>, at: map<string, V>) {

    ghost predicate Valid() {
      Distinct(order) && forall k :: k in order <==> k in at
    }

    /** `Map.delete` for every key of `ks`. */
    function Remove(ks: set<string>): OrderedMap<V> {
      OrderedMap(Minus(order, ks), at - ks)
    }

    /** `Map.delete` followed by `Map.set`: the key becomes the newest one. */
    function Put(k: string, v: V): OrderedMap<V> {
      OrderedMap(Minus(order, {k}) + [k], at[k := v])
    }

    /** The map without its oldest key. */
    function DropOldest(): OrderedMap<V>
      requires order != []
    {
      OrderedMap(order[1..], at - {order[0]})
    }

    /** Delete the oldest key while there are more than `limit` keys. */
    function Trim(limit: nat): OrderedMap<V>
      decreases |order|
    {
      if |order| <= limit then this else DropOldest().Trim(limit)
    }

    lemma RemoveValid(ks: set<string>)
      requires Valid()
      ensures Remove(ks).Valid() && |Remove(ks).order| <= |order|
      ensures forall k :: k in Remove(ks).at <==> k in at && k !in ks
    {
      MinusDistinct(order, ks);
    }

    lemma PutValid(k: string, v: V)
      requires Valid()
      ensures Put(k, v).Valid() && k in Put(k, v).at
      ensures |Put(k, v).order| == if k in at then |order| else |order| + 1
    {
      MinusDistinct(order, {k});
      if k in at { MinusOne(order, k); } else { MinusNothing(order, {k}); }
    }

    lemma DropOldestValid()
      requires Valid() && order != []
      ensures DropOldest().Valid()
    {
      assert order[0] !in order[1..];
      forall k ensures k in order[1..] <==> k in at && k != order[0] {
        if k in order && k != order[0] {
          var i :| 0 <= i < |order| && order[i] == k;
          assert order[1..][i - 1] == k;
        }
      }
    }

    /** Trimming respects the limit, keeps a suffix of the order and never changes an entry it keeps. */
    lemma {:induction false} TrimValid(limit: nat)
      requires Valid()
      ensures Trim(limit).Valid() && |Trim(limit).order| <= limit
      ensures |order| <= limit ==> Trim(limit) == this
      ensures |order| > limit ==> Trim(limit).order == order[|order| - limit..]
      ensures forall k :: k in Trim(limit).at ==> k in at && Trim(limit).at[k] == at[k]
      decreases |order|
    {
      if |order| > limit {
        DropOldestValid();
        DropOldest().TrimValid(limit);
      }
    }

    /** A key put just before trimming survives it. */
    lemma TrimKeepsNewest(k: string, v: V, limit: nat)
      requires Valid() && limit >= 1
      ensures k in Put(k, v).Trim(limit).at && Put(k, v).Trim(limit).at[k] == v
    {
      PutValid(k, v);
      var p := Put(k, v);
      p.TrimValid(limit);
      assert p.order[|p.order| - 1] == k;
      if |p.order| > limit {
        assert p.order[|p.order| - limit..][limit - 1] == k;
      }
    }

    /** `Map.set` of a refreshed key followed by the eviction of old keys: what every cache here does. */
    lemma PutTrim(k: string, v: V, limit: nat)
      requires Valid() && limit >= 1
      ensures var r := Put(k, v).Trim(limit);
        && r.Valid() && |r.order| <= limit && k in r.at && r.at[k] == v
        && (forall j :: j in r.at && j != k ==> j in at && r.at[j] == at[j])
    {
      hide Minus, Distinct;
      PutValid(k, v);
      Put(k, v).TrimValid(limit);
      TrimKeepsNewest(k, v, limit);
    }
  }
}
