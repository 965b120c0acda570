/** A plain JavaScript object with string keys, as an ordered table of entries.
    For keys that are not array indices (no key the site uses is one),
    `Object.keys`, `Object.values` and `Object.entries` list the keys in insertion
    order, and the site's code depends on that order, so a table is a sequence of
    (key, value) pairs and not a `map`. */
module Assoc {
  import opened Optional

  type Table<V> = seq<(string, V)>

  /** `Object.keys(t)`. */
  function Keys<V>(t: Table<V>): (ks: seq<string>)
    ensures |ks| == |t| && forall i | 0 <= i < |t| :: ks[i] == t[i].0
  {
    seq(|t|, i requires 0 <= i < |t| => t[i].0)
  }

  /** `Object.values(t)`. */
  function Values<V>(t: Table<V>): (vs: seq<V>)
    ensures |vs| == |t| && forall i | 0 <= i < |t| :: vs[i] == t[i].1
  {
    seq(|t|, i requires 0 <= i < |t| => t[i].1)
  }

  /** No key appears twice, as in every JavaScript object. */
  predicate DistinctKeys<V>(t: Table<V>) {
    forall i, j | 0 <= i < j < |t| :: t[i].0 != t[j].0
  }

  /** `t[k]`: the value stored under `k`, None when `k` is not a key. */
  function Lookup<V>(t: Table<V>, k: string): (r: Option<V>)
    ensures r.None? <==> k !in Keys(t)
    ensures r.Some? ==> exists i | 0 <= i < |t| :: t[i] == (k, r.value)
  {
    if t == [] then None
    else if t[0].0 == k then Some(t[0].1)
    else
      var r := Lookup(t[1..], k);
      assert Keys(t) == [t[0].0] + Keys(t[1..]);
      r
  }

  /** In a table without repeated keys, the lookup of the key at position `i` is the
      value at position `i`. */
  lemma {:induction false} LookupAt<V>(t: Table<V>, i: nat)
    requires DistinctKeys(t) && i < |t|
    ensures Lookup(t, t[i].0) == Some(t[i].1)
  {
    if i > 0 {
      assert DistinctKeys(t[1..]);
      LookupAt(t[1..], i - 1);
    }
  }

  /** The lookup of a key stored last, and nowhere earlier, finds that entry. */
  lemma {:induction false} LookupLast<V>(t: Table<V>, k: string, v: V)
    requires k !in Keys(t)
    ensures Lookup(t + [(k, v)], k) == Some(v)
  {
    if t != [] {
      assert Keys(t) == [t[0].0] + Keys(t[1..]);
      assert (t + [(k, v)])[1..] == t[1..] + [(k, v)];
      LookupLast(t[1..], k, v);
    }
  }

  /** `t[k] = v`: an existing key keeps its position and takes the new value, a new key
      (one that is not an array index) is appended. */
  function Put<V>(t: Table<V>, k: string, v: V): (r: Table<V>)
    ensures |t| <= |r| <= |t| + 1
    ensures forall i | 0 <= i < |t| :: r[i].0 == t[i].0
    ensures |r| == |t| + 1 ==> r[|t|] == (k, v)
  {
    if t == [] then [(k, v)]
    else if t[0].0 == k then [(k, v)] + t[1..]
    else [t[0]] + Put(t[1..], k, v)
  }

  /** An assignment to an existing key leaves the key order as it was; one to a new key
      appends that key after all the others. */
  lemma {:induction false} PutKeys<V>(t: Table<V>, k: string, v: V)
    ensures k in Keys(t) ==> Keys(Put(t, k, v)) == Keys(t)
    ensures k !in Keys(t) ==> Keys(Put(t, k, v)) == Keys(t) + [k]
  {
    if t != [] {
      KeysCons(t[0], t[1..]);
      assert [t[0]] + t[1..] == t;
      if t[0].0 == k {
        KeysCons((k, v), t[1..]);
      } else {
        PutKeys(t[1..], k, v);
        KeysCons(t[0], Put(t[1..], k, v));
      }
    }
  }

  /** The keys of an entry followed by a table. */
  lemma KeysCons<V>(e: (string, V), t: Table<V>)
    ensures Keys([e] + t) == [e.0] + Keys(t)
  {
  }

  /** After `t[k] = v`, reading `k` gives `v` and reading any other key gives what it
      gave before. */
  lemma {:induction false} PutLookup<V>(t: Table<V>, k: string, v: V, other: string)
    ensures Lookup(Put(t, k, v), k) == Some(v)
    ensures other != k ==> Lookup(Put(t, k, v), other) == Lookup(t, other)
  {
    if t != [] && t[0].0 != k {
      PutLookup(t[1..], k, v, other);
      assert Put(t, k, v)[1..] == Put(t[1..], k, v);
    } else if t != [] {
      assert Put(t, k, v)[1..] == t[1..];
    }
  }

  /** Assigning to a key that is not there appends one entry and changes nothing else. */
  lemma {:induction false} PutNew<V>(t: Table<V>, k: string, v: V)
    requires k !in Keys(t)
    ensures Put(t, k, v) == t + [(k, v)]
  {
    if t != [] {
      NotKeyOfTail(t, k);
      PutNew(t[1..], k, v);
      assert t == [t[0]] + t[1..];
      PutPast(t[0], t[1..], k, v);
    }
  }

  /** Assigning again to the last key, when it appears nowhere earlier, replaces its
      value in place. */
  lemma {:induction false} PutLast<V>(t: Table<V>, k: string, old_v: V, v: V)
    requires k !in Keys(t)
    ensures Put(t + [(k, old_v)], k, v) == t + [(k, v)]
  {
    if t == [] {
      assert t + [(k, old_v)] == [(k, old_v)];
    } else {
      NotKeyOfTail(t, k);
      PutLast(t[1..], k, old_v, v);
      assert t + [(k, old_v)] == [t[0]] + (t[1..] + [(k, old_v)]);
      PutPast(t[0], t[1..] + [(k, old_v)], k, v);
      assert t == [t[0]] + t[1..];
    }
  }

  /** Assigning to a key other than the first leaves the first entry in front. */
  lemma PutPast<V>(e: (string, V), t: Table<V>, k: string, v: V)
    requires e.0 != k
    ensures Put([e] + t, k, v) == [e] + Put(t, k, v)
  {
    assert ([e] + t)[0] == e && ([e] + t)[1..] == t;
  }

  /** A key absent from a non-empty table is neither its first key nor a key of the
      rest. */
  lemma NotKeyOfTail<V>(t: Table<V>, k: string)
    requires t != [] && k !in Keys(t)
    ensures t[0].0 != k && k !in Keys(t[1..])
  {
    assert Keys(t)[0] == t[0].0;
    forall j | 0 <= j < |t[1..]| ensures Keys(t[1..])[j] != k {
      assert Keys(t[1..])[j] == Keys(t)[j + 1];
    }
  }

  /** `ss.flat()` on an array of arrays. */
  function Flatten<T>(ss: seq<seq<T>>): (flat: seq<T>)
    ensures forall i, x | 0 <= i < |ss| && x in ss[i] :: x in flat
  {
    if ss == [] then []
    else
      var rest := Flatten(ss[1..]);
      assert forall i | 0 < i < |ss| :: ss[i] == ss[1..][i - 1];
      ss[0] + rest
  }

  /** The sum of the lengths of the inner sequences. */
  function TotalLength<T>(ss: seq<seq<T>>): nat {
    if ss == [] then 0 else |ss[0]| + TotalLength(ss[1..])
  }

  /** Flattening keeps every element: its length is the sum of the lengths. */
  lemma {:induction false} FlattenLength<T>(ss: seq<seq<T>>)
    ensures |Flatten(ss)| == TotalLength(ss)
  {
    if ss != [] {
      FlattenLength(ss[1..]);
    }
  }

  /** An element is in the flattening exactly when it is in one of the inner sequences. */
  lemma {:induction false} FlattenMember<T>(ss: seq<seq<T>>, x: T)
    ensures x in Flatten(ss) <==> exists i | 0 <= i < |ss| :: x in ss[i]
  {
    if ss != [] {
      FlattenMember(ss[1..], x);
      if x in Flatten(ss[1..]) {
        var i :| 0 <= i < |ss[1..]| && x in ss[1..][i];
        assert x in ss[i + 1];
      }
      if x !in ss[0] && exists i | 0 <= i < |ss| :: x in ss[i] {
        var i :| 0 <= i < |ss| && x in ss[i];
        assert x in ss[1..][i - 1];
      }
    }
  }

  /** Flattening distributes over concatenation. */
  lemma {:induction false} FlattenAppend<T>(a: seq<seq<T>>, b: seq<seq<T>>)
    ensures Flatten(a + b) == Flatten(a) + Flatten(b)
  {
    if a == [] {
      assert a + b == b;
    } else {
      assert (a + b)[0] == a[0] && (a + b)[1..] == a[1..] + b;
      FlattenAppend(a[1..], b);
    }
  }
}
