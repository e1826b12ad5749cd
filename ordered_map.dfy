/** The optional value Kotlin writes as a nullable type. */
module Optional {
  datatype Option<T> = None | Some(value: T)
}

/**
 The `MutableMap<String, String>` that `mutableMapOf()` creates is a `LinkedHashMap`:
 its entries keep the order in which their keys were first inserted, and `put` on a
 key that is already present replaces the value where it stands.
 */
module OrderedMaps {
  import opened Optional

  type Entry = (string, string)
  type OrderedMap = seq<Entry>

  /** The keys, in iteration order. */
  function Keys(m: OrderedMap): (ks: seq<string>)
    ensures |ks| == |m|
    ensures forall i | 0 <= i < |m| :: ks[i] == m[i].0
  {
    if |m| == 0 then [] else [m[0].0] + Keys(m[1..])
  }

  /** No key occurs twice: the shape every `LinkedHashMap` has. */
  predicate DistinctKeys(m: OrderedMap) {
    forall i, j | 0 <= i < j < |m| :: m[i].0 != m[j].0
  }

  /** Position of the entry for `k`, or `|m|` when there is none. */
  function IndexOfKey(m: OrderedMap, k: string): (i: nat)
    ensures i <= |m|
    ensures i < |m| ==> m[i].0 == k
    ensures forall j | 0 <= j < i :: m[j].0 != k
  {
    if |m| == 0 then 0 else if m[0].0 == k then 0 else 1 + IndexOfKey(m[1..], k)
  }

  /** `m[k]`: the value of the entry for `k`, if there is one. */
  function Lookup(m: OrderedMap, k: string): (r: Option<string>)
    ensures r.Some? <==> k in Keys(m)
    ensures r.Some? ==> (k, r.value) in m
  {
    if |m| == 0 then None else if m[0].0 == k then Some(m[0].1) else Lookup(m[1..], k)
  }

  /** `m[k] = v` on a `LinkedHashMap`: the entry for `k` is replaced where it stands if there is one,
      and appended otherwise. */
  function Put(m: OrderedMap, k: string, v: string): (r: OrderedMap)
    ensures r == if IndexOfKey(m, k) < |m| then m[IndexOfKey(m, k) := (k, v)] else m + [(k, v)]
  {
    if |m| == 0 then [(k, v)]
    else if m[0].0 == k then [(k, v)] + m[1..]
    else
      var i := IndexOfKey(m[1..], k);
      assert i < |m| - 1 ==> [m[0]] + m[1..][i := (k, v)] == m[i + 1 := (k, v)];
      assert i == |m| - 1 ==> [m[0]] + (m[1..] + [(k, v)]) == m + [(k, v)];
      [m[0]] + Put(m[1..], k, v)
  }

  /** After `m[k] = v`, a key that was present keeps its position and a new key goes last. */
  lemma {:induction false} PutKeys(m: OrderedMap, k: string, v: string)
    ensures Keys(Put(m, k, v)) == if k in Keys(m) then Keys(m) else Keys(m) + [k]
  {
    if |m| > 0 {
      var r := Put(m, k, v);
      assert Keys(m) == [m[0].0] + Keys(m[1..]);
      if m[0].0 == k {
        assert r == [(k, v)] + m[1..];
        assert Keys(r) == [k] + Keys(r[1..]);
        assert r[1..] == m[1..];
      } else {
        PutKeys(m[1..], k, v);
        assert r == [m[0]] + Put(m[1..], k, v);
        assert r[1..] == Put(m[1..], k, v);
        assert Keys(r) == [m[0].0] + Keys(r[1..]);
      }
    }
  }

  /** After `m[k] = v`, `k` holds `v` and every other key holds what it held before. */
  lemma {:induction false} PutLookup(m: OrderedMap, k: string, v: string, k': string)
    ensures Lookup(Put(m, k, v), k') == if k' == k then Some(v) else Lookup(m, k')
  {
    if |m| > 0 && m[0].0 != k {
      PutLookup(m[1..], k, v, k');
      assert Put(m, k, v) == [m[0]] + Put(m[1..], k, v);
      assert ([m[0]] + Put(m[1..], k, v))[1..] == Put(m[1..], k, v);
    } else if |m| > 0 {
      assert Put(m, k, v)[1..] == m[1..];
    }
  }

  /** `m[k] = v` never creates a second entry for a key. */
  lemma PutDistinct(m: OrderedMap, k: string, v: string)
    requires DistinctKeys(m)
    ensures DistinctKeys(Put(m, k, v))
  {
  }

  /** Putting the entries of `cs` one after another. */
  function PutAll(m: OrderedMap, cs: seq<Entry>): OrderedMap
    decreases |cs|
  {
    if |cs| == 0 then m else PutAll(Put(m, cs[0].0, cs[0].1), cs[1..])
  }

  /** The value of the last entry of `cs` whose key is `k`. */
  function LastValue(cs: seq<Entry>, k: string): Option<string>
  {
    if |cs| == 0 then None
    else if cs[|cs| - 1].0 == k then Some(cs[|cs| - 1].1)
    else LastValue(cs[..|cs| - 1], k)
  }

  /** The keys of `ks` not in `seen`, each once, in the order of their first occurrence in `ks`. */
  function NewKeys(seen: seq<string>, ks: seq<string>): seq<string>
    decreases |ks|
  {
    if |ks| == 0 then []
    else if ks[0] in seen then NewKeys(seen, ks[1..])
    else [ks[0]] + NewKeys(seen + [ks[0]], ks[1..])
  }

  /** After a run of puts, each key holds the value of its last put: later writes overwrite earlier ones. */
  lemma {:induction false} LookupPutAll(m: OrderedMap, cs: seq<Entry>, k: string)
    ensures Lookup(PutAll(m, cs), k) == if LastValue(cs, k).Some? then LastValue(cs, k) else Lookup(m, k)
  {
    if |cs| > 0 {
      var n := |cs| - 1;
      var init, c := cs[..n], cs[n];
      var before := PutAll(m, init);
      assert PutAll(m, cs) == Put(before, c.0, c.1) by {
        PutAllLast(m, cs);
      }
      assert Lookup(before, k) == if LastValue(init, k).Some? then LastValue(init, k) else Lookup(m, k) by {
        LookupPutAll(m, init, k);
      }
      assert Lookup(Put(before, c.0, c.1), k) == if k == c.0 then Some(c.1) else Lookup(before, k) by {
        PutLookup(before, c.0, c.1, k);
      }
      assert LastValue(cs, k) == if c.0 == k then Some(c.1) else LastValue(init, k);
    }
  }

  /** The last put of a run comes after all the others. */
  lemma PutAllLast(m: OrderedMap, cs: seq<Entry>)
    requires |cs| > 0
    ensures PutAll(m, cs) == Put(PutAll(m, cs[..|cs| - 1]), cs[|cs| - 1].0, cs[|cs| - 1].1)
  {
    var n := |cs| - 1;
    assert cs[..n] + [cs[n]] == cs;
    PutAllSnoc(m, cs[..n], cs[n]);
  }

  lemma {:induction false} PutAllSnoc(m: OrderedMap, cs: seq<Entry>, c: Entry)
    ensures PutAll(m, cs + [c]) == Put(PutAll(m, cs), c.0, c.1)
    decreases |cs|
  {
    if |cs| > 0 {
      assert (cs + [c])[1..] == cs[1..] + [c];
      PutAllSnoc(Put(m, cs[0].0, cs[0].1), cs[1..], c);
    }
  }

  /** After a run of puts, the keys already present come first, unmoved, followed by the new keys
      in the order in which they were first put; no key appears twice. */
  lemma {:induction false} KeysPutAll(m: OrderedMap, cs: seq<Entry>)
    requires DistinctKeys(m)
    ensures Keys(PutAll(m, cs)) == Keys(m) + NewKeys(Keys(m), Keys(cs))
    ensures DistinctKeys(PutAll(m, cs))
    decreases |cs|
  {
    if |cs| > 0 {
      var k := cs[0].0;
      var m' := Put(m, k, cs[0].1);
      var ks := Keys(m);
      var later := Keys(cs[1..]);
      assert PutAll(m, cs) == PutAll(m', cs[1..]);
      assert Keys(cs) == [k] + later;
      assert DistinctKeys(m') by {
        PutDistinct(m, k, cs[0].1);
      }
      assert Keys(PutAll(m', cs[1..])) == Keys(m') + NewKeys(Keys(m'), later)
          && DistinctKeys(PutAll(m', cs[1..])) by {
        KeysPutAll(m', cs[1..]);
      }
      assert Keys(m') == if k in ks then ks else ks + [k] by {
        PutKeys(m, k, cs[0].1);
      }
      if k !in ks {
        assert NewKeys(ks, [k] + later) == [k] + NewKeys(ks + [k], later);
        assert ks + [k] + NewKeys(ks + [k], later) == ks + ([k] + NewKeys(ks + [k], later));
      } else {
        assert NewKeys(ks, [k] + later) == NewKeys(ks, later);
      }
    }
  }

  /** Every entry of the result was either in `m` or one of the puts. */
  lemma {:induction false} EntriesPutAll(m: OrderedMap, cs: seq<Entry>)
    ensures forall e | e in PutAll(m, cs) :: e in m || e in cs
    decreases |cs|
  {
    if |cs| > 0 {
      var m' := Put(m, cs[0].0, cs[0].1);
      EntriesPut(m, cs[0].0, cs[0].1);
      EntriesPutAll(m', cs[1..]);
      assert forall e | e in cs[1..] :: e in cs;
    }
  }

  lemma EntriesPut(m: OrderedMap, k: string, v: string)
    ensures forall e | e in Put(m, k, v) :: e in m || e == (k, v)
  {
    var i := IndexOfKey(m, k);
    if i < |m| {
      forall e | e in m[i := (k, v)] ensures e in m || e == (k, v) {
        var j :| 0 <= j < |m| && m[i := (k, v)][j] == e;
        if j != i { assert e == m[j]; }
      }
    }
  }
}
