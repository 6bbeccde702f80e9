/**
 * Python's `defaultdict(float)` and `defaultdict(int)` as the analyzer uses
 * them: a dictionary that remembers the order in which keys were first
 * inserted, reads a missing key as zero, and is updated with `d[k] += x`.
 */
module OrderedDict {

  /** One `(key, value)` pair of `dict.items()`. */
  datatype Entry<V> = Entry(key: string, value: V)

  /** `keys` is the insertion order, `values` the mapping itself. */
  datatype Dict<V> = Dict(keys: seq<string>, values: map<string, V>)

  predicate Distinct(s: seq<string>)
  {
    forall i, j :: 0 <= i < j < |s| ==> s[i] != s[j]
  }

  /** Every key is listed once in the insertion order, and only keys are listed. */
  predicate Valid<V>(d: Dict<V>)
  {
    && Distinct(d.keys)
    && (forall k :: k in d.keys ==> k in d.values)
    && (forall k :: k in d.values ==> k in d.keys)
  }

  function Empty<V>(): (d: Dict<V>)
    ensures Valid(d) && d.keys == []
  {
    Dict([], map[])
  }

  /** `d[k]` on a defaultdict: a missing key reads as `zero`. */
  function Get<V>(d: Dict<V>, k: string, zero: V): V
  {
    if k in d.values then d.values[k] else zero
  }

  /** `d[k] += x` on a `defaultdict(float)`. */
  function AddReal(d: Dict<real>, k: string, x: real): Dict<real>
  {
    if k in d.values then Dict(d.keys, d.values[k := d.values[k] + x])
    else Dict(d.keys + [k], d.values[k := x])
  }

  /**
   * After `d[k] += x`, key `k` holds its old value plus `x` (a missing key
   * counting as 0.0), every other key is unchanged, and a new key is
   * appended to the insertion order.
   */
  lemma AddRealSpec(d: Dict<real>, k: string, x: real)
    ensures Get(AddReal(d, k, x), k, 0.0) == Get(d, k, 0.0) + x
    ensures forall k' :: k' != k ==> Get(AddReal(d, k, x), k', 0.0) == Get(d, k', 0.0)
    ensures AddReal(d, k, x).keys == if k in d.values then d.keys else d.keys + [k]
  {
  }

  /** The update keeps a well-formed dictionary well formed. */
  lemma AddRealValid(d: Dict<real>, k: string, x: real)
    requires Valid(d)
    ensures Valid(AddReal(d, k, x))
  {
  }

  /** `d[k] += x` on a `defaultdict(int)`. */
  function AddInt(d: Dict<int>, k: string, x: int): Dict<int>
  {
    if k in d.values then Dict(d.keys, d.values[k := d.values[k] + x])
    else Dict(d.keys + [k], d.values[k := x])
  }

  /**
   * After `d[k] += x`, key `k` holds its old value plus `x` (a missing key
   * counting as 0), every other key is unchanged, and a new key is
   * appended to the insertion order.
   */
  lemma AddIntSpec(d: Dict<int>, k: string, x: int)
    ensures Get(AddInt(d, k, x), k, 0) == Get(d, k, 0) + x
    ensures forall k' :: k' != k ==> Get(AddInt(d, k, x), k', 0) == Get(d, k', 0)
    ensures AddInt(d, k, x).keys == if k in d.values then d.keys else d.keys + [k]
  {
  }

  /** The update keeps a well-formed dictionary well formed. */
  lemma AddIntValid(d: Dict<int>, k: string, x: int)
    requires Valid(d)
    ensures Valid(AddInt(d, k, x))
  {
  }

  predicate DistinctKeys<V>(s: seq<Entry<V>>)
  {
    forall i, j :: 0 <= i < j < |s| ==> s[i].key != s[j].key
  }

  /**
   * `d.items()`: pairs of the mapping, each key once, listed in insertion
   * order; `ItemsPairs` shows that no pair of the mapping is missing.
   */
  function Items<V>(d: Dict<V>): (r: seq<Entry<V>>)
    requires Valid(d)
    ensures |r| == |d.keys|
    ensures forall i :: 0 <= i < |r| ==> r[i].key == d.keys[i]
    ensures DistinctKeys(r)
    ensures forall i :: 0 <= i < |r| ==> r[i].key in d.values && r[i].value == d.values[r[i].key]
  {
    seq(|d.keys|, i requires 0 <= i < |d.keys| => Entry(d.keys[i], d.values[d.keys[i]]))
  }

  /** The keys of a list of entries. */
  function KeySet<V>(s: seq<Entry<V>>): set<string>
  {
    set i | 0 <= i < |s| :: s[i].key
  }

  /** Every pair of the mapping appears in `items()`. */
  lemma ItemsPairs<V>(d: Dict<V>)
    requires Valid(d)
    ensures forall k :: k in d.values ==> Entry(k, d.values[k]) in Items(d)
  {
    forall k | k in d.values ensures Entry(k, d.values[k]) in Items(d) {
      var i :| 0 <= i < |d.keys| && d.keys[i] == k;
      assert Items(d)[i] == Entry(k, d.values[k]);
    }
  }

  lemma ItemsKeys<V>(d: Dict<V>)
    requires Valid(d)
    ensures KeySet(Items(d)) == set k | k in d.keys
  {
    var items := Items(d);
    forall k | k in d.keys ensures k in KeySet(items) {
      var i :| 0 <= i < |d.keys| && d.keys[i] == k;
      assert items[i].key == k;
    }
  }

  function SumReal(s: seq<Entry<real>>): real
  {
    if s == [] then 0.0 else s[0].value + SumReal(s[1..])
  }

  function SumInt(s: seq<Entry<int>>): int
  {
    if s == [] then 0 else s[0].value + SumInt(s[1..])
  }

  lemma {:induction false} SumRealAppend(s: seq<Entry<real>>, t: seq<Entry<real>>)
    ensures SumReal(s + t) == SumReal(s) + SumReal(t)
  {
    if s != [] {
      assert (s + t)[1..] == s[1..] + t;
      SumRealAppend(s[1..], t);
    } else {
      assert s + t == t;
    }
  }

  lemma {:induction false} SumIntAppend(s: seq<Entry<int>>, t: seq<Entry<int>>)
    ensures SumInt(s + t) == SumInt(s) + SumInt(t)
  {
    if s != [] {
      assert (s + t)[1..] == s[1..] + t;
      SumIntAppend(s[1..], t);
    } else {
      assert s + t == t;
    }
  }

  /** Raising one value by `x` raises the sum by `x`. */
  lemma {:induction false} SumRealUpdate(s: seq<Entry<real>>, j: nat, e: Entry<real>, x: real)
    requires j < |s| && e.value == s[j].value + x
    ensures SumReal(s[j := e]) == SumReal(s) + x
  {
    if j > 0 {
      assert s[j := e][1..] == s[1..][j - 1 := e];
      SumRealUpdate(s[1..], j - 1, e, x);
    }
  }

  lemma {:induction false} SumIntUpdate(s: seq<Entry<int>>, j: nat, e: Entry<int>, x: int)
    requires j < |s| && e.value == s[j].value + x
    ensures SumInt(s[j := e]) == SumInt(s) + x
  {
    if j > 0 {
      assert s[j := e][1..] == s[1..][j - 1 := e];
      SumIntUpdate(s[1..], j - 1, e, x);
    }
  }

  /** Overwriting the value of a present key changes that one pair of `items()` in place. */
  lemma ItemsOverwrite<V>(d: Dict<V>, j: nat, v: V)
    requires Valid(d) && j < |d.keys|
    ensures Valid(Dict(d.keys, d.values[d.keys[j] := v]))
    ensures Items(Dict(d.keys, d.values[d.keys[j] := v])) == Items(d)[j := Entry(d.keys[j], v)]
  {
    var e := Dict(d.keys, d.values[d.keys[j] := v]);
    assert Valid(e);
    var a, b := Items(d), Items(e);
    forall i | 0 <= i < |a| ensures b[i] == a[j := Entry(d.keys[j], v)][i] {
      if i != j {
        assert d.keys[i] != d.keys[j];
      }
    }
  }

  /** Inserting a new key appends its pair to `items()`. */
  lemma ItemsInsert<V>(d: Dict<V>, k: string, v: V)
    requires Valid(d) && k !in d.values
    ensures Valid(Dict(d.keys + [k], d.values[k := v]))
    ensures Items(Dict(d.keys + [k], d.values[k := v])) == Items(d) + [Entry(k, v)]
  {
    var e := Dict(d.keys + [k], d.values[k := v]);
    assert Valid(e);
    var a, b := Items(d), Items(e);
    forall i | 0 <= i < |b| ensures b[i] == (a + [Entry(k, v)])[i] {
      if i < |a| {
        assert e.keys[i] == d.keys[i] && d.keys[i] != k;
      }
    }
  }

  /** `d[k] += x` adds exactly `x` to the sum of all values. */
  lemma AddRealTotal(d: Dict<real>, k: string, x: real)
    requires Valid(d)
    ensures Valid(AddReal(d, k, x))
    ensures SumReal(Items(AddReal(d, k, x))) == SumReal(Items(d)) + x
  {
    AddRealValid(d, k, x);
    var r := AddReal(d, k, x);
    if k in d.values {
      var j :| 0 <= j < |d.keys| && d.keys[j] == k;
      assert r == Dict(d.keys, d.values[d.keys[j] := d.values[k] + x]);
      ItemsOverwrite(d, j, d.values[k] + x);
      SumRealUpdate(Items(d), j, Entry(k, d.values[k] + x), x);
    } else {
      assert r == Dict(d.keys + [k], d.values[k := x]);
      ItemsInsert(d, k, x);
      SumRealAppend(Items(d), [Entry(k, x)]);
      assert SumReal([Entry(k, x)]) == x;
    }
  }

  lemma AddIntTotal(d: Dict<int>, k: string, x: int)
    requires Valid(d)
    ensures Valid(AddInt(d, k, x))
    ensures SumInt(Items(AddInt(d, k, x))) == SumInt(Items(d)) + x
  {
    AddIntValid(d, k, x);
    var r := AddInt(d, k, x);
    if k in d.values {
      var j :| 0 <= j < |d.keys| && d.keys[j] == k;
      assert r == Dict(d.keys, d.values[d.keys[j] := d.values[k] + x]);
      ItemsOverwrite(d, j, d.values[k] + x);
      SumIntUpdate(Items(d), j, Entry(k, d.values[k] + x), x);
    } else {
      assert r == Dict(d.keys + [k], d.values[k := x]);
      ItemsInsert(d, k, x);
      SumIntAppend(Items(d), [Entry(k, x)]);
      assert SumInt([Entry(k, x)]) == x;
    }
  }
}
