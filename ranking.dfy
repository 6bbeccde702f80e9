/**
 * `sorted(d.items(), key=lambda x: x[1], reverse=True)`: the entries of a
 * grouping ranked by value, largest first. Python's sort is stable, also
 * with `reverse=True`, so entries of equal value keep their input order;
 * the model is an insertion sort with that behaviour.
 */
module Ranking {
  import opened OrderedDict

  /** Non-increasing in value. */
  predicate SortedDesc(s: seq<Entry<real>>)
  {
    forall i, j :: 0 <= i < j < |s| ==> s[i].value >= s[j].value
  }

  /** Every value in `s` is at most `v`. */
  predicate AtMost(s: seq<Entry<real>>, v: real)
  {
    forall i :: 0 <= i < |s| ==> s[i].value <= v
  }

  /** No entry of `s` has key `k`. */
  predicate NoKey<V>(s: seq<Entry<V>>, k: string)
  {
    forall i :: 0 <= i < |s| ==> s[i].key != k
  }

  /** Places `x` before the first entry whose value does not exceed `x.value`. */
  function Insert(x: Entry<real>, s: seq<Entry<real>>): (r: seq<Entry<real>>)
    ensures multiset(r) == multiset(s) + multiset{x}
  {
    if s == [] || s[0].value <= x.value then [x] + s
    else
      assert s == [s[0]] + s[1..];
      [s[0]] + Insert(x, s[1..])
  }

  lemma {:induction false} InsertAtMost(x: Entry<real>, s: seq<Entry<real>>, v: real)
    requires AtMost(s, v) && x.value <= v
    ensures AtMost(Insert(x, s), v)
  {
    if s != [] && s[0].value > x.value {
      InsertAtMost(x, s[1..], v);
    }
  }

  lemma {:induction false} InsertSorted(x: Entry<real>, s: seq<Entry<real>>)
    requires SortedDesc(s)
    ensures SortedDesc(Insert(x, s))
  {
    if s != [] && s[0].value > x.value {
      InsertSorted(x, s[1..]);
      InsertAtMost(x, s[1..], s[0].value);
    }
  }

  /** The ranking: sorted by value, largest first, and a permutation of its input. */
  function SortDesc(s: seq<Entry<real>>): (r: seq<Entry<real>>)
    ensures SortedDesc(r)
    ensures multiset(r) == multiset(s)
  {
    if s == [] then []
    else
      var rest := SortDesc(s[1..]);
      InsertRanks(s, rest);
      Insert(s[0], rest)
  }

  /** Inserting the head of `s` into a ranking of its tail ranks `s`. */
  lemma InsertRanks(s: seq<Entry<real>>, rest: seq<Entry<real>>)
    requires s != [] && SortedDesc(rest) && multiset(rest) == multiset(s[1..])
    ensures SortedDesc(Insert(s[0], rest))
    ensures multiset(Insert(s[0], rest)) == multiset(s)
  {
    InsertSorted(s[0], rest);
    assert s == [s[0]] + s[1..];
  }

  /** A single entry is its own ranking. */
  lemma SortSingleton(e: Entry<real>)
    ensures SortDesc([e]) == [e]
  {
    assert [e][1..] == [];
  }

  /** The entries of `s` whose value is `v`, in their order in `s`. */
  function WithValue(s: seq<Entry<real>>, v: real): seq<Entry<real>>
  {
    if s == [] then [] else (if s[0].value == v then [s[0]] else []) + WithValue(s[1..], v)
  }

  lemma WithValueCons(e: Entry<real>, s: seq<Entry<real>>, v: real)
    ensures WithValue([e] + s, v) == (if e.value == v then [e] else []) + WithValue(s, v)
  {
    assert ([e] + s)[1..] == s;
  }

  lemma {:induction false} InsertStable(x: Entry<real>, s: seq<Entry<real>>, v: real)
    ensures WithValue(Insert(x, s), v) == WithValue([x] + s, v)
    decreases s
  {
    if s != [] && s[0].value > x.value {
      var rest := Insert(x, s[1..]);
      var hx := if x.value == v then [x] else [];
      var h0 := if s[0].value == v then [s[0]] else [];
      var tail := WithValue(s[1..], v);
      InsertStable(x, s[1..], v);
      WithValueCons(x, s[1..], v);
      WithValueCons(s[0], rest, v);
      WithValueCons(x, s, v);
      calc {
        WithValue(Insert(x, s), v);
        WithValue([s[0]] + rest, v);
        h0 + WithValue(rest, v);
        h0 + (hx + tail);
        {
          if hx == [] {
            assert hx + tail == tail && hx + (h0 + tail) == h0 + tail;
          } else {
            assert h0 == [];
            assert h0 + (hx + tail) == hx + tail && h0 + tail == tail;
          }
        }
        hx + (h0 + tail);
        hx + WithValue(s, v);
        WithValue([x] + s, v);
      }
    }
  }

  /** Stability: entries of equal value appear in the ranking in their input order. */
  lemma {:induction false} SortStable(s: seq<Entry<real>>, v: real)
    ensures WithValue(SortDesc(s), v) == WithValue(s, v)
    decreases s
  {
    if s != [] {
      InsertStable(s[0], SortDesc(s[1..]), v);
      WithValueCons(s[0], SortDesc(s[1..]), v);
      SortStable(s[1..], v);
    }
  }

  lemma {:induction false} InsertSum(x: Entry<real>, s: seq<Entry<real>>)
    ensures SumReal(Insert(x, s)) == x.value + SumReal(s)
  {
    if s == [] || s[0].value <= x.value {
      assert ([x] + s)[1..] == s;
    } else {
      var rest := Insert(x, s[1..]);
      assert ([s[0]] + rest)[1..] == rest;
      InsertSum(x, s[1..]);
    }
  }

  /** Ranking a grouping does not change its total. */
  lemma {:induction false} SortSum(s: seq<Entry<real>>)
    ensures SumReal(SortDesc(s)) == SumReal(s)
  {
    if s != [] {
      InsertSum(s[0], SortDesc(s[1..]));
      SortSum(s[1..]);
    }
  }

  lemma {:induction false} InsertNoKey(x: Entry<real>, s: seq<Entry<real>>, k: string)
    ensures NoKey(Insert(x, s), k) <==> x.key != k && NoKey(s, k)
  {
    if s == [] || s[0].value <= x.value {
      assert Insert(x, s)[0] == x;
      assert forall i :: 0 <= i < |s| ==> Insert(x, s)[i + 1] == s[i];
    } else {
      var rest := Insert(x, s[1..]);
      InsertNoKey(x, s[1..], k);
      assert forall i :: 0 <= i < |rest| ==> Insert(x, s)[i + 1] == rest[i];
      assert forall i :: 0 < i < |s| ==> s[1..][i - 1] == s[i];
    }
  }

  /** A key occurs in the ranking exactly when it occurs in its input. */
  lemma {:induction false} SortNoKey(s: seq<Entry<real>>, k: string)
    ensures NoKey(SortDesc(s), k) <==> NoKey(s, k)
  {
    if s != [] {
      var rest := SortDesc(s[1..]);
      assert SortDesc(s) == Insert(s[0], rest);
      InsertNoKey(s[0], rest, k);
      SortNoKey(s[1..], k);
      NoKeyFirst(s, k);
    }
  }

  lemma NoKeyFirst<V>(s: seq<Entry<V>>, k: string)
    requires s != []
    ensures NoKey(s, k) <==> s[0].key != k && NoKey(s[1..], k)
  {
    assert forall i :: 0 < i < |s| ==> s[1..][i - 1] == s[i];
  }

  lemma {:induction false} InsertDistinct(x: Entry<real>, s: seq<Entry<real>>)
    requires DistinctKeys(s) && NoKey(s, x.key)
    ensures DistinctKeys(Insert(x, s))
  {
    if s != [] && s[0].value > x.value {
      InsertDistinct(x, s[1..]);
      InsertNoKey(x, s[1..], s[0].key);
    }
  }

  /** A ranking of entries with distinct keys has distinct keys. */
  lemma {:induction false} SortDistinct(s: seq<Entry<real>>)
    requires DistinctKeys(s)
    ensures DistinctKeys(SortDesc(s))
  {
    if s != [] {
      SortDistinct(s[1..]);
      SortNoKey(s[1..], s[0].key);
      InsertDistinct(s[0], SortDesc(s[1..]));
    }
  }

  /** A ranking holds the same keys as the grouping it ranks. */
  lemma SortKeys(s: seq<Entry<real>>)
    ensures KeySet(SortDesc(s)) == KeySet(s)
  {
    var r := SortDesc(s);
    forall k ensures k in KeySet(r) <==> k in KeySet(s) {
      SortNoKey(s, k);
      if k in KeySet(r) {
        var i :| 0 <= i < |r| && r[i].key == k;
      }
      if k in KeySet(s) {
        var i :| 0 <= i < |s| && s[i].key == k;
      }
    }
  }
}
