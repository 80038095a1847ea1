/**
 * Python dictionaries as insertion-ordered association lists. Assigning to a
 * key that is present replaces its value where it stands; a new key goes at
 * the end. Iteration follows the list.
 */
module Dicts {
  import opened Wrappers

  type Dict<K, V> = seq<(K, V)>

  function Keys<K, V>(d: Dict<K, V>): (ks: seq<K>)
    ensures |ks| == |d|
    ensures forall i :: 0 <= i < |d| ==> ks[i] == d[i].0
  {
    if d == [] then [] else [d[0].0] + Keys(d[1..])
  }

  lemma KeysCons<K, V>(d: Dict<K, V>)
    requires d != []
    ensures Keys(d) == [d[0].0] + Keys(d[1..])
  {
  }

  predicate Distinct<K(==)>(s: seq<K>) {
    forall i, j :: 0 <= i < j < |s| ==> s[i] != s[j]
  }

  /** `d.get(k)`: the value stored under `k`, if any. */
  function Get<K(==), V>(d: Dict<K, V>, k: K): (r: Option<V>)
    ensures r.Some? <==> k in Keys(d)
  {
    if d == [] then None
    else
      KeysCons(d);
      if d[0].0 == k then Some(d[0].1) else Get(d[1..], k)
  }

  /** `d[k] = v`. */
  function Put<K(==,!new), V>(d: Dict<K, V>, k: K, v: V): (r: Dict<K, V>)
    ensures Get(r, k) == Some(v)
    ensures forall k' :: k' != k ==> Get(r, k') == Get(d, k')
    ensures forall i :: 0 <= i < |r| ==> r[i].1 == v || (i < |d| && r[i] == d[i])
  {
    if d == [] then [(k, v)]
    else
      KeysCons(d);
      if d[0].0 == k then
        var r := [(k, v)] + d[1..];
        KeysCons(r);
        assert r[1..] == d[1..];
        r
      else
        var rest := Put(d[1..], k, v);
        var r := [d[0]] + rest;
        KeysCons(r);
        assert r[1..] == rest;
        r
  }

  /** A key already present keeps its place; a new key goes at the end. */
  lemma {:induction false} PutKeys<K(!new), V>(d: Dict<K, V>, k: K, v: V)
    ensures Keys(Put(d, k, v)) == if k in Keys(d) then Keys(d) else Keys(d) + [k]
  {
    if d != [] {
      KeysCons(d);
      var r := Put(d, k, v);
      KeysCons(r);
      if d[0].0 == k {
        assert r[1..] == d[1..];
      } else {
        PutKeys(d[1..], k, v);
        assert r[1..] == Put(d[1..], k, v);
      }
    }
  }

  /** Storing under a key other than the first leaves the first entry in front. */
  lemma PutCons<K(!new), V>(d: Dict<K, V>, k: K, v: V, rest: Dict<K, V>)
    requires d != [] && d[0].0 != k && Put(d[1..], k, v) == rest
    ensures Put(d, k, v) == [d[0]] + rest
  {
  }

  /** Storing under a new key appends one entry and leaves the others as they were. */
  lemma {:induction false} PutNew<K(!new), V>(d: Dict<K, V>, k: K, v: V)
    requires k !in Keys(d)
    ensures Put(d, k, v) == d + [(k, v)]
  {
    if d != [] {
      assert d[0].0 != k && k !in Keys(d[1..]) by {
        KeysCons(d);
      }
      PutNew(d[1..], k, v);
      PutCons(d, k, v, d[1..] + [(k, v)]);
      assert [d[0]] + (d[1..] + [(k, v)]) == d + [(k, v)];
    }
  }

  /** With distinct keys, the entry at position `i` is what `Get` finds under its key. */
  lemma {:induction false} GetAt<K(!new), V>(d: Dict<K, V>, i: nat)
    requires i < |d| && Distinct(Keys(d))
    ensures Get(d, d[i].0) == Some(d[i].1)
  {
    if i > 0 {
      KeysCons(d);
      assert Keys(d)[0] != Keys(d)[i];
      assert Distinct(Keys(d[1..])) by {
        forall a, b | 0 <= a < b < |d| - 1 ensures Keys(d[1..])[a] != Keys(d[1..])[b] {
          assert Keys(d)[a + 1] != Keys(d)[b + 1];
        }
      }
      GetAt(d[1..], i - 1);
    }
  }

  /** The keys of `s` in order of first appearance: the key order of a dict built from `s`. */
  function Dedup<K(==,!new)>(s: seq<K>): (r: seq<K>)
    ensures Distinct(r)
    ensures forall x :: x in r <==> x in s
    ensures |r| <= |s|
    ensures Distinct(s) ==> r == s
  {
    if s == [] then []
    else
      var init := s[..|s| - 1];
      var d := Dedup(init);
      assert forall x :: x in s <==> x in init || x == s[|s| - 1] by {
        assert s == init + [s[|s| - 1]];
      }
      assert Distinct(s) ==> Distinct(init) && s[|s| - 1] !in init;
      if s[|s| - 1] in d then d else d + [s[|s| - 1]]
  }

  /** `{k: v for k in ks}`: one entry per distinct key, in order of first appearance, each holding `v`. */
  function FromKeys<K(==,!new), V>(ks: seq<K>, v: V): (d: Dict<K, V>)
    ensures Keys(d) == Dedup(ks)
    ensures forall i :: 0 <= i < |d| ==> d[i].1 == v
  {
    if ks == [] then []
    else
      var d := FromKeys(ks[..|ks| - 1], v);
      PutKeys(d, ks[|ks| - 1], v);
      Put(d, ks[|ks| - 1], v)
  }

  /** Every entry holds `v`. */
  lemma FromKeysValues<K(!new), V>(ks: seq<K>, v: V)
    ensures forall e :: e in FromKeys(ks, v) ==> e.1 == v
  {
    var d := FromKeys(ks, v);
    forall e | e in d ensures e.1 == v {
      var i :| 0 <= i < |d| && d[i] == e;
    }
  }

  /** Looking a key up finds `v` exactly when the key was listed. */
  lemma {:induction false} FromKeysGet<K(!new), V>(ks: seq<K>, v: V, k: K)
    ensures Get(FromKeys(ks, v), k) == if k in ks then Some(v) else None
  {
    if ks != [] {
      var init, last := ks[..|ks| - 1], ks[|ks| - 1];
      assert ks == init + [last];
      if k != last {
        FromKeysGet(init, v, k);
        assert Get(FromKeys(ks, v), k) == Get(FromKeys(init, v), k);
      }
    }
  }

  /** `for k in ks: d[k] = v`: every listed key stored with `v`, in order. */
  function PutAll<K(==,!new), V>(d: Dict<K, V>, ks: seq<K>, v: V): Dict<K, V> {
    if ks == [] then d else Put(PutAll(d, ks[..|ks| - 1], v), ks[|ks| - 1], v)
  }

  lemma PutAllStep<K(!new), V>(d: Dict<K, V>, ks: seq<K>, v: V, i: nat)
    requires i < |ks|
    ensures PutAll(d, ks[..i + 1], v) == Put(PutAll(d, ks[..i], v), ks[i], v)
  {
    assert ks[..i + 1][..i] == ks[..i];
  }

  /** The listed keys hold `v` afterwards; every other key keeps what it had. */
  lemma {:induction false} PutAllGet<K(!new), V>(d: Dict<K, V>, ks: seq<K>, v: V, k: K)
    ensures Get(PutAll(d, ks, v), k) == if k in ks then Some(v) else Get(d, k)
  {
    if ks != [] {
      var init, last := ks[..|ks| - 1], ks[|ks| - 1];
      assert ks == init + [last];
      if k != last {
        PutAllGet(d, init, v, k);
      }
    }
  }

  /** `for k, v in es: d[k] = v`, starting from an empty dict. */
  function FromPairs<K(==,!new), V>(es: seq<(K, V)>): Dict<K, V> {
    if es == [] then [] else Put(FromPairs(es[..|es| - 1]), es[|es| - 1].0, es[|es| - 1].1)
  }

  lemma FromPairsStep<K(!new), V>(es: seq<(K, V)>, i: nat)
    requires i < |es|
    ensures FromPairs(es[..i + 1]) == Put(FromPairs(es[..i]), es[i].0, es[i].1)
  {
    assert es[..i + 1][..i] == es[..i];
  }

  /** One entry per distinct key, in order of first appearance. */
  lemma {:induction false} FromPairsKeys<K(!new), V>(es: seq<(K, V)>)
    ensures Keys(FromPairs(es)) == Dedup(Keys(es))
  {
    if es != [] {
      var n := |es| - 1;
      var before := Dedup(Keys(es[..n]));
      assert Dedup(Keys(es)) == if es[n].0 in before then before else before + [es[n].0] by {
        assert Keys(es)[..n] == Keys(es[..n]);
      }
      FromPairsKeys(es[..n]);
      PutKeys(FromPairs(es[..n]), es[n].0, es[n].1);
    }
  }

  /** Every stored value is one of the values listed. */
  lemma {:induction false} FromPairsValues<K(!new), V>(es: seq<(K, V)>, ok: V -> bool)
    requires forall j :: 0 <= j < |es| ==> ok(es[j].1)
    ensures forall i :: 0 <= i < |FromPairs(es)| ==> ok(FromPairs(es)[i].1)
  {
    if es != [] {
      var n := |es| - 1;
      FromPairsValues(es[..n], ok);
      var d := FromPairs(es[..n]);
      var r := Put(d, es[n].0, es[n].1);
      forall i | 0 <= i < |r| ensures ok(r[i].1) {
        assert r[i].1 == es[n].1 || (i < |d| && r[i] == d[i]);
      }
    }
  }

  /** The value paired with the last occurrence of `k`, if any. */
  function LastValue<K(==), V>(es: seq<(K, V)>, k: K): Option<V> {
    if es == [] then None
    else if es[|es| - 1].0 == k then Some(es[|es| - 1].1)
    else LastValue(es[..|es| - 1], k)
  }

  /** Looking a key up finds the value paired with its last occurrence. */
  lemma {:induction false} FromPairsGet<K(!new), V>(es: seq<(K, V)>, k: K)
    ensures Get(FromPairs(es), k) == LastValue(es, k)
  {
    if es != [] && es[|es| - 1].0 != k {
      FromPairsGet(es[..|es| - 1], k);
    }
  }

  /** An occurrence with no later pair for its key is the last one. */
  lemma {:induction false} LastValueAt<K(!new), V>(es: seq<(K, V)>, i: nat)
    requires i < |es|
    requires forall j :: i < j < |es| ==> es[j].0 != es[i].0
    ensures LastValue(es, es[i].0) == Some(es[i].1)
  {
    var n := |es| - 1;
    if i < n {
      assert es[..n][i] == es[i];
      LastValueAt(es[..n], i);
    }
  }

  /** With distinct keys, the dict lists the pairs as given. */
  lemma {:induction false} FromPairsDistinct<K(!new), V>(es: seq<(K, V)>)
    requires Distinct(Keys(es))
    ensures FromPairs(es) == es
  {
    if es != [] {
      var n := |es| - 1;
      assert Keys(es)[..n] == Keys(es[..n]);
      assert Distinct(Keys(es[..n]));
      FromPairsDistinct(es[..n]);
      assert es[n].0 !in Keys(es[..n]) by {
        forall a | 0 <= a < n ensures Keys(es[..n])[a] != es[n].0 {
          assert Keys(es)[a] != Keys(es)[n];
        }
      }
      PutNew(es[..n], es[n].0, es[n].1);
      assert es == es[..n] + [es[n]];
    }
  }

  /** How many times `x` occurs in `s`. */
  function Occurrences<K(==)>(s: seq<K>, x: K): (n: nat)
    ensures n <= |s|
    ensures n == 0 <==> x !in s
  {
    if s == [] then 0
    else
      assert s == s[..|s| - 1] + [s[|s| - 1]];
      Occurrences(s[..|s| - 1], x) + (if s[|s| - 1] == x then 1 else 0)
  }

  // ---------------------------------------------------------------------
  // Counter dictionaries: `d[k] = d.get(k, 0) + 1`
  // ---------------------------------------------------------------------

  /** The sum of the values. */
  function Total<K>(d: Dict<K, nat>): nat {
    if d == [] then 0 else d[0].1 + Total(d[1..])
  }

  /** Storing `v` under `k` replaces the old value in the total. */
  lemma {:induction false} TotalPut<K(!new)>(d: Dict<K, nat>, k: K, v: nat)
    ensures Total(Put<K, nat>(d, k, v)) + CountOf(d, k) == Total(d) + v
  {
    if d != [] && d[0].0 != k {
      TotalPut(d[1..], k, v);
      assert Put<K, nat>(d, k, v)[1..] == Put<K, nat>(d[1..], k, v);
    } else if d != [] {
      assert Put<K, nat>(d, k, v)[1..] == d[1..];
    }
  }

  /** `d.get(k, 0)` on a counter dictionary. */
  function CountOf<K(==)>(d: Dict<K, nat>, k: K): nat {
    match Get(d, k)
    case Some(n) => n
    case None => 0
  }

  /** A counter dictionary holding only zeros counts nothing. */
  lemma {:induction false} CountOfZeros<K>(d: Dict<K, nat>, k: K)
    requires forall i :: 0 <= i < |d| ==> d[i].1 == 0
    ensures CountOf(d, k) == 0
  {
    if d != [] && d[0].0 != k {
      CountOfZeros(d[1..], k);
    }
  }

  function Increment<K(==,!new)>(d: Dict<K, nat>, k: K): Dict<K, nat> {
    Put<K, nat>(d, k, CountOf(d, k) + 1)
  }

  lemma IncrementCount<K(!new)>(d: Dict<K, nat>, x: K, k: K)
    ensures CountOf(Increment(d, x), k) == CountOf(d, k) + (if x == k then 1 else 0)
  {
    var r := Put<K, nat>(d, x, CountOf(d, x) + 1);
    if x != k {
      assert Get(r, k) == Get(d, k);
    }
  }

  lemma IncrementTotal<K(!new)>(d: Dict<K, nat>, x: K)
    ensures Total(Increment(d, x)) == Total(d) + 1
  {
    TotalPut(d, x, CountOf(d, x) + 1);
  }

  /** Counting every key of `ks`, in order, into the counters `d`. */
  function CountAll<K(==,!new)>(d: Dict<K, nat>, ks: seq<K>): Dict<K, nat> {
    if ks == [] then d else Increment(CountAll(d, ks[..|ks| - 1]), ks[|ks| - 1])
  }

  /** Each key ends up counted once per occurrence, on top of its starting value. */
  lemma {:induction false} CountAllGet<K(!new)>(d: Dict<K, nat>, ks: seq<K>, k: K)
    ensures CountOf(CountAll(d, ks), k) == CountOf(d, k) + Occurrences(ks, k)
  {
    if ks != [] {
      var init, x := ks[..|ks| - 1], ks[|ks| - 1];
      var c := CountAll(d, init);
      CountAllGet(d, init, k);
      IncrementCount(c, x, k);
    }
  }

  /** Counting n keys raises the total by exactly n. */
  lemma {:induction false} CountAllTotal<K(!new)>(d: Dict<K, nat>, ks: seq<K>)
    ensures Total(CountAll(d, ks)) == Total(d) + |ks|
  {
    if ks != [] {
      var init, x := ks[..|ks| - 1], ks[|ks| - 1];
      var c := CountAll(d, init);
      CountAllTotal(d, init);
      assert CountAll(d, ks) == Increment(c, x);
      IncrementTotal(c, x);
    }
  }
}
