/**
 * PHP's ordered arrays with string keys, and the builtins Form.php applies to
 * its field registry: `$a[$k] = $v`, `unset`, `array_slice`, the union `+`,
 * `array_search` over `array_keys`, and `foreach` over the values.
 */
module PhpArray {
  import opened Wrappers

  /** An ordered array: its keys in insertion order, and the entry under each key. */
  datatype OMap<V> = OMap(keys: seq<string>, vals: map<string, V>)

  predicate Distinct(s: seq<string>) {
    forall i, j :: 0 <= i < j < |s| ==> s[i] != s[j]
  }

  /** Every key occurs once in the order, and the order lists exactly the keys present. */
  ghost predicate Valid<V>(m: OMap<V>) {
    Distinct(m.keys) && (forall k :: k in m.vals <==> k in m.keys)
  }

  function Min(a: int, b: int): int {
    if a <= b then a else b
  }

  /** `[]` */
  function Empty<V>(): (r: OMap<V>)
    ensures Valid(r) && r.keys == [] && r.vals == map[]
  {
    OMap([], map[])
  }

  /** `$a[$k] = $v`: the entry under `k` becomes `v`; a key already present keeps its slot, a fresh key goes last. */
  function Put<V>(m: OMap<V>, k: string, v: V): (r: OMap<V>)
    requires Valid(m)
    ensures Valid(r)
    ensures r.vals == m.vals[k := v]
    ensures k in m.vals ==> r.keys == m.keys
    ensures k !in m.vals ==> r.keys == m.keys + [k]
  {
    if k in m.vals then OMap(m.keys, m.vals[k := v]) else OMap(m.keys + [k], m.vals[k := v])
  }

  /** The elements of `s` that are not in `drop`, in their order in `s`. */
  function FilterOut(s: seq<string>, drop: set<string>): (r: seq<string>)
    ensures |r| <= |s|
  {
    if s == [] then []
    else if s[0] in drop then FilterOut(s[1..], drop)
    else [s[0]] + FilterOut(s[1..], drop)
  }

  /** Filtering keeps exactly the elements outside `drop`, and keeps a duplicate-free order duplicate-free. */
  lemma {:induction false} FilterOutMembers(s: seq<string>, drop: set<string>)
    ensures forall x :: x in FilterOut(s, drop) <==> x in s && x !in drop
    ensures Distinct(s) ==> Distinct(FilterOut(s, drop))
  {
    if s != [] {
      var t := s[1..];
      FilterOutMembers(t, drop);
      assert forall x :: x in s <==> x == s[0] || x in t;
      if Distinct(s) {
        assert Distinct(t) by {
          forall a, b | 0 <= a < b < |t| ensures t[a] != t[b] {
            assert t[a] == s[a + 1] && t[b] == s[b + 1];
          }
        }
        if s[0] !in drop {
          assert s[0] !in t by {
            forall b | 0 <= b < |t| ensures t[b] != s[0] {
              assert t[b] == s[b + 1];
            }
          }
          var r := FilterOut(t, drop);
          forall a, b | 0 <= a < b < |[s[0]] + r| ensures ([s[0]] + r)[a] != ([s[0]] + r)[b] {
            if a == 0 {
              assert ([s[0]] + r)[b] == r[b - 1];
              assert r[b - 1] in r;
            } else {
              assert ([s[0]] + r)[a] == r[a - 1] && ([s[0]] + r)[b] == r[b - 1];
            }
          }
        }
      }
    }
  }

  /** `unset($a[$k])`: the entry under `k` goes and the remaining keys close up in their order. */
  function Unset<V>(m: OMap<V>, k: string): (r: OMap<V>)
    requires Valid(m)
    ensures Valid(r)
    ensures r.vals == m.vals - {k}
    ensures r.keys == FilterOut(m.keys, {k})
  {
    FilterOutMembers(m.keys, {k});
    OMap(FilterOut(m.keys, {k}), m.vals - {k})
  }

  /** `array_slice($a, 0, $n)`: the first `n` entries (all of them when there are fewer). */
  function Take<V>(m: OMap<V>, n: nat): (r: OMap<V>)
    requires Valid(m)
    ensures Valid(r)
    ensures r.keys == m.keys[..Min(n, |m.keys|)]
    ensures forall k :: k in r.vals ==> k in m.vals && r.vals[k] == m.vals[k]
  {
    var ks := m.keys[..Min(n, |m.keys|)];
    OMap(ks, map k | k in m.vals && k in ks :: m.vals[k])
  }

  /** `array_slice($a, $n)`: every entry from position `n` on. */
  function Drop<V>(m: OMap<V>, n: nat): (r: OMap<V>)
    requires Valid(m)
    ensures Valid(r)
    ensures r.keys == m.keys[Min(n, |m.keys|)..]
    ensures forall k :: k in r.vals ==> k in m.vals && r.vals[k] == m.vals[k]
  {
    var ks := m.keys[Min(n, |m.keys|)..];
    OMap(ks, map k | k in m.vals && k in ks :: m.vals[k])
  }

  lemma DistinctConcat(a: seq<string>, b: seq<string>)
    requires Distinct(a) && Distinct(b)
    requires forall x :: x in a ==> x !in b
    ensures Distinct(a + b)
  {
    forall i, j | 0 <= i < j < |a + b|
      ensures (a + b)[i] != (a + b)[j]
    {
      if j >= |a| && i < |a| {
        assert (a + b)[i] in a && (a + b)[j] == b[j - |a|];
      }
    }
  }

  /**
   * `$a + $b`: every entry of `a` in its order, then the entries of `b` whose
   * key `a` lacks; on a shared key the entry of `a` wins.
   */
  function Union<V>(a: OMap<V>, b: OMap<V>): (r: OMap<V>)
    requires Valid(a) && Valid(b)
    ensures Valid(r)
    ensures r.keys == a.keys + FilterOut(b.keys, a.vals.Keys)
    ensures forall k :: k in r.vals <==> k in a.vals || k in b.vals
    ensures forall k :: k in a.vals ==> r.vals[k] == a.vals[k]
    ensures forall k :: k in b.vals && k !in a.vals ==> r.vals[k] == b.vals[k]
  {
    var rest := FilterOut(b.keys, a.vals.Keys);
    FilterOutMembers(b.keys, a.vals.Keys);
    DistinctConcat(a.keys, rest);
    OMap(a.keys + rest, b.vals + a.vals)
  }

  /** `array_search($x, $s)`: the first position holding `x`, or nothing (PHP's `false`). */
  function IndexOf(s: seq<string>, x: string): (r: Option<nat>)
    ensures r.None? <==> x !in s
    ensures r.Some? ==> r.value < |s| && s[r.value] == x && x !in s[..r.value]
  {
    if s == [] then None
    else if s[0] == x then Some(0)
    else match IndexOf(s[1..], x)
      case None => None
      case Some(i) => assert s[1..][..i] == s[1..i + 1]; Some(i + 1)
  }

  /** The entries in key order, as `foreach ($a as $v)` visits them. */
  function Values<V>(m: OMap<V>): (r: seq<V>)
    requires Valid(m)
    ensures |r| == |m.keys|
    ensures forall i :: 0 <= i < |m.keys| ==> r[i] == m.vals[m.keys[i]]
  {
    seq(|m.keys|, i requires 0 <= i < |m.keys| => m.vals[m.keys[i]])
  }

  lemma {:induction false} FilterOutNone(s: seq<string>, drop: set<string>)
    requires forall x :: x in s ==> x !in drop
    ensures FilterOut(s, drop) == s
  {
    if s != [] {
      FilterOutNone(s[1..], drop);
    }
  }

  /** Removing the key at position `j` of a duplicate-free order leaves the keys before and after it. */
  lemma {:induction false} FilterOutAt(s: seq<string>, j: nat)
    requires Distinct(s) && j < |s|
    ensures FilterOut(s, {s[j]}) == s[..j] + s[j + 1..]
  {
    var t := s[1..];
    assert Distinct(t) by {
      forall a, b | 0 <= a < b < |t| ensures t[a] != t[b] {
        assert t[a] == s[a + 1] && t[b] == s[b + 1];
      }
    }
    if j == 0 {
      forall y | y in t ensures y !in {s[0]} {
        var b :| 0 <= b < |t| && t[b] == y;
        assert s[b + 1] == y;
      }
      FilterOutNone(t, {s[0]});
    } else {
      assert s[0] != s[j];
      assert t[j - 1] == s[j];
      FilterOutAt(t, j - 1);
      assert t[..j - 1] == s[1..j] && t[j..] == s[j + 1..];
      assert s[..j] == [s[0]] + s[1..j];
    }
  }

  /** In a duplicate-free order nothing before position `i` occurs again from `i` on. */
  lemma SplitDisjoint(s: seq<string>, i: nat)
    requires Distinct(s) && i <= |s|
    ensures forall x :: x in s[..i] ==> x !in s[i..]
  {
    forall x | x in s[..i] ensures x !in s[i..] {
      var a :| 0 <= a < i && s[a] == x;
      assert forall b :: 0 <= b < |s| - i ==> s[i..][b] == s[i + b] && s[i + b] != x;
    }
  }

  /**
   * The splice Form.php performs for `addBefore`/`addAfter`: truncate to the
   * first `n` entries, put `k`, then union the dropped suffix back on. When
   * `k` was already in the kept prefix it is overwritten in its slot; otherwise
   * it lands right after the prefix and the union drops any old copy of it from
   * the suffix, so an existing `k` moves.
   */
  lemma Splice<V>(m: OMap<V>, n: nat, k: string, v: V)
    requires Valid(m)
    ensures var i := Min(n, |m.keys|);
      Union(Put(Take(m, n), k, v), Drop(m, n)) ==
        if k in m.keys[..i] then OMap(m.keys, m.vals[k := v])
        else OMap(m.keys[..i] + [k] + FilterOut(m.keys[i..], {k}), m.vals[k := v])
  {
    SpliceVals(m, n, k, v);
    SpliceKeys(m, n, k, v);
  }

  lemma SpliceKeys<V>(m: OMap<V>, n: nat, k: string, v: V)
    requires Valid(m)
    ensures var i := Min(n, |m.keys|);
      Union(Put(Take(m, n), k, v), Drop(m, n)).keys ==
        if k in m.keys[..i] then m.keys else m.keys[..i] + [k] + FilterOut(m.keys[i..], {k})
  {
    if k in m.keys[..Min(n, |m.keys|)] {
      SpliceKeysKept(m, n, k, v);
    } else {
      SpliceKeysInserted(m, n, k, v);
    }
  }

  lemma SpliceKeysKept<V>(m: OMap<V>, n: nat, k: string, v: V)
    requires Valid(m) && k in m.keys[..Min(n, |m.keys|)]
    ensures Union(Put(Take(m, n), k, v), Drop(m, n)).keys == m.keys
  {
    var i := Min(n, |m.keys|);
    assert m.keys[..i] + m.keys[i..] == m.keys;
    var pre, suf := Take(m, n), Drop(m, n);
    var p := Put(pre, k, v);
    assert p.keys == m.keys[..i];
    SplitDisjoint(m.keys, i);
    forall x | x in suf.keys ensures x !in p.vals.Keys {
      assert x !in p.keys;
    }
    FilterOutNone(suf.keys, p.vals.Keys);
    assert Union(p, suf).keys == p.keys + suf.keys;
  }

  lemma SpliceKeysInserted<V>(m: OMap<V>, n: nat, k: string, v: V)
    requires Valid(m) && k !in m.keys[..Min(n, |m.keys|)]
    ensures var i := Min(n, |m.keys|);
      Union(Put(Take(m, n), k, v), Drop(m, n)).keys == m.keys[..i] + [k] + FilterOut(m.keys[i..], {k})
  {
    var i := Min(n, |m.keys|);
    var pre := Take(m, n);
    var p := Put(pre, k, v);
    SplitDisjoint(m.keys, i);
    assert p.keys == m.keys[..i] + [k];
    assert forall x :: x in p.vals.Keys ==> x in m.keys[..i] || x == k;
    FilterOutSplit(m.keys[i..], p.vals.Keys, k);
  }

  /** Every key lies in the first `n` entries or in the rest. */
  lemma TakeDropCover<V>(m: OMap<V>, n: nat)
    requires Valid(m)
    ensures forall x :: x in m.vals ==> x in Take(m, n).vals || x in Drop(m, n).vals
  {
    var i := Min(n, |m.keys|);
    var pre, suf := Take(m, n), Drop(m, n);
    forall x | x in m.vals ensures x in pre.vals || x in suf.vals {
      var t :| 0 <= t < |m.keys| && m.keys[t] == x;
      if t < i { assert pre.keys[t] == x; } else { assert suf.keys[t - i] == x; }
    }
  }

  lemma SpliceVals<V>(m: OMap<V>, n: nat, k: string, v: V)
    requires Valid(m)
    ensures Union(Put(Take(m, n), k, v), Drop(m, n)).vals == m.vals[k := v]
  {
    var pre, suf := Take(m, n), Drop(m, n);
    assert Union(Put(pre, k, v), suf).vals == suf.vals + pre.vals[k := v];
    TakeDropCover(m, n);
    MergeRestrictions(m.vals, pre.vals, suf.vals, k, v);
  }

  /** Two restrictions of `w` that together cover it merge back into `w`. */
  lemma MergeRestrictions<V>(w: map<string, V>, a: map<string, V>, b: map<string, V>, k: string, v: V)
    requires forall x :: x in a ==> x in w && a[x] == w[x]
    requires forall x :: x in b ==> x in w && b[x] == w[x]
    requires forall x :: x in w ==> x in a || x in b
    ensures b + a[k := v] == w[k := v]
  {
    var u := b + a[k := v];
    forall x | x in w[k := v] ensures x in u && u[x] == w[k := v][x] {
      if x != k && x !in a {
        assert x in b;
      }
    }
    assert u.Keys == w[k := v].Keys;
  }

  /** Filtering out a set that meets `s` only in `k` is filtering out `{k}`. */
  lemma {:induction false} FilterOutSplit(s: seq<string>, drop: set<string>, k: string)
    requires k in drop
    requires forall x :: x in s && x in drop ==> x == k
    ensures FilterOut(s, drop) == FilterOut(s, {k})
  {
    if s != [] {
      FilterOutSplit(s[1..], drop, k);
    }
  }
}
