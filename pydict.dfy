/** Python dictionaries as ordered association lists. A `dict` remembers the
    order in which its keys were first inserted (every dict of this gateway has
    string keys); assigning to an existing key
    replaces its value in place, assigning to a new key appends it. */
module PyDict {
  import opened Values

  type Dict<V> = seq<(string, V)>

  function Keys<V>(d: Dict<V>): set<string> {
    set i | 0 <= i < |d| :: d[i].0
  }

  /** The keys of a non-empty dict: its first key and those of the rest. */
  lemma KeysCons<V>(d: Dict<V>)
    requires d != []
    ensures Keys(d) == {d[0].0} + Keys(d[1..])
  {
    forall k | k in Keys(d) ensures k in {d[0].0} + Keys(d[1..]) {
      var i :| 0 <= i < |d| && d[i].0 == k;
      if i > 0 { assert d[1..][i - 1] == d[i]; }
    }
    forall k | k in Keys(d[1..]) ensures k in Keys(d) {
      var i :| 0 <= i < |d[1..]| && d[1..][i].0 == k;
      assert d[i + 1] == d[1..][i];
    }
  }

  /** The keys in iteration order. */
  function KeyList<V>(d: Dict<V>): (ks: seq<string>)
    ensures |ks| == |d|
    ensures forall i :: 0 <= i < |d| ==> ks[i] == d[i].0
  {
    if d == [] then [] else [d[0].0] + KeyList(d[1..])
  }

  /** No key occurs twice, as in every Python dict. */
  ghost predicate NoDupKeys<V>(d: Dict<V>) {
    forall i, j :: 0 <= i < j < |d| ==> d[i].0 != d[j].0
  }

  /** `d.get(k)`. */
  function Get<V>(d: Dict<V>, k: string): (r: Option<V>)
    ensures r.Some? <==> k in Keys(d)
  {
    if d == [] then None
    else if d[0].0 == k then Some(d[0].1)
    else
      KeysCons(d);
      Get(d[1..], k)
  }

  /** In a dict without repeated keys, the entry at position `i` is what `get` finds. */
  lemma {:induction false} GetAt<V>(d: Dict<V>, i: int)
    requires NoDupKeys(d) && 0 <= i < |d|
    ensures Get(d, d[i].0) == Some(d[i].1)
  {
    if i > 0 {
      GetAt(d[1..], i - 1);
    }
  }

  /** `d[k] = v`: the key's position is kept when it is present, otherwise it goes last. */
  function Set<V>(d: Dict<V>, k: string, v: V): (r: Dict<V>)
    ensures Get(r, k) == Some(v)
    ensures forall k' :: k' != k ==> Get(r, k') == Get(d, k')
    ensures Keys(r) == Keys(d) + {k}
  {
    if d == [] then [(k, v)]
    else if d[0].0 == k then
      var r := [(k, v)] + d[1..];
      KeysCons(r);
      KeysCons(d);
      assert r[1..] == d[1..];
      r
    else
      var tail := Set(d[1..], k, v);
      var r := [d[0]] + tail;
      assert r[1..] == tail;
      KeysCons(d);
      KeysCons(r);
      r
  }

  /** Assignment never reorders keys: an existing key stays where it was, a new
      one is appended after all others. */
  lemma {:induction false} SetOrder<V>(d: Dict<V>, k: string, v: V)
    ensures k in Keys(d) ==> KeyList(Set(d, k, v)) == KeyList(d)
    ensures k !in Keys(d) ==> Set(d, k, v) == d + [(k, v)]
  {
    if d != [] {
      KeysCons(d);
      if d[0].0 == k {
        assert Set(d, k, v) == [(k, v)] + d[1..];
      } else {
        SetOrder(d[1..], k, v);
        var t := Set(d[1..], k, v);
        assert Set(d, k, v) == [d[0]] + t;
        if k in Keys(d) {
          assert KeyList(Set(d, k, v)) == [d[0].0] + KeyList(t);
          assert KeyList(d) == [d[0].0] + KeyList(d[1..]);
        } else {
          assert d == [d[0]] + d[1..];
        }
      }
    }
  }

  /** Assignment keeps keys unique. */
  lemma {:induction false} SetNoDup<V>(d: Dict<V>, k: string, v: V)
    requires NoDupKeys(d)
    ensures NoDupKeys(Set(d, k, v))
  {
    if d != [] {
      assert d == [d[0]] + d[1..];
      NoDupCons(d[0], d[1..]);
      if d[0].0 != k {
        SetNoDup(d[1..], k, v);
        assert Set(d, k, v) == [d[0]] + Set(d[1..], k, v);
        NoDupCons(d[0], Set(d[1..], k, v));
      } else {
        assert Set(d, k, v) == [(k, v)] + d[1..];
        NoDupCons((k, v), d[1..]);
      }
    }
  }

  /** A dict with a first entry has no key twice exactly when the rest has
      none and does not repeat the first key. */
  lemma NoDupCons<V>(x: (string, V), t: Dict<V>)
    ensures NoDupKeys([x] + t) <==> x.0 !in Keys(t) && NoDupKeys(t)
  {
    var r := [x] + t;
    assert forall i :: 0 <= i < |t| ==> r[i + 1] == t[i];
    if x.0 in Keys(t) {
      var i :| 0 <= i < |t| && t[i].0 == x.0;
      assert r[0].0 == r[i + 1].0;
    }
  }

  /** `d.pop(k)` for a present key, returning what is left. */
  function Remove<V>(d: Dict<V>, k: string): (r: Dict<V>)
    ensures Keys(r) == Keys(d) - {k}
    ensures forall k' :: k' != k ==> Get(r, k') == Get(d, k')
  {
    if d == [] then []
    else if d[0].0 == k then
      var r := Remove(d[1..], k);
      assert Keys(d) == {k} + Keys(d[1..]);
      r
    else
      var tail := Remove(d[1..], k);
      var r := [d[0]] + tail;
      assert r[1..] == tail;
      KeysCons(d);
      KeysCons(r);
      r
  }

  /** `d.update(e)`: every entry of `e` assigned into `d` in `e`'s order. */
  function Update<V>(d: Dict<V>, e: Dict<V>): (r: Dict<V>)
    ensures Keys(r) == Keys(d) + Keys(e)
    ensures forall k :: k !in Keys(e) ==> Get(r, k) == Get(d, k)
    decreases |e|
  {
    if e == [] then d
    else
      KeysCons(e);
      Update(Set(d, e[0].0, e[0].1), e[1..])
  }

  /** The value of the last entry of `e` with key `k`: the one a sequence of
      assignments leaves behind. */
  function LastValue<V>(e: Dict<V>, k: string): (r: Option<V>)
    ensures r.Some? <==> k in Keys(e)
    decreases |e|
  {
    if e == [] then None
    else
      KeysSnoc(e);
      if e[|e| - 1].0 == k then Some(e[|e| - 1].1) else LastValue(e[..|e| - 1], k)
  }

  /** The keys of a non-empty dict: those of all but its last entry, and the last key. */
  lemma KeysSnoc<V>(d: Dict<V>)
    requires d != []
    ensures Keys(d) == Keys(d[..|d| - 1]) + {d[|d| - 1].0}
  {
    var init := d[..|d| - 1];
    forall k | k in Keys(d) ensures k in Keys(init) + {d[|d| - 1].0} {
      var i :| 0 <= i < |d| && d[i].0 == k;
      if i < |d| - 1 { assert init[i] == d[i]; }
    }
    forall k | k in Keys(init) ensures k in Keys(d) {
      var i :| 0 <= i < |init| && init[i].0 == k;
      assert d[i] == init[i];
    }
  }

  lemma KeysAppend<V>(a: Dict<V>, b: Dict<V>)
    ensures Keys(a + b) == Keys(a) + Keys(b)
  {
    forall k | k in Keys(a + b) ensures k in Keys(a) + Keys(b) {
      var i :| 0 <= i < |a + b| && (a + b)[i].0 == k;
      if i < |a| { assert (a + b)[i] == a[i]; } else { assert (a + b)[i] == b[i - |a|]; }
    }
    forall k | k in Keys(a) ensures k in Keys(a + b) {
      var i :| 0 <= i < |a| && a[i].0 == k;
      assert (a + b)[i] == a[i];
    }
    forall k | k in Keys(b) ensures k in Keys(a + b) {
      var i :| 0 <= i < |b| && b[i].0 == k;
      assert (a + b)[|a| + i] == b[i];
    }
  }

  /** The last entry for `k` in `a + b` is `b`'s when `b` has one, `a`'s otherwise. */
  lemma {:induction false} LastValueAppend<V>(a: Dict<V>, b: Dict<V>, k: string)
    ensures LastValue(a + b, k) == if k in Keys(b) then LastValue(b, k) else LastValue(a, k)
    decreases |b|
  {
    if b == [] {
      assert a + b == a;
    } else {
      var ab := a + b;
      assert ab[..|ab| - 1] == a + b[..|b| - 1];
      assert ab[|ab| - 1] == b[|b| - 1];
      KeysSnoc(b);
      LastValueAppend(a, b[..|b| - 1], k);
    }
  }

  /** An entry no later entry reassigns is the one that stays. */
  lemma {:induction false} LastValueAt<V>(e: Dict<V>, i: int)
    requires 0 <= i < |e|
    requires forall j :: i < j < |e| ==> e[j].0 != e[i].0
    ensures LastValue(e, e[i].0) == Some(e[i].1)
    decreases |e|
  {
    if i < |e| - 1 {
      LastValueAt(e[..|e| - 1], i);
    }
  }

  /** Assigning the entries of `a + b` is assigning those of `a`, then those of `b`. */
  lemma {:induction false} UpdateAppend<V>(d: Dict<V>, a: Dict<V>, b: Dict<V>)
    ensures Update(d, a + b) == Update(Update(d, a), b)
    decreases |a|
  {
    if a != [] {
      assert (a + b)[0] == a[0] && (a + b)[1..] == a[1..] + b;
      UpdateAppend(Set(d, a[0].0, a[0].1), a[1..], b);
    } else {
      assert a + b == b;
    }
  }

  /** What `d.update(e)` holds under `k`: the last value `e` gives it, else `d`'s. */
  lemma {:induction false} UpdateLookup<V>(d: Dict<V>, e: Dict<V>, k: string)
    ensures Get(Update(d, e), k) == if k in Keys(e) then LastValue(e, k) else Get(d, k)
    decreases |e|
  {
    if e != [] {
      var init, last := e[..|e| - 1], e[|e| - 1];
      assert e == init + [last];
      UpdateAppend(d, init, [last]);
      assert Update(Update(d, init), [last]) == Set(Update(d, init), last.0, last.1);
      UpdateLookup(d, init, k);
      KeysSnoc(e);
    }
  }

  /** A dict built by assignments starting from `{}` has no repeated key. */
  lemma {:induction false} UpdateNoDup<V>(d: Dict<V>, e: Dict<V>)
    requires NoDupKeys(d)
    ensures NoDupKeys(Update(d, e))
    decreases |e|
  {
    if e != [] {
      SetNoDup(d, e[0].0, e[0].1);
      UpdateNoDup(Set(d, e[0].0, e[0].1), e[1..]);
    }
  }

  /** After `d.update(e)` every key of `e` holds `e`'s value: `e` wins. */
  lemma {:induction false} UpdateOverrides<V>(d: Dict<V>, e: Dict<V>, k: string)
    requires NoDupKeys(e) && k in Keys(e)
    ensures Get(Update(d, e), k) == Get(e, k)
    decreases |e|
  {
    KeysCons(e);
    if e[0].0 == k {
      assert k !in Keys(e[1..]);
    } else {
      UpdateOverrides(Set(d, e[0].0, e[0].1), e[1..], k);
    }
  }

  /** A key that occurs has a last value, taken from one of its entries. */
  lemma {:induction false} LastValueIsSome<V>(e: Dict<V>, k: string)
    requires k in Keys(e)
    ensures exists j :: 0 <= j < |e| && e[j].0 == k && LastValue(e, k) == Some(e[j].1)
    decreases |e|
  {
    KeysSnoc(e);
    if e[|e| - 1].0 != k {
      LastValueIsSome(e[..|e| - 1], k);
      var j :| 0 <= j < |e| - 1 && e[..|e| - 1][j].0 == k && LastValue(e[..|e| - 1], k) == Some(e[..|e| - 1][j].1);
      assert e[j] == e[..|e| - 1][j];
    }
  }

  /** In a proper dict the last value of a key is its only one. */
  lemma LastValueNoDup<V>(e: Dict<V>, k: string)
    requires NoDupKeys(e)
    ensures LastValue(e, k) == Get(e, k)
  {
    if k in Keys(e) {
      LastValueIsSome(e, k);
      var j :| 0 <= j < |e| && e[j].0 == k && LastValue(e, k) == Some(e[j].1);
      GetAt(e, j);
    }
  }
}
