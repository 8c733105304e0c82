/** `http_build_query` (utils/espo_helpers.py): PHP-style flattening of nested
    lists and dicts into query pairs, `where[0][type]=equals`. The final
    percent-encoding by `urllib.parse.urlencode` is not modelled: the result
    is the ordered dict of pairs handed to it. */
module Query {
  import opened Values
  import opened PyDict

  /** One step of the path from the root to a leaf: a list index or a dict key. */
  datatype Segment = Index(i: nat) | Key(k: string)

  /** `str(x)` of a path segment. */
  function SegmentText(x: Segment): string {
    match x
    case Index(i) => NatToDecimal(i)
    case Key(k) => k
  }

  function Bracketed(x: Segment): string {
    "[" + SegmentText(x) + "]"
  }

  /** Every segment in brackets, in order. */
  function Brackets(path: seq<Segment>): string
    decreases |path|
  {
    if path == [] then "" else Bracketed(path[0]) + Brackets(path[1..])
  }

  /** The rendered key of a path: the first segment bare when it is a dict key
      and bracketed when it is an index, every later segment bracketed. */
  function RenderKey(path: seq<Segment>): string {
    if path == [] then ""
    else (if path[0].Index? then Bracketed(path[0]) else SegmentText(path[0])) + Brackets(path[1..])
  }

  lemma {:induction false} BracketsSnoc(path: seq<Segment>, x: Segment)
    ensures Brackets(path + [x]) == Brackets(path) + Bracketed(x)
    decreases |path|
  {
    if path == [] {
      assert [x][1..] == [];
    } else {
      assert (path + [x])[1..] == path[1..] + [x];
      BracketsSnoc(path[1..], x);
    }
  }

  /** `renderKey(parents)`: its loop over the path, proved to produce `RenderKey`. */
  method RenderKeyLoop(parents: seq<Segment>) returns (outStr: string)
    ensures outStr == RenderKey(parents)
  {
    var depth := 0;
    outStr := "";
    while depth < |parents|
      invariant 0 <= depth <= |parents|
      invariant outStr == RenderKey(parents[..depth])
    {
      var x := parents[depth];
      var s := if depth > 0 || x.Index? then Bracketed(x) else SegmentText(x);
      RenderKeySnoc(parents[..depth], x);
      assert parents[..depth + 1] == parents[..depth] + [x];
      outStr := outStr + s;
      depth := depth + 1;
    }
    assert parents[..depth] == parents;
  }

  /** Rendering one more segment appends it, bare only at depth 0 for a key. */
  lemma RenderKeySnoc(path: seq<Segment>, x: Segment)
    ensures RenderKey(path + [x])
         == RenderKey(path) + (if |path| > 0 || x.Index? then Bracketed(x) else SegmentText(x))
  {
    if path == [] {
      assert [x][1..] == [];
    } else {
      assert (path + [x])[1..] == path[1..] + [x];
      BracketsSnoc(path[1..], x);
    }
  }

  /** A leaf of a nested value: the path to it and `str()` of the scalar there. */
  type Leaf = (seq<Segment>, string)

  /** The leaves below `prefix`, in the order `r_urlencode` visits them:
      list items by index, dict entries in insertion order. */
  function Leaves(prefix: seq<Segment>, v: Value): seq<Leaf>
    decreases v, 1
  {
    match v
    case List(items) => ListLeaves(prefix, v, |items|)
    case Dict(entries) => DictLeaves(prefix, v, |entries|)
    case _ => [(prefix, PyStr(v))]
  }

  /** The leaves of the first `n` items of a list. */
  function ListLeaves(prefix: seq<Segment>, v: Value, n: nat): seq<Leaf>
    requires v.List? && n <= |v.items|
    decreases v, 0, n
  {
    if n == 0 then []
    else ListLeaves(prefix, v, n - 1) + Leaves(prefix + [Index(n - 1)], v.items[n - 1])
  }

  /** The leaves of the first `n` entries of a dict. */
  function DictLeaves(prefix: seq<Segment>, v: Value, n: nat): seq<Leaf>
    requires v.Dict? && n <= |v.entries|
    decreases v, 0, n
  {
    if n == 0 then []
    else
      var e := v.entries[n - 1];
      assert e in v.entries;
      DictLeaves(prefix, v, n - 1) + Leaves(prefix + [Key(e.0)], e.1)
  }

  /** The assignments `pairs[renderKey(parents)] = str(data)`, one per leaf. */
  function Rendered(leaves: seq<Leaf>): (r: Dict<string>)
    ensures |r| == |leaves|
    ensures forall i :: 0 <= i < |leaves| ==> r[i] == (RenderKey(leaves[i].0), leaves[i].1)
  {
    if leaves == [] then [] else [(RenderKey(leaves[0].0), leaves[0].1)] + Rendered(leaves[1..])
  }

  lemma RenderedAppend(a: seq<Leaf>, b: seq<Leaf>)
    ensures Rendered(a + b) == Rendered(a) + Rendered(b)
  {
  }

  /** The pairs of a value: its leaves assigned in visiting order into an empty
      dict, so that of two leaves with the same rendered key the later value
      stays, at the earlier position. */
  function QueryPairs(data: Value): Dict<string> {
    Update([], Rendered(Leaves([], data)))
  }

  /** The walker of `http_build_query`: the path to the current node and the
      pairs gathered so far. */
  class QueryBuilder {
    var parents: seq<Segment>
    var pairs: Dict<string>

    constructor()
      ensures parents == [] && pairs == []
    {
      parents := [];
      pairs := [];
    }

    /** `r_urlencode(data)`: each list item below its index, each dict value
        below its key in insertion order, each scalar as one pair. */
    method Walk(data: Value)
      modifies this
      ensures parents == old(parents)
      ensures pairs == Update(old(pairs), Rendered(Leaves(old(parents), data)))
      decreases data, 1
    {
      match data
      case List(items) =>
        ghost var prefix, start := parents, pairs;
        var i := 0;
        while i < |items|
          invariant 0 <= i <= |items|
          invariant parents == prefix
          invariant pairs == Update(start, Rendered(ListLeaves(prefix, data, i)))
        {
          Descend(Index(i), items[i]);
          ListLeavesStep(start, prefix, data, i);
          i := i + 1;
        }
        assert Leaves(prefix, data) == ListLeaves(prefix, data, |items|);
      case Dict(entries) =>
        ghost var prefix, start := parents, pairs;
        var i := 0;
        while i < |entries|
          invariant 0 <= i <= |entries|
          invariant parents == prefix
          invariant pairs == Update(start, Rendered(DictLeaves(prefix, data, i)))
        {
          var (key, value) := entries[i];
          assert entries[i] in entries;
          Descend(Key(key), value);
          DictLeavesStep(start, prefix, data, i);
          i := i + 1;
        }
        assert Leaves(prefix, data) == DictLeaves(prefix, data, |entries|);
      case _ =>
        var key := RenderKeyLoop(parents);
        ScalarLeaf(pairs, parents, data);
        pairs := Set(pairs, key, PyStr(data));
    }

    /** `parents.append(seg)`, the recursive call on the child, `parents.pop()`. */
    method Descend(seg: Segment, child: Value)
      modifies this
      ensures parents == old(parents)
      ensures pairs == Update(old(pairs), Rendered(Leaves(old(parents) + [seg], child)))
      decreases child, 2
    {
      parents := parents + [seg];
      Walk(child);
      assert parents[..|parents| - 1] == old(parents);
      parents := parents[..|parents| - 1];
    }
  }

  lemma ScalarLeaf(d: Dict<string>, prefix: seq<Segment>, v: Value)
    requires IsScalar(v)
    ensures Update(d, Rendered(Leaves(prefix, v))) == Set(d, RenderKey(prefix), PyStr(v))
  {
    assert Rendered(Leaves(prefix, v)) == [(RenderKey(prefix), PyStr(v))];
  }

  lemma ListLeavesStep(d: Dict<string>, prefix: seq<Segment>, v: Value, i: nat)
    requires v.List? && i < |v.items|
    ensures Update(d, Rendered(ListLeaves(prefix, v, i + 1)))
         == Update(Update(d, Rendered(ListLeaves(prefix, v, i))), Rendered(Leaves(prefix + [Index(i)], v.items[i])))
  {
    RenderedAppend(ListLeaves(prefix, v, i), Leaves(prefix + [Index(i)], v.items[i]));
    UpdateAppend(d, Rendered(ListLeaves(prefix, v, i)), Rendered(Leaves(prefix + [Index(i)], v.items[i])));
  }

  lemma DictLeavesStep(d: Dict<string>, prefix: seq<Segment>, v: Value, i: nat)
    requires v.Dict? && i < |v.entries|
    ensures Update(d, Rendered(DictLeaves(prefix, v, i + 1)))
         == Update(Update(d, Rendered(DictLeaves(prefix, v, i))),
                   Rendered(Leaves(prefix + [Key(v.entries[i].0)], v.entries[i].1)))
  {
    var e := v.entries[i];
    RenderedAppend(DictLeaves(prefix, v, i), Leaves(prefix + [Key(e.0)], e.1));
    UpdateAppend(d, Rendered(DictLeaves(prefix, v, i)), Rendered(Leaves(prefix + [Key(e.0)], e.1)));
  }

  /** `http_build_query(data)`, up to the final percent-encoding. */
  method HttpBuildQuery(data: Value) returns (pairs: Dict<string>)
    ensures pairs == QueryPairs(data)
  {
    var builder := new QueryBuilder();
    builder.Walk(data);
    pairs := builder.pairs;
  }

  // Leaves against navigation: a leaf is exactly a path that leads to a scalar.

  /** `data[p0][p1]...`: following a path into a value. */
  function At(v: Value, path: seq<Segment>): Option<Value>
    decreases |path|
  {
    if path == [] then Some(v)
    else match (v, path[0])
      case (List(items), Index(i)) => if i < |items| then At(items[i], path[1..]) else None
      case (Dict(entries), Key(k)) =>
        (match Get(entries, k)
         case Some(child) => At(child, path[1..])
         case None => None)
      case _ => None
  }

  lemma AtIndex(items: seq<Value>, i: nat, rest: seq<Segment>)
    requires i < |items|
    ensures At(List(items), [Index(i)] + rest) == At(items[i], rest)
  {
    assert ([Index(i)] + rest)[1..] == rest;
  }

  lemma AtKey(entries: Dict<Value>, k: string, child: Value, rest: seq<Segment>)
    requires Get(entries, k) == Some(child)
    ensures At(Dict(entries), [Key(k)] + rest) == At(child, rest)
  {
    assert ([Key(k)] + rest)[1..] == rest;
  }

  /** Every dict inside the value has distinct keys, as Python dicts do. */
  ghost predicate WellFormed(v: Value)
    decreases v
  {
    match v
    case List(items) => forall i :: 0 <= i < |items| ==> WellFormed(items[i])
    case Dict(entries) =>
      NoDupKeys(entries) && forall i :: 0 <= i < |entries| ==> (entries[i] in entries && WellFormed(entries[i].1))
    case _ => true
  }

  /** The leaves of a list are those of its items, each below its index. */
  lemma {:induction false} ListLeavesMember(prefix: seq<Segment>, v: Value, n: nat, leaf: Leaf)
    requires v.List? && n <= |v.items|
    ensures leaf in ListLeaves(prefix, v, n)
        <==> exists i :: 0 <= i < n && leaf in Leaves(prefix + [Index(i)], v.items[i])
    decreases n
  {
    if n > 0 {
      ListLeavesMember(prefix, v, n - 1, leaf);
    }
  }

  /** The leaves of a dict are those of its values, each below its key. */
  lemma {:induction false} DictLeavesMember(prefix: seq<Segment>, v: Value, n: nat, leaf: Leaf)
    requires v.Dict? && n <= |v.entries|
    ensures leaf in DictLeaves(prefix, v, n)
        <==> exists i :: 0 <= i < n && leaf in Leaves(prefix + [Key(v.entries[i].0)], v.entries[i].1)
    decreases n
  {
    if n > 0 {
      DictLeavesMember(prefix, v, n - 1, leaf);
    }
  }

  /** `get` finds the value of some entry with the key. */
  lemma {:induction false} GetFound<V>(d: Dict<V>, k: string, x: V)
    requires Get(d, k) == Some(x)
    ensures exists i :: 0 <= i < |d| && d[i] == (k, x)
  {
    if d[0].0 != k {
      GetFound(d[1..], k, x);
      var i :| 0 <= i < |d[1..]| && d[1..][i] == (k, x);
      assert d[i + 1] == d[1..][i];
    }
  }

  /** Completeness: every scalar reachable in the value is a leaf, with its `str()`. */
  lemma {:induction false} LeavesComplete(prefix: seq<Segment>, v: Value, path: seq<Segment>, x: Value)
    requires At(v, path) == Some(x) && IsScalar(x)
    ensures (prefix + path, PyStr(x)) in Leaves(prefix, v)
    decreases |path|
  {
    if path == [] {
      assert prefix + path == prefix;
    } else {
      var rest := path[1..];
      assert prefix + path == (prefix + [path[0]]) + rest;
      match (v, path[0])
      case (List(items), Index(i)) =>
        LeavesComplete(prefix + [Index(i)], items[i], rest, x);
        ListLeavesMember(prefix, v, |items|, (prefix + path, PyStr(x)));
      case (Dict(entries), Key(k)) =>
        var child := Get(entries, k).value;
        LeavesComplete(prefix + [Key(k)], child, rest, x);
        GetFound(entries, k, child);
        var i :| 0 <= i < |entries| && entries[i] == (k, child);
        DictLeavesMember(prefix, v, |entries|, (prefix + path, PyStr(x)));
    }
  }

  /** Soundness: every leaf lies below the prefix on a path that leads to a
      scalar, and carries that scalar's `str()`. */
  lemma {:induction false} LeavesSound(prefix: seq<Segment>, v: Value, leaf: Leaf)
    requires WellFormed(v) && leaf in Leaves(prefix, v)
    ensures |prefix| <= |leaf.0| && leaf.0[..|prefix|] == prefix
    ensures exists x :: At(v, leaf.0[|prefix|..]) == Some(x) && IsScalar(x) && leaf.1 == PyStr(x)
    decreases v
  {
    match v
    case List(items) =>
      ListLeavesMember(prefix, v, |items|, leaf);
      var i :| 0 <= i < |items| && leaf in Leaves(prefix + [Index(i)], items[i]);
      LeavesSound(prefix + [Index(i)], items[i], leaf);
      AtIndex(items, i, leaf.0[|prefix| + 1..]);
      SoundStep(prefix, Index(i), v, items[i], leaf);
    case Dict(entries) =>
      DictLeavesMember(prefix, v, |entries|, leaf);
      var i :| 0 <= i < |entries| && leaf in Leaves(prefix + [Key(entries[i].0)], entries[i].1);
      assert entries[i] in entries;
      LeavesSound(prefix + [Key(entries[i].0)], entries[i].1, leaf);
      GetAt(entries, i);
      AtKey(entries, entries[i].0, entries[i].1, leaf.0[|prefix| + 1..]);
      SoundStep(prefix, Key(entries[i].0), v, entries[i].1, leaf);
    case _ =>
      assert leaf == (prefix, PyStr(v));
      assert leaf.0[|prefix|..] == [];
  }

  /** A leaf found below one step from `v` is found from `v` itself. */
  lemma SoundStep(prefix: seq<Segment>, seg: Segment, v: Value, child: Value, leaf: Leaf)
    requires |prefix| + 1 <= |leaf.0| && leaf.0[..|prefix + [seg]|] == prefix + [seg]
    requires At(v, [seg] + leaf.0[|prefix| + 1..]) == At(child, leaf.0[|prefix| + 1..])
    requires exists x :: At(child, leaf.0[|prefix + [seg]|..]) == Some(x) && IsScalar(x) && leaf.1 == PyStr(x)
    ensures leaf.0[..|prefix|] == prefix
    ensures exists x :: At(v, leaf.0[|prefix|..]) == Some(x) && IsScalar(x) && leaf.1 == PyStr(x)
  {
    assert leaf.0[..|prefix|] == (prefix + [seg])[..|prefix|];
    assert leaf.0[|prefix|] == seg;
    assert leaf.0[|prefix|..] == [seg] + leaf.0[|prefix| + 1..];
  }

  /** A query key exists exactly when some leaf renders to it. */
  lemma QueryKeys(data: Value, key: string)
    ensures key in Keys(QueryPairs(data)) <==> exists leaf :: leaf in Leaves([], data) && RenderKey(leaf.0) == key
  {
    var leaves := Leaves([], data);
    assert Keys(QueryPairs(data)) == Keys(Rendered(leaves));
    RenderedKeys(leaves, key);
  }

  lemma RenderedKeys(leaves: seq<Leaf>, key: string)
    ensures key in Keys(Rendered(leaves)) <==> exists leaf :: leaf in leaves && RenderKey(leaf.0) == key
  {
    var r := Rendered(leaves);
    if key in Keys(r) {
      var j :| 0 <= j < |r| && r[j].0 == key;
      assert leaves[j] in leaves;
    }
    if exists leaf :: leaf in leaves && RenderKey(leaf.0) == key {
      var leaf :| leaf in leaves && RenderKey(leaf.0) == key;
      var j :| 0 <= j < |leaves| && leaves[j] == leaf;
      assert r[j].0 == key;
    }
  }

  /** A filter list of dicts under a top-level key, as EspoCRM's `where`
      expects it: attribute `attr` of item `i` is assigned under
      `name[i][attr]`. The assignment is the one sent unless a later leaf
      renders to the same key (`QueryLastWins`, `QueryKeyCollision`). */
  lemma NestedFilterPair(params: Dict<Value>, name: string, items: seq<Value>, i: nat, entries: Dict<Value>, attr: string, x: Value)
    requires Get(params, name) == Some(List(items))
    requires i < |items| && items[i] == Dict(entries)
    requires Get(entries, attr) == Some(x) && IsScalar(x)
    ensures (name + "[" + NatToDecimal(i) + "][" + attr + "]", PyStr(x)) in Rendered(Leaves([], Dict(params)))
  {
    var path := [Key(name), Index(i), Key(attr)];
    NestedFilterAt(params, name, items, i, entries, attr, x);
    LeavesComplete([], Dict(params), path, x);
    assert [] + path == path;
    var leaves := Leaves([], Dict(params));
    var j :| 0 <= j < |leaves| && leaves[j] == (path, PyStr(x));
    NestedFilterKey(name, i, attr);
    assert Rendered(leaves)[j] == (RenderKey(path), PyStr(x));
  }

  lemma NestedFilterAt(params: Dict<Value>, name: string, items: seq<Value>, i: nat, entries: Dict<Value>, attr: string, x: Value)
    requires Get(params, name) == Some(List(items))
    requires i < |items| && items[i] == Dict(entries)
    requires Get(entries, attr) == Some(x)
    ensures At(Dict(params), [Key(name), Index(i), Key(attr)]) == Some(x)
  {
    var path := [Key(name), Index(i), Key(attr)];
    assert path[1..] == [Index(i), Key(attr)] && path[1..][1..] == [Key(attr)] && [Key(attr)][1..] == [];
    assert At(x, []) == Some(x);
    assert At(items[i], [Key(attr)]) == Some(x);
    assert At(List(items), path[1..]) == Some(x);
  }

  lemma NestedFilterKey(name: string, i: nat, attr: string)
    ensures RenderKey([Key(name), Index(i), Key(attr)]) == name + "[" + NatToDecimal(i) + "][" + attr + "]"
  {
    var path := [Key(name), Index(i), Key(attr)];
    var n := NatToDecimal(i);
    assert Brackets([Key(attr)]) == "[" + attr + "]" by {
      assert [Key(attr)][1..] == [];
    }
    assert Brackets(path[1..]) == ("[" + n + "]") + ("[" + attr + "]") by {
      assert path[1..] == [Index(i), Key(attr)] && path[1..][1..] == [Key(attr)];
    }
    assert RenderKey(path) == name + (("[" + n + "]") + ("[" + attr + "]"));
    TwoBrackets(name, n, attr);
  }

  lemma TwoBrackets(a: string, b: string, c: string)
    ensures a + (("[" + b + "]") + ("[" + c + "]")) == a + "[" + b + "][" + c + "]"
  {
    assert "][" == "]" + "[";
  }

  /** The value sent under a key is that of the last leaf rendering to it. */
  lemma QueryLastWins(data: Value, key: string)
    ensures Get(QueryPairs(data), key) == LastValue(Rendered(Leaves([], data)), key)
  {
    UpdateLookup([], Rendered(Leaves([], data)), key);
  }

  /** Distinct paths can render to the same key: a dict key that itself holds
      brackets collides with a nested path, and only one pair is sent. */
  lemma QueryKeyCollision()
    ensures QueryPairs(Dict([("a[0]", Str("x")), ("a", List([Str("y")]))])) == [("a[0]", "y")]
  {
    var v := Dict([("a[0]", Str("x")), ("a", List([Str("y")]))]);
    var inner := List([Str("y")]);
    assert Leaves([Key("a")], inner) == [([Key("a"), Index(0)], "y")] by {
      assert ListLeaves([Key("a")], inner, 0) == [];
      assert [Key("a")] + [Index(0)] == [Key("a"), Index(0)];
    }
    assert DictLeaves([], v, 1) == [([Key("a[0]")], "x")] by {
      assert DictLeaves([], v, 0) == [];
      assert [] + [Key("a[0]")] == [Key("a[0]")];
    }
    assert [] + [Key("a")] == [Key("a")];
    assert Leaves([], v) == [([Key("a[0]")], "x"), ([Key("a"), Index(0)], "y")];
    assert RenderKey([Key("a[0]")]) == "a[0]" by {
      assert [Key("a[0]")][1..] == [];
    }
    assert RenderKey([Key("a"), Index(0)]) == "a[0]" by {
      assert [Key("a"), Index(0)][1..] == [Index(0)] && [Index(0)][1..] == [];
      assert NatToDecimal(0) == "0";
    }
    assert Rendered(Leaves([], v)) == [("a[0]", "x"), ("a[0]", "y")];
  }
}
