/** `build_espo_params` (utils/espo_helpers.py): the request parameters of a
    tool, taken from its local variables in declaration order. */
module Params {
  import opened Values
  import opened PyDict
  import opened Names

  /** Local names that are never request parameters, whatever `exclude` says. */
  const Reserved: set<string> := {"self", "kwargs"}

  /** Whether a local variable becomes a parameter: not excluded, not `None`,
      not one of the reserved names. */
  predicate Kept(entry: (string, Value), exclude: set<string>) {
    entry.0 !in exclude && entry.1 != Null && entry.0 !in Reserved
  }

  /** The assignments the loop performs, in order: one `(camelKey, value)`
      per kept local variable. */
  function Renamed(locals: Dict<Value>, exclude: set<string>): (e: Dict<Value>)
    ensures |e| <= |locals|
    decreases |locals|
  {
    if locals == [] then []
    else
      var head := if Kept(locals[0], exclude) then [(SnakeToCamel(locals[0].0), locals[0].1)] else [];
      head + Renamed(locals[1..], exclude)
  }

  /** The parameters: the kept assignments performed on an empty dict. */
  function BuildSpec(locals: Dict<Value>, exclude: set<string>): Dict<Value> {
    Update([], Renamed(locals, exclude))
  }

  /** The loop of `build_espo_params`. */
  method BuildEspoParams(localVars: Dict<Value>, exclude: set<string>) returns (params: Dict<Value>)
    ensures params == BuildSpec(localVars, exclude)
  {
    params := [];
    var i := 0;
    while i < |localVars|
      invariant 0 <= i <= |localVars|
      invariant params == BuildSpec(localVars[..i], exclude)
    {
      var (key, value) := localVars[i];
      BuildSpecSnoc(localVars[..i], localVars[i], exclude);
      assert localVars[..i + 1] == localVars[..i] + [localVars[i]];
      if key in exclude || value == Null {
      } else if key in Reserved {
      } else {
        var camelKey := SnakeToCamel(key);
        params := Set(params, camelKey, value);
      }
      i := i + 1;
    }
    assert localVars[..i] == localVars;
  }

  /** One more local variable: one more assignment when it is kept. */
  lemma BuildSpecSnoc(a: Dict<Value>, x: (string, Value), exclude: set<string>)
    ensures BuildSpec(a + [x], exclude)
         == if Kept(x, exclude) then Set(BuildSpec(a, exclude), SnakeToCamel(x.0), x.1) else BuildSpec(a, exclude)
  {
    RenamedSnoc(a, x, exclude);
    UpdateAppend([], Renamed(a, exclude), Renamed([x], exclude));
  }

  lemma {:induction false} RenamedAppend(a: Dict<Value>, b: Dict<Value>, exclude: set<string>)
    ensures Renamed(a + b, exclude) == Renamed(a, exclude) + Renamed(b, exclude)
    decreases |a|
  {
    if a == [] {
      assert a + b == b;
    } else {
      var head := if Kept(a[0], exclude) then [(SnakeToCamel(a[0].0), a[0].1)] else [];
      assert (a + b)[0] == a[0] && (a + b)[1..] == a[1..] + b;
      assert Renamed(a + b, exclude) == head + Renamed(a[1..] + b, exclude);
      assert Renamed(a, exclude) == head + Renamed(a[1..], exclude);
      RenamedAppend(a[1..], b, exclude);
    }
  }

  lemma RenamedSnoc(a: Dict<Value>, x: (string, Value), exclude: set<string>)
    ensures Renamed(a + [x], exclude) == Renamed(a, exclude) + Renamed([x], exclude)
    ensures Renamed([x], exclude) == if Kept(x, exclude) then [(SnakeToCamel(x.0), x.1)] else []
  {
    RenamedAppend(a, [x], exclude);
    assert [x][1..] == [];
  }

  /** Each assignment comes from a kept local variable at or after a given
      position, carries that variable's value and renames its name. */
  lemma {:induction false} RenamedOrigin(locals: Dict<Value>, exclude: set<string>, j: int)
    requires 0 <= j < |Renamed(locals, exclude)|
    ensures exists i :: 0 <= i < |locals| && Kept(locals[i], exclude)
              && Renamed(locals, exclude)[j] == (SnakeToCamel(locals[i].0), locals[i].1)
    decreases |locals|
  {
    var e := Renamed(locals, exclude);
    if Kept(locals[0], exclude) && j == 0 {
      assert Kept(locals[0], exclude);
    } else {
      var off := if Kept(locals[0], exclude) then 1 else 0;
      assert e[j] == Renamed(locals[1..], exclude)[j - off];
      RenamedOrigin(locals[1..], exclude, j - off);
      var i :| 0 <= i < |locals[1..]| && Kept(locals[1..][i], exclude)
               && Renamed(locals[1..], exclude)[j - off] == (SnakeToCamel(locals[1..][i].0), locals[1..][i].1);
      assert locals[1..][i] == locals[i + 1];
    }
  }

  /** Every kept local variable is assigned, and no assignment after it comes
      from a local variable before it. */
  lemma {:induction false} RenamedCovers(locals: Dict<Value>, exclude: set<string>, i: int)
    requires 0 <= i < |locals| && Kept(locals[i], exclude)
    ensures (SnakeToCamel(locals[i].0), locals[i].1) in Renamed(locals, exclude)
    decreases |locals|
  {
    if i > 0 {
      RenamedCovers(locals[1..], exclude, i - 1);
      assert locals[1..][i - 1] == locals[i];
    }
  }

  /** A parameter key exists exactly when some kept local variable renames to it. */
  lemma BuildKeys(locals: Dict<Value>, exclude: set<string>, k: string)
    ensures k in Keys(BuildSpec(locals, exclude))
        <==> exists i :: 0 <= i < |locals| && Kept(locals[i], exclude) && SnakeToCamel(locals[i].0) == k
  {
    RenamedKeys(locals, exclude, k);
  }

  /** There are no parameters exactly when no local variable is kept. */
  lemma BuildEmpty(locals: Dict<Value>, exclude: set<string>)
    ensures BuildSpec(locals, exclude) == [] <==> forall i :: 0 <= i < |locals| ==> !Kept(locals[i], exclude)
  {
    RenamedEmpty(locals, exclude);
    if i :| 0 <= i < |locals| && Kept(locals[i], exclude) {
      BuildKeys(locals, exclude, SnakeToCamel(locals[i].0));
    }
  }

  lemma {:induction false} RenamedEmpty(locals: Dict<Value>, exclude: set<string>)
    ensures Renamed(locals, exclude) == [] <==> forall i :: 0 <= i < |locals| ==> !Kept(locals[i], exclude)
    decreases |locals|
  {
    if locals != [] {
      RenamedEmpty(locals[1..], exclude);
      assert forall i :: 1 <= i < |locals| ==> locals[i] == locals[1..][i - 1];
    }
  }

  /** Excluded, `None`-valued and reserved local variables never give a
      parameter: changing their values leaves the parameters as they were. */
  lemma BuildIgnoresDropped(locals: Dict<Value>, other: Dict<Value>, exclude: set<string>)
    requires |other| == |locals|
    requires forall i :: 0 <= i < |locals| && Kept(locals[i], exclude) ==> other[i] == locals[i]
    requires forall i :: 0 <= i < |locals| && Kept(other[i], exclude) ==> other[i] == locals[i]
    ensures BuildSpec(other, exclude) == BuildSpec(locals, exclude)
  {
    RenamedIgnoresDropped(locals, other, exclude);
  }

  lemma {:induction false} RenamedIgnoresDropped(locals: Dict<Value>, other: Dict<Value>, exclude: set<string>)
    requires |other| == |locals|
    requires forall i :: 0 <= i < |locals| && Kept(locals[i], exclude) ==> other[i] == locals[i]
    requires forall i :: 0 <= i < |locals| && Kept(other[i], exclude) ==> other[i] == locals[i]
    ensures Renamed(other, exclude) == Renamed(locals, exclude)
    decreases |locals|
  {
    if locals != [] {
      forall i | 0 <= i < |locals| - 1 && Kept(locals[1..][i], exclude) ensures other[1..][i] == locals[1..][i] {
        assert locals[1..][i] == locals[i + 1];
      }
      forall i | 0 <= i < |locals| - 1 && Kept(other[1..][i], exclude) ensures other[1..][i] == locals[1..][i] {
        assert other[1..][i] == other[i + 1];
      }
      RenamedIgnoresDropped(locals[1..], other[1..], exclude);
    }
  }

  /** The assigned keys are the camel-case names of the kept local variables. */
  lemma RenamedKeys(locals: Dict<Value>, exclude: set<string>, k: string)
    ensures k in Keys(Renamed(locals, exclude))
        <==> exists i :: 0 <= i < |locals| && Kept(locals[i], exclude) && SnakeToCamel(locals[i].0) == k
  {
    var e := Renamed(locals, exclude);
    if k in Keys(e) {
      var j :| 0 <= j < |e| && e[j].0 == k;
      RenamedOrigin(locals, exclude, j);
    }
    if exists i :: 0 <= i < |locals| && Kept(locals[i], exclude) && SnakeToCamel(locals[i].0) == k {
      var i :| 0 <= i < |locals| && Kept(locals[i], exclude) && SnakeToCamel(locals[i].0) == k;
      RenamedCovers(locals, exclude, i);
      var j :| 0 <= j < |e| && e[j] == (SnakeToCamel(locals[i].0), locals[i].1);
      assert e[j].0 == k;
    }
  }

  /** The value under a key is that of the last kept local variable renamed to
      it: a later variable with the same camel-case name overwrites an earlier one. */
  lemma {:induction false} BuildLastWins(locals: Dict<Value>, exclude: set<string>, i: int)
    requires 0 <= i < |locals| && Kept(locals[i], exclude)
    requires forall j :: i < j < |locals| && Kept(locals[j], exclude) ==> SnakeToCamel(locals[j].0) != SnakeToCamel(locals[i].0)
    ensures Get(BuildSpec(locals, exclude), SnakeToCamel(locals[i].0)) == Some(locals[i].1)
  {
    var k := SnakeToCamel(locals[i].0);
    var before, after := locals[..i + 1], locals[i + 1..];
    assert locals == before + after;
    RenamedAppend(before, after, exclude);
    assert before == locals[..i] + [locals[i]];
    RenamedSnoc(locals[..i], locals[i], exclude);
    var eb := Renamed(before, exclude);
    assert eb[|eb| - 1] == (k, locals[i].1);
    assert LastValue(eb, k) == Some(locals[i].1);
    RenamedKeys(after, exclude, k);
    forall m | 0 <= m < |after| && Kept(after[m], exclude) ensures SnakeToCamel(after[m].0) != k {
      assert after[m] == locals[i + 1 + m];
    }
    LastValueAppend(eb, Renamed(after, exclude), k);
    UpdateLookup([], Renamed(locals, exclude), k);
    KeysAppend(eb, Renamed(after, exclude));
  }

  /** No parameter is `None`. */
  lemma BuildNoNull(locals: Dict<Value>, exclude: set<string>)
    ensures forall k :: Get(BuildSpec(locals, exclude), k) != Some(Null)
  {
    var e := Renamed(locals, exclude);
    forall k ensures Get(BuildSpec(locals, exclude), k) != Some(Null) {
      UpdateLookup([], e, k);
      if k in Keys(e) {
        LastValueIsSome(e, k);
        var j :| 0 <= j < |e| && e[j].0 == k && LastValue(e, k) == Some(e[j].1);
        RenamedOrigin(locals, exclude, j);
      }
    }
  }

  /** Parameter keys are camel case: none contains an underscore. */
  lemma BuildNoUnderscore(locals: Dict<Value>, exclude: set<string>, k: string)
    requires k in Keys(BuildSpec(locals, exclude))
    ensures '_' !in k
  {
    BuildKeys(locals, exclude, k);
    var i :| 0 <= i < |locals| && Kept(locals[i], exclude) && SnakeToCamel(locals[i].0) == k;
    SnakeToCamelCharwise(locals[i].0);
    CamelHasNoUnderscore(locals[i].0);
  }

  /** The parameters form a proper dict: no key twice. */
  lemma BuildNoDup(locals: Dict<Value>, exclude: set<string>)
    ensures NoDupKeys(BuildSpec(locals, exclude))
  {
    UpdateNoDup([], Renamed(locals, exclude));
  }

  /** A key that no kept local variable renames to never becomes a parameter. */
  lemma BuildKeyAbsent(locals: Dict<Value>, exclude: set<string>, key: string)
    requires forall i :: 0 <= i < |locals| && Kept(locals[i], exclude) ==> SnakeToCamel(locals[i].0) != key
    ensures key !in Keys(BuildSpec(locals, exclude))
  {
    BuildKeys(locals, exclude, key);
  }

  /** `BuildKeyAbsent` for a key that every kept local variable's name is
      `Distinguished` from, a test the tools' literal names meet cheaply. */
  lemma BuildKeyAbsentDistinguished(locals: Dict<Value>, exclude: set<string>, key: string)
    requires forall i :: 0 <= i < |locals| && Kept(locals[i], exclude) ==> Distinguished(locals[i].0, key)
    ensures key !in Keys(BuildSpec(locals, exclude))
  {
    forall i | 0 <= i < |locals| && Kept(locals[i], exclude) ensures SnakeToCamel(locals[i].0) != key {
      DistinguishedRenames(locals[i].0, key);
    }
    BuildKeyAbsent(locals, exclude, key);
  }

  /** `BuildLastWins` for a kept local variable whose later kept neighbours
      are all `Distinguished` from its camel-case name. */
  lemma BuildValueAt(locals: Dict<Value>, exclude: set<string>, i: int, key: string)
    requires 0 <= i < |locals| && Kept(locals[i], exclude) && SnakeToCamel(locals[i].0) == key
    requires forall j :: i < j < |locals| && Kept(locals[j], exclude) ==> Distinguished(locals[j].0, key)
    ensures Get(BuildSpec(locals, exclude), key) == Some(locals[i].1)
  {
    forall j | i < j < |locals| && Kept(locals[j], exclude) ensures SnakeToCamel(locals[j].0) != SnakeToCamel(locals[i].0) {
      DistinguishedRenames(locals[j].0, key);
    }
    BuildLastWins(locals, exclude, i);
  }
}
