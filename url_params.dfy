/** The part of the `URLSearchParams` interface (section 6.2 of the WHATWG URL
    Standard) that the search bar uses. A parameter list is an ordered sequence of
    name/value pairs in which a name may repeat; `get` reads the first pair of a
    name, `set` overwrites the first pair in place and drops the later ones (or
    appends when there is none), `delete` drops every pair of a name. */
module UrlParams {
  import opened Common

  type Pair = (string, string)

  /** Some pair of `ps` is named `name`. */
  predicate HasName(ps: seq<Pair>, name: string) {
    exists i :: 0 <= i < |ps| && ps[i].0 == name
  }

  /** `get(name)`: the value of the first pair named `name`, or null. */
  function FirstValue(ps: seq<Pair>, name: string): (r: Option<string>)
    ensures r.None? <==> !HasName(ps, name)
    ensures r.Some? ==> (name, r.value) in ps
  {
    if ps == [] then None
    else if ps[0].0 == name then Some(ps[0].1)
    else
      var r := FirstValue(ps[1..], name);
      assert r.Some? ==> (name, r.value) in ps by {
        if r.Some? { assert ps == [ps[0]] + ps[1..]; }
      }
      assert HasName(ps, name) ==> HasName(ps[1..], name) by {
        if HasName(ps, name) {
          var i :| 0 <= i < |ps| && ps[i].0 == name;
          assert ps[1..][i - 1].0 == name;
        }
      }
      r
  }

  /** The index of the first pair named `name`, or `|ps|` when there is none. */
  function FirstIndex(ps: seq<Pair>, name: string): (i: nat)
    ensures i <= |ps|
    ensures i < |ps| ==> ps[i].0 == name
    ensures forall j :: 0 <= j < i ==> ps[j].0 != name
  {
    if ps == [] then 0
    else if ps[0].0 == name then 0
    else 1 + FirstIndex(ps[1..], name)
  }

  /** `get` reads the pair at the first index of the name. */
  lemma {:induction false} FirstValueAt(ps: seq<Pair>, name: string)
    ensures FirstIndex(ps, name) < |ps| <==> FirstValue(ps, name).Some?
    ensures FirstValue(ps, name).Some? ==> FirstValue(ps, name).value == ps[FirstIndex(ps, name)].1
  {
    if ps != [] && ps[0].0 != name {
      FirstValueAt(ps[1..], name);
    }
  }

  /** `delete(name)`: the list without its pairs named `name`, other pairs in their order. */
  function WithoutName(ps: seq<Pair>, name: string): (r: seq<Pair>)
    ensures |r| == |ps| - CountName(ps, name)
    ensures forall p :: p in r <==> p in ps && p.0 != name
  {
    if ps == [] then []
    else if ps[0].0 == name then WithoutName(ps[1..], name)
    else [ps[0]] + WithoutName(ps[1..], name)
  }

  /** Deleting a name from a list that starts with `p`: `p` stays exactly when it has another name. */
  lemma WithoutNameCons(p: Pair, tail: seq<Pair>, name: string)
    ensures WithoutName([p] + tail, name) == (if p.0 == name then [] else [p]) + WithoutName(tail, name)
  {
    var ps := [p] + tail;
    assert ps[0] == p && ps[1..] == tail;
  }

  /** `delete` works pair by pair: deleting from a concatenation concatenates the
      results, so the kept pairs stay in their order and duplicates are kept. */
  lemma {:induction false} WithoutNameConcat(a: seq<Pair>, b: seq<Pair>, name: string)
    ensures WithoutName(a + b, name) == WithoutName(a, name) + WithoutName(b, name)
  {
    if a == [] {
      assert a + b == b;
    } else {
      var head := if a[0].0 == name then [] else [a[0]];
      var tail := a[1..];
      assert a == [a[0]] + tail;
      assert a + b == [a[0]] + (tail + b);
      WithoutNameCons(a[0], tail + b, name);
      WithoutNameCons(a[0], tail, name);
      WithoutNameConcat(tail, b, name);
      ConcatAssociates(head, WithoutName(tail, name), WithoutName(b, name));
    }
  }

  lemma ConcatAssociates(x: seq<Pair>, y: seq<Pair>, z: seq<Pair>)
    ensures x + (y + z) == (x + y) + z
  {
  }

  /** Deleting a name from a single pair keeps it exactly when it has another name. */
  lemma WithoutNameSingle(p: Pair, name: string)
    ensures WithoutName([p], name) == if p.0 == name then [] else [p]
  {
    assert [p][1..] == [];
  }

  /** `set(name, value)`: the first pair named `name` takes the new value and stays
      where it is, later pairs of that name are dropped; with no such pair, the new
      pair is appended. */
  function SetValue(ps: seq<Pair>, name: string, value: string): (r: seq<Pair>)
    ensures (name, value) in r
    ensures forall p :: p in r ==> p == (name, value) || (p in ps && p.0 != name)
  {
    if ps == [] then [(name, value)]
    else if ps[0].0 == name then [(name, value)] + WithoutName(ps[1..], name)
    else [ps[0]] + SetValue(ps[1..], name, value)
  }

  /** The number of pairs named `name`. */
  function CountName(ps: seq<Pair>, name: string): (n: nat)
    ensures n <= |ps|
  {
    if ps == [] then 0
    else (if ps[0].0 == name then 1 else 0) + CountName(ps[1..], name)
  }

  /** A name is counted zero times exactly when no pair carries it. */
  lemma {:induction false} CountNameZero(ps: seq<Pair>, name: string)
    ensures CountName(ps, name) == 0 <==> !HasName(ps, name)
  {
    if ps != [] {
      CountNameZero(ps[1..], name);
      if HasName(ps, name) && ps[0].0 != name {
        var i :| 0 <= i < |ps| && ps[i].0 == name;
        assert ps[1..][i - 1].0 == name;
      }
      if HasName(ps[1..], name) {
        var i :| 0 <= i < |ps[1..]| && ps[1..][i].0 == name;
        assert ps[i + 1].0 == name;
      }
    }
  }

  /** The set algorithm as the standard words it, when the name is present: with
      `i` the first index of the name, the pairs before `i` stay, the pair at `i`
      takes the value, and the pairs after `i` lose every pair of that name. */
  lemma {:induction false} SetValueReplacesFirst(ps: seq<Pair>, name: string, value: string, i: nat)
    requires i == FirstIndex(ps, name) && i < |ps|
    ensures SetValue(ps, name, value) == ps[..i] + [(name, value)] + WithoutName(ps[i + 1..], name)
  {
    var rest := WithoutName(ps[i + 1..], name);
    if i == 0 {
      assert ps[..0] == [];
    } else {
      var tail := ps[1..];
      var before := tail[..i - 1];
      assert ps == [ps[0]] + tail;
      assert ps[0].0 != name && FirstIndex(tail, name) == i - 1;
      SetValueReplacesFirst(tail, name, value, i - 1);
      assert tail[i..] == ps[i + 1..];
      SetValueCons(ps[0], tail, name, value);
      assert ps[..i] == [ps[0]] + before;
      ConcatAssociates([ps[0]], before + [(name, value)], rest);
      ConcatAssociates([ps[0]], before, [(name, value)]);
    }
  }

  /** `set` passes over a leading pair of another name. */
  lemma SetValueCons(p: Pair, tail: seq<Pair>, name: string, value: string)
    requires p.0 != name
    ensures SetValue([p] + tail, name, value) == [p] + SetValue(tail, name, value)
  {
    var ps := [p] + tail;
    assert ps[0] == p && ps[1..] == tail;
  }

  /** ... and when the name is absent, the new pair is appended at the end. */
  lemma {:induction false} SetValueAppends(ps: seq<Pair>, name: string, value: string)
    requires FirstIndex(ps, name) == |ps|
    ensures SetValue(ps, name, value) == ps + [(name, value)]
  {
    if ps != [] {
      var tail := ps[1..];
      SetValueAppends(tail, name, value);
      assert SetValue(ps, name, value) == [ps[0]] + SetValue(tail, name, value);
      assert ps == [ps[0]] + tail;
    }
  }

  /** After `delete`, no pair carries the name. */
  lemma WithoutNameRemoves(ps: seq<Pair>, name: string)
    ensures CountName(WithoutName(ps, name), name) == 0
    ensures FirstValue(WithoutName(ps, name), name) == None
  {
  }

  /** `delete` twice is `delete` once. */
  lemma {:induction false} WithoutNameIdempotent(ps: seq<Pair>, name: string)
    ensures WithoutName(WithoutName(ps, name), name) == WithoutName(ps, name)
  {
    if ps != [] {
      WithoutNameIdempotent(ps[1..], name);
      if ps[0].0 != name {
        assert WithoutName(ps, name) == [ps[0]] + WithoutName(ps[1..], name);
        assert ([ps[0]] + WithoutName(ps[1..], name))[1..] == WithoutName(ps[1..], name);
      }
    }
  }

  /** After `set`, exactly one pair carries the name. */
  lemma {:induction false} SetValueCount(ps: seq<Pair>, name: string, value: string)
    ensures CountName(SetValue(ps, name, value), name) == 1
  {
    if ps == [] {
    } else if ps[0].0 == name {
      var r := SetValue(ps, name, value);
      assert r[1..] == WithoutName(ps[1..], name);
      WithoutNameRemoves(ps[1..], name);
    } else {
      var r := SetValue(ps, name, value);
      assert r[1..] == SetValue(ps[1..], name, value);
      SetValueCount(ps[1..], name, value);
    }
  }

  /** After `set`, `get` of the name gives the value just set. */
  lemma SetValueGet(ps: seq<Pair>, name: string, value: string)
    ensures FirstValue(SetValue(ps, name, value), name) == Some(value)
  {
  }

  /** `set` keeps every pair of another name, with its value, in its order, and adds no other. */
  lemma {:induction false} SetValueKeepsOthers(ps: seq<Pair>, name: string, value: string)
    ensures WithoutName(SetValue(ps, name, value), name) == WithoutName(ps, name)
  {
    if ps == [] {
    } else if ps[0].0 == name {
      var r := SetValue(ps, name, value);
      assert r[1..] == WithoutName(ps[1..], name);
      WithoutNameIdempotent(ps[1..], name);
    } else {
      var r := SetValue(ps, name, value);
      assert r[1..] == SetValue(ps[1..], name, value);
      SetValueKeepsOthers(ps[1..], name, value);
    }
  }

  /** `set` twice with the same value is `set` once. */
  lemma {:induction false} SetValueIdempotent(ps: seq<Pair>, name: string, value: string)
    ensures SetValue(SetValue(ps, name, value), name, value) == SetValue(ps, name, value)
  {
    if ps == [] {
    } else if ps[0].0 == name {
      var r := SetValue(ps, name, value);
      assert r[1..] == WithoutName(ps[1..], name);
      WithoutNameIdempotent(ps[1..], name);
    } else {
      var r := SetValue(ps, name, value);
      assert r[1..] == SetValue(ps[1..], name, value);
      SetValueIdempotent(ps[1..], name, value);
    }
  }

  /** `get` of any other name reads the same value after `delete` of a name. */
  lemma {:induction false} WithoutNameGetOther(ps: seq<Pair>, name: string, other: string)
    requires other != name
    ensures FirstValue(WithoutName(ps, name), other) == FirstValue(ps, other)
  {
    if ps != [] {
      WithoutNameGetOther(ps[1..], name, other);
      if ps[0].0 != name {
        assert WithoutName(ps, name)[1..] == WithoutName(ps[1..], name);
      }
    }
  }

  /** `get` of any other name reads the same value after `set` of a name. */
  lemma {:induction false} SetValueGetOther(ps: seq<Pair>, name: string, value: string, other: string)
    requires other != name
    ensures FirstValue(SetValue(ps, name, value), other) == FirstValue(ps, other)
  {
    if ps == [] {
    } else if ps[0].0 == name {
      var r := SetValue(ps, name, value);
      assert r[1..] == WithoutName(ps[1..], name);
      WithoutNameGetOther(ps[1..], name, other);
    } else {
      var r := SetValue(ps, name, value);
      assert r[1..] == SetValue(ps[1..], name, value);
      SetValueGetOther(ps[1..], name, value, other);
    }
  }

  /** A `URLSearchParams` object: its list of pairs is updated in place. */
  class SearchParams {
    var list: seq<Pair>

    /** `new URLSearchParams(init)` for an iterable of pairs: a copy of the pairs, in order. */
    constructor (init: seq<Pair>)
      ensures list == init
    {
      list := init;
    }

    /** `params.set(name, value)`. */
    method Set(name: string, value: string)
      modifies this
      ensures list == SetValue(old(list), name, value)
      ensures CountName(list, name) == 1 && FirstValue(list, name) == Some(value)
      ensures WithoutName(list, name) == WithoutName(old(list), name)
    {
      SetValueCount(list, name, value);
      SetValueGet(list, name, value);
      SetValueKeepsOthers(list, name, value);
      list := SetValue(list, name, value);
    }

    /** `params.delete(name)`. */
    method Delete(name: string)
      modifies this
      ensures list == WithoutName(old(list), name)
      ensures CountName(list, name) == 0 && FirstValue(list, name) == None
    {
      WithoutNameRemoves(list, name);
      list := WithoutName(list, name);
    }
  }
}
