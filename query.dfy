/** `URLSearchParams` as an ordered list of name/value pairs, with the two
    mutators the pages use: `append` and `set`. */
module Query {
  import opened Wrappers
  import opened Seqs

  datatype Param = Param(key: string, value: string)

  /** `params.get(key)`: the value of the first pair named `key`. */
  function Get(ps: seq<Param>, key: string): (r: Option<string>)
    ensures r.Some? <==> exists i :: 0 <= i < |ps| && ps[i].key == key
  {
    if ps == [] then None
    else if ps[0].key == key then Some(ps[0].value)
    else
      assert forall i :: 1 <= i < |ps| ==> ps[i] == ps[1..][i - 1];
      Get(ps[1..], key)
  }

  /** `params.append(key, value)`. */
  function Append(ps: seq<Param>, key: string, value: string): seq<Param> {
    ps + [Param(key, value)]
  }

  predicate HasKey(ps: seq<Param>, key: string) {
    exists i :: 0 <= i < |ps| && ps[i].key == key
  }

  function WithoutKey(ps: seq<Param>, key: string): seq<Param> {
    Filter(ps, (p: Param) => p.key != key)
  }

  function ReplaceFirst(ps: seq<Param>, key: string, value: string): seq<Param>
    requires HasKey(ps, key)
  {
    if ps[0].key == key then [Param(key, value)] + WithoutKey(ps[1..], key)
    else
      assert forall i :: 1 <= i < |ps| ==> ps[i] == ps[1..][i - 1];
      [ps[0]] + ReplaceFirst(ps[1..], key, value)
  }

  /** `params.set(key, value)`: the first pair named `key` takes the new value
      and later pairs with that name are removed; without one, the pair is appended. */
  function Set(ps: seq<Param>, key: string, value: string): seq<Param> {
    if HasKey(ps, key) then ReplaceFirst(ps, key, value) else Append(ps, key, value)
  }

  lemma {:induction false} GetWithoutKey(ps: seq<Param>, key: string, other: string)
    ensures Get(WithoutKey(ps, key), key) == None
    ensures other != key ==> Get(WithoutKey(ps, key), other) == Get(ps, other)
  {
    if ps != [] {
      GetWithoutKey(ps[1..], key, other);
      var rest := WithoutKey(ps[1..], key);
      if ps[0].key == key {
        assert WithoutKey(ps, key) == rest;
      } else {
        assert WithoutKey(ps, key) == [ps[0]] + rest;
        assert ([ps[0]] + rest)[1..] == rest;
      }
    }
  }

  lemma {:induction false} GetAppend(ps: seq<Param>, key: string, value: string, other: string)
    ensures Get(Append(ps, key, value), key) == Some(Get(ps, key).GetOr(value))
    ensures other != key ==> Get(Append(ps, key, value), other) == Get(ps, other)
  {
    if ps != [] {
      GetAppend(ps[1..], key, value, other);
      assert Append(ps, key, value)[1..] == Append(ps[1..], key, value);
    }
  }

  /** After `set`, the name reads back as the new value and every other name
      reads as before. */
  lemma {:induction false} GetSet(ps: seq<Param>, key: string, value: string, other: string)
    ensures Get(Set(ps, key, value), key) == Some(value)
    ensures other != key ==> Get(Set(ps, key, value), other) == Get(ps, other)
  {
    if HasKey(ps, key) {
      GetReplaceFirst(ps, key, value, other);
    } else {
      GetAppend(ps, key, value, other);
    }
  }

  lemma {:induction false} GetReplaceFirst(ps: seq<Param>, key: string, value: string, other: string)
    requires HasKey(ps, key)
    ensures Get(ReplaceFirst(ps, key, value), key) == Some(value)
    ensures other != key ==> Get(ReplaceFirst(ps, key, value), other) == Get(ps, other)
  {
    if ps[0].key == key {
      GetWithoutKey(ps[1..], key, other);
      assert ([Param(key, value)] + WithoutKey(ps[1..], key))[1..] == WithoutKey(ps[1..], key);
    } else {
      assert forall i :: 1 <= i < |ps| ==> ps[i] == ps[1..][i - 1];
      GetReplaceFirst(ps[1..], key, value, other);
      assert ([ps[0]] + ReplaceFirst(ps[1..], key, value))[1..] == ReplaceFirst(ps[1..], key, value);
    }
  }

  /** Reading a name from a concatenation finds it in the first part if it is there. */
  lemma {:induction false} GetConcat(a: seq<Param>, b: seq<Param>, key: string)
    ensures Get(a + b, key) == if HasKey(a, key) then Get(a, key) else Get(b, key)
  {
    if a == [] {
      assert a + b == b;
    } else {
      assert (a + b)[1..] == a[1..] + b;
      GetConcat(a[1..], b, key);
      assert forall i :: 1 <= i < |a| ==> a[i] == a[1..][i - 1];
      assert HasKey(a[1..], key) ==> HasKey(a, key) by {
        if HasKey(a[1..], key) {
          var i :| 0 <= i < |a[1..]| && a[1..][i].key == key;
          assert a[i + 1].key == key;
        }
      }
    }
  }

  /** A concatenation has a name exactly when one of its parts has it. */
  lemma HasKeyConcat(a: seq<Param>, b: seq<Param>, key: string)
    ensures HasKey(a + b, key) <==> HasKey(a, key) || HasKey(b, key)
  {
    if HasKey(a, key) {
      var i :| 0 <= i < |a| && a[i].key == key;
      assert (a + b)[i] == a[i];
    }
    if HasKey(b, key) {
      var i :| 0 <= i < |b| && b[i].key == key;
      assert (a + b)[|a| + i] == b[i];
    }
    if HasKey(a + b, key) {
      var i :| 0 <= i < |a + b| && (a + b)[i].key == key;
      if i < |a| {
        assert a[i] == (a + b)[i];
      } else {
        assert b[i - |a|] == (a + b)[i];
      }
    }
  }
}
