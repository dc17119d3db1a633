/** Order-preserving list operations shared by the pages and the prize draw:
    `Array.prototype.filter` and the "drop the element at an index" idiom
    `xs.filter((_, i) => i !== index)`. */
module Seqs {

  /** `s.filter(f)`: the elements of `s` satisfying `f`, in their original order. */
  function Filter<T>(s: seq<T>, f: T -> bool): (r: seq<T>)
    ensures |r| <= |s|
    ensures forall x | x in r :: x in s && f(x)
    ensures forall i | 0 <= i < |s| :: f(s[i]) ==> s[i] in r
  {
    if s == [] then []
    else (if f(s[0]) then [s[0]] else []) + Filter(s[1..], f)
  }

  /** Filtering distributes over concatenation: together with the
      one-element case this pins down `Filter` as the order-preserving filter. */
  lemma {:induction false} FilterAppend<T>(a: seq<T>, b: seq<T>, f: T -> bool)
    ensures Filter(a + b, f) == Filter(a, f) + Filter(b, f)
  {
    if a == [] {
      assert a + b == b;
    } else {
      assert (a + b)[0] == a[0];
      assert (a + b)[1..] == a[1..] + b;
      FilterAppend(a[1..], b, f);
    }
  }

  /** The one-element case: an element is kept exactly when it passes. */
  lemma FilterSingle<T>(x: T, f: T -> bool)
    ensures Filter([x], f) == if f(x) then [x] else []
  {
    assert [x][1..] == [];
  }

  /** Filtering twice by the same test changes nothing. */
  lemma {:induction false} FilterIdempotent<T>(s: seq<T>, f: T -> bool)
    ensures Filter(Filter(s, f), f) == Filter(s, f)
  {
    if s != [] {
      FilterIdempotent(s[1..], f);
      var head := if f(s[0]) then [s[0]] else [];
      FilterAppend(head, Filter(s[1..], f), f);
    }
  }

  /** The filter keeps every element exactly when every element passes, and
      keeps none exactly when none passes. */
  lemma {:induction false} FilterKeepsAll<T>(s: seq<T>, f: T -> bool)
    ensures |Filter(s, f)| == |s| <==> forall i :: 0 <= i < |s| ==> f(s[i])
    ensures (forall i :: 0 <= i < |s| ==> f(s[i])) ==> Filter(s, f) == s
    ensures |Filter(s, f)| == 0 <==> forall i :: 0 <= i < |s| ==> !f(s[i])
  {
    var r := Filter(s, f);
    if |r| > 0 {
      assert r[0] in r;
    }
    if s != [] {
      FilterKeepsAll(s[1..], f);
      assert forall i :: 1 <= i < |s| ==> s[i] == s[1..][i - 1];
      if !f(s[0]) {
        assert |Filter(s, f)| < |s|;
      }
    }
  }

  /** `filter` against an element matched only once removes exactly that
      position and keeps the others in order. */
  lemma FilterDropsSingle<T>(s: seq<T>, f: T -> bool, i: nat)
    requires i < |s| && !f(s[i])
    requires forall j :: 0 <= j < |s| && j != i ==> f(s[j])
    ensures Filter(s, f) == s[..i] + s[i + 1..]
  {
    FilterPrefixPasses(s, f, i);
    FilterSuffixPasses(s, f, i);
    FilterDropsAt(s, f, i);
  }

  /** Filtering out a failing element whose neighbours on both sides all pass. */
  lemma FilterDropsAt<T>(s: seq<T>, f: T -> bool, i: nat)
    requires i < |s| && !f(s[i])
    requires Filter(s[..i], f) == s[..i] && Filter(s[i + 1..], f) == s[i + 1..]
    ensures Filter(s, f) == s[..i] + s[i + 1..]
  {
    SplitAt(s, i);
    FilterDropsMiddle(s[..i], s[i], s[i + 1..], f);
  }

  lemma SplitAt<T>(s: seq<T>, i: nat)
    requires i < |s|
    ensures s == s[..i] + [s[i]] + s[i + 1..]
  {
  }

  lemma FilterPrefixPasses<T>(s: seq<T>, f: T -> bool, i: nat)
    requires i <= |s|
    requires forall j :: 0 <= j < i ==> f(s[j])
    ensures Filter(s[..i], f) == s[..i]
  {
    var prefix := s[..i];
    forall j | 0 <= j < |prefix|
      ensures f(prefix[j])
    {
      assert prefix[j] == s[j];
    }
    FilterAllPass(prefix, f);
  }

  lemma FilterSuffixPasses<T>(s: seq<T>, f: T -> bool, i: nat)
    requires i < |s|
    requires forall j :: i < j < |s| ==> f(s[j])
    ensures Filter(s[i + 1..], f) == s[i + 1..]
  {
    var suffix := s[i + 1..];
    forall j | 0 <= j < |suffix|
      ensures f(suffix[j])
    {
      assert suffix[j] == s[i + 1 + j];
    }
    FilterAllPass(suffix, f);
  }

  /** A list whose every element passes is its own filter. */
  lemma {:induction false} FilterAllPass<T>(s: seq<T>, f: T -> bool)
    requires forall i :: 0 <= i < |s| ==> f(s[i])
    ensures Filter(s, f) == s
  {
    if s != [] {
      assert forall i :: 0 <= i < |s[1..]| ==> s[1..][i] == s[i + 1];
      FilterAllPass(s[1..], f);
    }
  }

  /** Filtering out one failing element between two kept runs. */
  lemma FilterDropsMiddle<T>(before: seq<T>, x: T, after: seq<T>, f: T -> bool)
    requires Filter(before, f) == before && !f(x) && Filter(after, f) == after
    ensures Filter(before + [x] + after, f) == before + after
  {
    FilterAppend(before, [x], f);
    FilterAppend(before + [x], after, f);
    assert Filter([x], f) == [];
    assert before + [] == before;
  }

  /** `s.filter((_, i) => i !== index)`: an index outside the list removes nothing. */
  function RemoveIndex<T>(s: seq<T>, index: int): (r: seq<T>)
    ensures 0 <= index < |s| ==> r == s[..index] + s[index + 1..]
    ensures !(0 <= index < |s|) ==> r == s
  {
    if s == [] then []
    else if index == 0 then s[1..]
    else [s[0]] + RemoveIndex(s[1..], index - 1)
  }
}
