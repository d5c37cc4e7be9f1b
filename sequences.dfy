/** Order-preserving traversals of a sequence, written by recursion on the
    prefix so that a loop that appends as it walks the sequence left to right
    keeps `acc == F(s[..i])` as its invariant. */
module Sequences {
  import opened Wrappers

  /** f applied to every element, in order. */
  function Map<T, U>(f: T -> U, s: seq<T>): (r: seq<U>)
    ensures |r| == |s|
  {
    if s == [] then [] else Map(f, s[..|s| - 1]) + [f(s[|s| - 1])]
  }

  /** The value held by o, if any, as a sequence of length at most one. */
  function Held<U>(o: Option<U>): seq<U> {
    match o case Some(u) => [u] case None => []
  }

  /** The values f reports for the elements it keeps, in order. */
  function FilterMap<T, U>(f: T -> Option<U>, s: seq<T>): seq<U> {
    if s == [] then [] else FilterMap(f, s[..|s| - 1]) + Held(f(s[|s| - 1]))
  }

  /** The concatenation of f's sequences for every element, in order. */
  function FlatMap<T, U>(f: T -> seq<U>, s: seq<T>): seq<U> {
    if s == [] then [] else FlatMap(f, s[..|s| - 1]) + f(s[|s| - 1])
  }

  /** Regrouping a concatenation; stated once so that callers need not
      prove it element by element. */
  lemma AppendAssoc<T>(a: seq<T>, b: seq<T>, c: seq<T>)
    ensures (a + b) + c == a + (b + c)
  {
  }

  /** One more element of s processed, as a loop over s takes it. */
  lemma FilterMapStep<T, U>(f: T -> Option<U>, s: seq<T>, i: nat)
    requires i < |s|
    ensures FilterMap(f, s[..i + 1]) == FilterMap(f, s[..i]) + Held(f(s[i]))
  {
    assert s[..i + 1][..i] == s[..i];
  }

  lemma MapStep<T, U>(f: T -> U, s: seq<T>, i: nat)
    requires i < |s|
    ensures Map(f, s[..i + 1]) == Map(f, s[..i]) + [f(s[i])]
  {
    assert s[..i + 1][..i] == s[..i];
  }

  /** Replacing, in place, the next element of a partly mapped sequence by
      its image extends the mapped prefix by one. */
  lemma MapInPlaceStep<T>(f: T -> T, s: seq<T>, i: nat)
    requires i < |s|
    ensures (Map(f, s[..i]) + s[i..])[i := f(s[i])] == Map(f, s[..i + 1]) + s[i + 1..]
  {
    MapStep(f, s, i);
    var m := Map(f, s[..i]);
    assert s[i..] == [s[i]] + s[i + 1..];
    assert (m + s[i..])[i := f(s[i])] == m + [f(s[i])] + s[i + 1..];
  }

  lemma {:induction false} MapAt<T, U>(f: T -> U, s: seq<T>, i: nat)
    requires i < |s|
    ensures Map(f, s)[i] == f(s[i])
    decreases |s|
  {
    if i < |s| - 1 {
      MapAt(f, s[..|s| - 1], i);
    }
  }

  lemma MapMember<T, U>(f: T -> U, s: seq<T>, u: U)
    ensures u in Map(f, s) <==> exists i :: 0 <= i < |s| && f(s[i]) == u
  {
    if u in Map(f, s) {
      var j :| 0 <= j < |Map(f, s)| && Map(f, s)[j] == u;
      MapAt(f, s, j);
    }
    if exists i :: 0 <= i < |s| && f(s[i]) == u {
      var i :| 0 <= i < |s| && f(s[i]) == u;
      MapAt(f, s, i);
    }
  }

  lemma FlatMapStep<T, U>(f: T -> seq<U>, s: seq<T>, i: nat)
    requires i < |s|
    ensures FlatMap(f, s[..i + 1]) == FlatMap(f, s[..i]) + f(s[i])
  {
    assert s[..i + 1][..i] == s[..i];
  }

  lemma {:induction false} FilterMapAppend<T, U>(f: T -> Option<U>, a: seq<T>, b: seq<T>)
    ensures FilterMap(f, a + b) == FilterMap(f, a) + FilterMap(f, b)
    decreases |b|
  {
    if b == [] {
      assert a + b == a;
    } else {
      var b' := b[..|b| - 1];
      assert (a + b)[..|a + b| - 1] == a + b';
      assert (a + b)[|a + b| - 1] == b[|b| - 1];
      FilterMapAppend(f, a, b');
    }
  }

  lemma {:induction false} FilterMapMember<T, U>(f: T -> Option<U>, s: seq<T>, u: U)
    ensures u in FilterMap(f, s) <==> exists i :: 0 <= i < |s| && f(s[i]) == Some(u)
    decreases |s|
  {
    if s != [] {
      var p := s[..|s| - 1];
      FilterMapMember(f, p, u);
      if u in FilterMap(f, s) {
        if u in FilterMap(f, p) {
          var i :| 0 <= i < |p| && f(p[i]) == Some(u);
          assert s[i] == p[i];
        } else {
          assert f(s[|s| - 1]) == Some(u);
        }
      }
      if exists i :: 0 <= i < |s| && f(s[i]) == Some(u) {
        var i :| 0 <= i < |s| && f(s[i]) == Some(u);
        if i < |s| - 1 {
          assert p[i] == s[i];
        }
      }
    }
  }

  lemma {:induction false} FilterMapEmpty<T, U>(f: T -> Option<U>, s: seq<T>)
    ensures FilterMap(f, s) == [] <==> forall i :: 0 <= i < |s| ==> f(s[i]).None?
    decreases |s|
  {
    if s != [] {
      var p := s[..|s| - 1];
      FilterMapEmpty(f, p);
      assert forall i :: 0 <= i < |p| ==> p[i] == s[i];
    }
  }

  lemma RemoveAt<T>(b: seq<T>, k: nat)
    requires k < |b|
    ensures multiset(b[..k] + b[k + 1..]) == multiset(b) - multiset{b[k]}
  {
    assert b == b[..k] + [b[k]] + b[k + 1..];
  }

  /** What s keeps, with the keeping of its last element made explicit. */
  lemma FilterMapLast<T, U>(f: T -> Option<U>, s: seq<T>)
    requires s != []
    ensures FilterMap(f, s) == FilterMap(f, s[..|s| - 1]) + Held(f(s[|s| - 1]))
  {
  }

  lemma {:induction false} FilterMapSplitAt<T, U>(f: T -> Option<U>, b: seq<T>, k: nat)
    requires k < |b|
    ensures FilterMap(f, b) == FilterMap(f, b[..k]) + Held(f(b[k])) + FilterMap(f, b[k + 1..])
    decreases |b|
  {
    var n := |b| - 1;
    var init, rest := b[..n], b[k + 1..];
    if k == n {
      assert rest == [];
      FilterMapLast(f, b);
    } else {
      assert init[..k] == b[..k] && init[k] == b[k];
      assert rest[..|rest| - 1] == init[k + 1..] && rest[|rest| - 1] == b[n];
      FilterMapLast(f, b);
      FilterMapLast(f, rest);
      FilterMapSplitAt(f, init, k);
      AppendAssoc(FilterMap(f, b[..k]) + Held(f(b[k])), FilterMap(f, init[k + 1..]), Held(f(b[n])));
    }
  }

  /** Taking one element out of the input takes out what it kept. */
  lemma FilterMapRemove<T, U>(f: T -> Option<U>, b: seq<T>, k: nat)
    requires k < |b|
    ensures multiset(FilterMap(f, b)) == multiset(FilterMap(f, b[..k] + b[k + 1..])) + multiset(Held(f(b[k])))
  {
    FilterMapSplitAt(f, b, k);
    FilterMapAppend(f, b[..k], b[k + 1..]);
  }

  /** Reordering the input reorders the kept values and nothing more. */
  lemma {:induction false} FilterMapPermutation<T, U>(f: T -> Option<U>, a: seq<T>, b: seq<T>)
    requires multiset(a) == multiset(b)
    ensures multiset(FilterMap(f, a)) == multiset(FilterMap(f, b))
    decreases |a|
  {
    if a == [] {
      assert |b| == |multiset(b)| == 0;
    } else {
      var x := a[|a| - 1];
      var a' := a[..|a| - 1];
      assert a == a' + [x];
      assert x in multiset(b);
      var k :| 0 <= k < |b| && b[k] == x;
      RemoveAt(b, k);
      FilterMapPermutation(f, a', b[..k] + b[k + 1..]);
      FilterMapRemove(f, b, k);
    }
  }

  lemma {:induction false} FlatMapMember<T, U>(f: T -> seq<U>, s: seq<T>, u: U)
    ensures u in FlatMap(f, s) <==> exists i :: 0 <= i < |s| && u in f(s[i])
    decreases |s|
  {
    if s != [] {
      var p := s[..|s| - 1];
      FlatMapMember(f, p, u);
      if u in FlatMap(f, s) {
        if u in FlatMap(f, p) {
          var i :| 0 <= i < |p| && u in f(p[i]);
          assert s[i] == p[i];
        } else {
          assert u in f(s[|s| - 1]);
        }
      }
      if exists i :: 0 <= i < |s| && u in f(s[i]) {
        var i :| 0 <= i < |s| && u in f(s[i]);
        if i < |s| - 1 {
          assert p[i] == s[i];
        }
      }
    }
  }
}
