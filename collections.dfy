/**
 * Sequence helpers shared by both sync engines: an optional value, filtering
 * a sequence in order, and taking a bounded prefix (an SQL LIMIT).
 */
module Collections {

  datatype Option<+T> = None | Some(value: T)

  /** The elements of `s` that satisfy `p`, in their original order. */
  function Filter<T>(s: seq<T>, p: T -> bool): (r: seq<T>)
    ensures |r| <= |s|
    decreases |s|
  {
    if s == [] then []
    else (if p(s[0]) then [s[0]] else []) + Filter(s[1..], p)
  }

  /** Filtering keeps exactly the elements that satisfy `p`. */
  lemma {:induction false} FilterMembers<T>(s: seq<T>, p: T -> bool)
    ensures forall x <- Filter(s, p) :: x in s && p(x)
    ensures forall x <- s :: p(x) ==> x in Filter(s, p)
    decreases |s|
  {
    if s != [] {
      FilterMembers(s[1..], p);
      assert Filter(s, p) == (if p(s[0]) then [s[0]] else []) + Filter(s[1..], p);
      assert forall x <- s :: x == s[0] || x in s[1..];
    }
  }

  /** Filtering a non-empty sequence filters its prefix, then keeps or drops its last element. */
  lemma {:induction false} FilterLast<T>(s: seq<T>, p: T -> bool)
    requires s != []
    ensures Filter(s, p) == Filter(s[..|s| - 1], p) + (if p(s[|s| - 1]) then [s[|s| - 1]] else [])
    decreases |s|
  {
    var init, last := s[..|s| - 1], s[|s| - 1];
    var tail := if p(last) then [last] else [];
    var head := if p(s[0]) then [s[0]] else [];
    if |s| == 1 {
      assert init == [] && s[1..] == [];
      assert Filter(s, p) == tail + Filter([], p);
    } else {
      FilterLast(s[1..], p);
      assert s[1..][..|s[1..]| - 1] == init[1..];
      assert s[1..][|s[1..]| - 1] == last;
      assert init[0] == s[0];
      assert Filter(init, p) == head + Filter(init[1..], p);
      assert Filter(s, p) == head + (Filter(init[1..], p) + tail);
    }
  }

  /** `f` of each element of `s` that satisfies `p`, in their original order. */
  function FilterMap<T, U>(s: seq<T>, p: T -> bool, f: T -> U): seq<U>
    decreases |s|
  {
    if s == [] then []
    else FilterMap(s[..|s| - 1], p, f) + (if p(s[|s| - 1]) then [f(s[|s| - 1])] else [])
  }

  lemma {:induction false} FilterMapAppend<T, U>(a: seq<T>, b: seq<T>, p: T -> bool, f: T -> U)
    ensures FilterMap(a + b, p, f) == FilterMap(a, p, f) + FilterMap(b, p, f)
    decreases |b|
  {
    if b == [] {
      assert a + b == a;
    } else {
      FilterMapAppend(a, b[..|b| - 1], p, f);
      assert (a + b)[..|a + b| - 1] == a + b[..|b| - 1];
    }
  }

  /** There is one result per element kept by `Filter`. */
  lemma {:induction false} FilterMapCount<T, U>(s: seq<T>, p: T -> bool, f: T -> U)
    ensures |FilterMap(s, p, f)| == |Filter(s, p)|
    decreases |s|
  {
    if s != [] {
      FilterMapCount(s[..|s| - 1], p, f);
      FilterLast(s, p);
    }
  }

  /** A value is a result exactly when it is `f` of some element satisfying `p`. */
  lemma {:induction false} FilterMapMembers<T, U>(s: seq<T>, p: T -> bool, f: T -> U)
    ensures forall y :: y in FilterMap(s, p, f) <==> exists i :: 0 <= i < |s| && p(s[i]) && f(s[i]) == y
    decreases |s|
  {
    if s != [] {
      var init, last := s[..|s| - 1], s[|s| - 1];
      FilterMapMembers(init, p, f);
      forall y
        ensures y in FilterMap(s, p, f) <==> exists i :: 0 <= i < |s| && p(s[i]) && f(s[i]) == y
      {
        if y in FilterMap(init, p, f) {
          var i :| 0 <= i < |init| && p(init[i]) && f(init[i]) == y;
          assert s[i] == init[i];
        }
        if exists i :: 0 <= i < |s| && p(s[i]) && f(s[i]) == y {
          var i :| 0 <= i < |s| && p(s[i]) && f(s[i]) == y;
          if i < |init| {
            assert init[i] == s[i];
          }
        }
      }
    }
  }

  /** At most `n` leading elements of `s`: the rows an SQL LIMIT n keeps. */
  function Take<T>(s: seq<T>, n: int): (r: seq<T>)
    ensures |r| == if n <= 0 then 0 else if n < |s| then n else |s|
    ensures r == s[..|r|]
    ensures forall x <- r :: x in s
  {
    if n <= 0 then [] else if n < |s| then s[..n] else s
  }

  /** The elements of `s` have pairwise distinct images under `key`. */
  predicate DistinctBy<T>(s: seq<T>, key: T -> int)
  {
    forall i, j :: 0 <= i < j < |s| ==> key(s[i]) != key(s[j])
  }
}
