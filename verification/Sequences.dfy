/**
 Facts about finite sequences and sets that the model modules share.
 */
module Sequences {

  datatype Option<+T> = None | Some(value: T)

  ghost predicate NoDup<T>(s: seq<T>) {
    forall i, j :: 0 <= i < j < |s| ==> s[i] != s[j]
  }

  function Elems<T(==)>(s: seq<T>): set<T> {
    set x | x in s
  }

  lemma ElemsCardinality<T>(s: seq<T>)
    requires NoDup(s)
    ensures |Elems(s)| == |s|
  {
    if s != [] {
      var init := s[..|s| - 1];
      ElemsCardinality(init);
      assert s == init + [s[|s| - 1]];
      assert Elems(s) == Elems(init) + {s[|s| - 1]};
    }
  }

  lemma SubsetCardinality<T>(a: set<T>, b: set<T>)
    requires a <= b
    ensures |a| <= |b|
    ensures |a| == |b| ==> a == b
  {
    assert b == a + (b - a);
  }

  /** A sequence longer than the set its elements come from repeats one of them. */
  lemma Pigeonhole<T>(s: seq<T>, from: set<T>) returns (i: nat, j: nat)
    requires Elems(s) <= from && |from| < |s|
    ensures i < j < |s| && s[i] == s[j]
  {
    if NoDup(s) {
      ElemsCardinality(s);
      SubsetCardinality(Elems(s), from);
      assert false;
    }
    i, j :| i < j < |s| && s[i] == s[j];
  }

  /** Keep the elements that belong to `keep`, in their order. */
  function Filter<T(!new, ==)>(s: seq<T>, keep: set<T>): (r: seq<T>)
    ensures forall x :: x in r <==> x in s && x in keep
  {
    if s == [] then []
    else (if s[0] in keep then [s[0]] else []) + Filter(s[1..], keep)
  }

  function Reverse<T(!new)>(s: seq<T>): (r: seq<T>)
    ensures |r| == |s|
    ensures forall i :: 0 <= i < |s| ==> r[i] == s[|s| - 1 - i]
    ensures forall x :: x in r <==> x in s
  {
    if s == [] then [] else Reverse(s[1..]) + [s[0]]
  }

  lemma FilterNoDup<T(!new)>(s: seq<T>, keep: set<T>)
    requires NoDup(s)
    ensures NoDup(Filter(s, keep))
  {
    if s != [] {
      FilterNoDup(s[1..], keep);
    }
  }

  /** `a` occurs somewhere before an occurrence of `b`. */
  ghost predicate Before<T>(s: seq<T>, a: T, b: T) {
    exists i, j :: 0 <= i < j < |s| && s[i] == a && s[j] == b
  }

  lemma BeforeReverse<T(!new)>(s: seq<T>, a: T, b: T)
    requires Before(s, a, b)
    ensures Before(Reverse(s), b, a)
  {
    var i, j :| 0 <= i < j < |s| && s[i] == a && s[j] == b;
    assert Reverse(s)[|s| - 1 - j] == b && Reverse(s)[|s| - 1 - i] == a;
  }

  lemma {:induction false} BeforeFilter<T(!new)>(s: seq<T>, keep: set<T>, a: T, b: T)
    requires Before(s, a, b) && a in keep && b in keep
    ensures Before(Filter(s, keep), a, b)
  {
    var i, j :| 0 <= i < j < |s| && s[i] == a && s[j] == b;
    var rest := Filter(s[1..], keep);
    var head := if s[0] in keep then [s[0]] else [];
    assert s[1..][j - 1] == b;
    if i == 0 {
      assert b in rest;
      var k :| 0 <= k < |rest| && rest[k] == b;
      assert (head + rest)[0] == a && (head + rest)[k + 1] == b;
    } else {
      assert s[1..][i - 1] == a;
      BeforeFilter(s[1..], keep, a, b);
      var k, m :| 0 <= k < m < |rest| && rest[k] == a && rest[m] == b;
      assert (head + rest)[|head| + k] == a && (head + rest)[|head| + m] == b;
    }
  }

  lemma BeforeAt<T>(s: seq<T>, a: T, k: nat)
    requires NoDup(s) && k < |s| && Before(s, a, s[k])
    ensures a in s[..k]
  {
    var i, j :| 0 <= i < j < |s| && s[i] == a && s[j] == s[k];
    assert s[..k][i] == a;
  }

  lemma Associative<T>(a: seq<T>, b: seq<T>, c: seq<T>)
    ensures a + (b + c) == (a + b) + c
  {
  }

  lemma {:induction false} FilterAppend<T(!new)>(s: seq<T>, x: T, keep: set<T>)
    ensures Filter(s + [x], keep) == Filter(s, keep) + if x in keep then [x] else []
  {
    var tail := if x in keep then [x] else [];
    if s == [] {
      assert [x][1..] == [];
      assert s + [x] == [x];
      assert Filter([x], keep) == tail;
    } else {
      FilterAppend(s[1..], x, keep);
      assert (s + [x])[1..] == s[1..] + [x] && (s + [x])[0] == s[0];
      Associative(if s[0] in keep then [s[0]] else [], Filter(s[1..], keep), tail);
    }
  }

  /** `dict.fromkeys`: first occurrences, in order. */
  function Distinct<T(==)>(s: seq<T>): (r: seq<T>) {
    if s == [] then []
    else
      var init, last := Distinct(s[..|s| - 1]), s[|s| - 1];
      if last in init then init else init + [last]
  }

  lemma {:induction false} DistinctFacts<T>(s: seq<T>)
    ensures Elems(Distinct(s)) == Elems(s)
    ensures s != [] ==> Distinct(s) != [] && Distinct(s)[0] == s[0]
  {
    if s != [] {
      var init, last := s[..|s| - 1], s[|s| - 1];
      DistinctFacts(init);
      assert s == init + [last];
      assert Elems(s) == Elems(init) + {last};
      assert Elems(Distinct(init) + [last]) == Elems(Distinct(init)) + {last};
      if last in Distinct(init) {
        assert last in Elems(Distinct(init));
      }
    }
  }

  lemma {:induction false} DistinctNoDup<T>(s: seq<T>)
    ensures NoDup(Distinct(s))
  {
    if s != [] {
      DistinctNoDup(s[..|s| - 1]);
    }
  }
}
