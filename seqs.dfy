/** Order-preserving selection, element-wise mapping and concatenation of sequences. */
module Seqs {

  /** The elements of `s` that satisfy `p`, in their original order. */
  function Filter<T>(s: seq<T>, p: T -> bool): (r: seq<T>)
    ensures |r| <= |s|
    decreases |s|
  {
    if s == [] then []
    else Filter(s[..|s| - 1], p) + (if p(s[|s| - 1]) then [s[|s| - 1]] else [])
  }

  /** The positions of the elements of `s` that satisfy `p`, in increasing order. */
  function Positions<T>(s: seq<T>, p: T -> bool): seq<nat>
    decreases |s|
  {
    if s == [] then []
    else Positions(s[..|s| - 1], p) + (if p(s[|s| - 1]) then [|s| - 1] else [])
  }

  /** `f` applied to every element of `s`. */
  function Map<T, U>(s: seq<T>, f: T -> U): (r: seq<U>)
    ensures |r| == |s|
    ensures forall i :: 0 <= i < |s| ==> r[i] == f(s[i])
  {
    seq(|s|, i requires 0 <= i < |s| => f(s[i]))
  }

  /** The concatenation of all sequences in `ss`, in order. */
  function Flatten<T>(ss: seq<seq<T>>): seq<T>
    decreases |ss|
  {
    if ss == [] then [] else Flatten(ss[..|ss| - 1]) + ss[|ss| - 1]
  }

  /** The longest prefix of `s` with at most `n` elements. */
  function Take<T>(s: seq<T>, n: nat): (r: seq<T>)
    ensures |r| <= n && |r| <= |s| && r == s[..|r|]
    ensures |s| <= n ==> r == s
    ensures |s| > n ==> |r| == n
  {
    if |s| <= n then s else s[..n]
  }

  lemma FilterSnoc<T>(s: seq<T>, i: nat, p: T -> bool)
    requires i < |s|
    ensures Filter(s[..i + 1], p) == Filter(s[..i], p) + (if p(s[i]) then [s[i]] else [])
  {
    assert s[..i + 1][..i] == s[..i];
  }

  lemma {:induction false} FilterAppend<T>(a: seq<T>, b: seq<T>, p: T -> bool)
    ensures Filter(a + b, p) == Filter(a, p) + Filter(b, p)
    decreases |b|
  {
    if b == [] {
      assert a + b == a;
    } else {
      var b' := b[..|b| - 1];
      assert (a + b)[..|a + b| - 1] == a + b';
      FilterAppend(a, b', p);
    }
  }

  /**
   * Filter(s, p) is exactly the subsequence of `s` at the strictly increasing
   * positions Positions(s, p), and those are all and only the positions whose
   * element satisfies `p`.
   */
  lemma {:induction false} FilterAtPositions<T>(s: seq<T>, p: T -> bool)
    ensures |Positions(s, p)| == |Filter(s, p)|
    ensures forall j :: 0 <= j < |Positions(s, p)| ==>
      Positions(s, p)[j] < |s| && p(s[Positions(s, p)[j]]) && Filter(s, p)[j] == s[Positions(s, p)[j]]
    ensures forall j, k :: 0 <= j < k < |Positions(s, p)| ==> Positions(s, p)[j] < Positions(s, p)[k]
    ensures forall i :: 0 <= i < |s| && p(s[i]) ==> i in Positions(s, p)
    decreases |s|
  {
    if s != [] {
      var s' := s[..|s| - 1];
      var last := |s| - 1;
      FilterAtPositions(s', p);
      assert Positions(s, p) == Positions(s', p) + (if p(s[last]) then [last] else []);
      assert Filter(s, p) == Filter(s', p) + (if p(s[last]) then [s[last]] else []);
      assert forall i :: 0 <= i < |s'| ==> s'[i] == s[i];
    }
  }

  lemma FilterMembers<T>(s: seq<T>, p: T -> bool)
    ensures forall x :: x in Filter(s, p) <==> x in s && p(x)
  {
    FilterAtPositions(s, p);
    forall x | x in s && p(x)
      ensures x in Filter(s, p)
    {
      var i :| 0 <= i < |s| && s[i] == x;
      var pos := Positions(s, p);
      var j :| 0 <= j < |pos| && pos[j] == i;
      assert Filter(s, p)[j] == x;
    }
  }

  /** A relation that holds between every earlier and later element of `s` still does after filtering. */
  lemma FilterKeepsOrder<T>(s: seq<T>, p: T -> bool, before: (T, T) -> bool)
    requires forall i, j :: 0 <= i < j < |s| ==> before(s[i], s[j])
    ensures forall i, j :: 0 <= i < j < |Filter(s, p)| ==> before(Filter(s, p)[i], Filter(s, p)[j])
  {
    FilterAtPositions(s, p);
  }

  /** Selecting and then mapping keeps the image of every selected element, and only those. */
  lemma MapFilterMembers<T, U>(s: seq<T>, p: T -> bool, f: T -> U)
    ensures forall x :: x in s && p(x) ==> f(x) in Map(Filter(s, p), f)
    ensures forall y :: y in Map(Filter(s, p), f) ==> exists x :: x in s && p(x) && y == f(x)
  {
    var sel := Filter(s, p);
    FilterMembers(s, p);
    forall x | x in s && p(x)
      ensures f(x) in Map(sel, f)
    {
      var j :| 0 <= j < |sel| && sel[j] == x;
      assert Map(sel, f)[j] == f(x);
    }
    forall y | y in Map(sel, f)
      ensures exists x :: x in s && p(x) && y == f(x)
    {
      var j :| 0 <= j < |sel| && Map(sel, f)[j] == y;
      assert sel[j] in sel;
    }
  }

  lemma MapAppend<T, U>(a: seq<T>, b: seq<T>, f: T -> U)
    ensures Map(a + b, f) == Map(a, f) + Map(b, f)
  {
  }
}
