/** The ordering the registry imposes on a function's points: ascending by
    abscissa, ties in either order (the comparator used by addFunction). */
module Sorting {
  import opened Common

  /** The comparator: -1, 0 or 1 as p's abscissa is below, equal to or
      above q's. */
  function CompareX(p: Point, q: Point): (c: int)
    ensures c == -1 || c == 0 || c == 1
    ensures (c < 0 <==> p.x < q.x) && (c == 0 <==> p.x == q.x) && (c > 0 <==> p.x > q.x)
  {
    var d := p.x - q.x;
    if d > 0.0 then 1 else if d < 0.0 then -1 else 0
  }

  ghost predicate SortedByX(s: seq<Point>) {
    forall k, l :: 0 <= k < l < |s| ==> s[k].x <= s[l].x
  }

  ghost predicate StrictlyAscendingX(s: seq<Point>) {
    forall k, l :: 0 <= k < l < |s| ==> s[k].x < s[l].x
  }

  /** Sorts a in place by abscissa; a is a permutation of what it held. */
  method SortByX(a: array<Point>)
    modifies a
    ensures SortedByX(a[..])
    ensures multiset(a[..]) == old(multiset(a[..]))
  {
    var i := 0;
    while i < a.Length
      invariant 0 <= i <= a.Length
      invariant SortedByX(a[..i])
      invariant multiset(a[..]) == old(multiset(a[..]))
    {
      InsertLast(a, i);
      i := i + 1;
    }
    assert a[..a.Length] == a[..];
  }

  /** Moves a[i] left past every larger abscissa, so that a[..i+1] is a
      sorted permutation of what it held; the entries after i are untouched. */
  method InsertLast(a: array<Point>, i: nat)
    requires i < a.Length && SortedByX(a[..i])
    modifies a
    ensures SortedByX(a[..i + 1])
    ensures multiset(a[..i + 1]) == old(multiset(a[..i + 1]))
    ensures a[i + 1..] == old(a[i + 1..])
    ensures multiset(a[..]) == old(multiset(a[..]))
  {
    ghost var before := a[..];
    var j := i;
    InsertingStart(before, i);
    while j > 0 && CompareX(a[j - 1], a[j]) > 0
      invariant 0 <= j <= i
      invariant Inserting(a[..], before, j, i)
    {
      ghost var s := a[..];
      Swap(a, j - 1, j);
      InsertingStep(s, before, j, i);
      j := j - 1;
    }
    InsertingDone(a[..], before, j, i);
  }

  /** The state of an insertion into before[..i+1]: a permutation of before
      that keeps everything after i, whose prefix up to i is in order except
      for the entry at j. */
  ghost predicate Inserting(s: seq<Point>, before: seq<Point>, j: nat, i: nat) {
    && j <= i < |s| == |before|
    && multiset(s) == multiset(before)
    && (forall k :: i < k < |s| ==> s[k] == before[k])
    && InsertionOrder(s, j, i)
  }

  /** s[..i+1] is sorted except that the entry at j may be out of place to
      the left; nothing after j is below it. */
  ghost predicate InsertionOrder(s: seq<Point>, j: nat, i: nat)
    requires j <= i < |s|
  {
    && (forall k, l :: 0 <= k < l <= i && k != j && l != j ==> s[k].x <= s[l].x)
    && (forall l :: j < l <= i ==> s[j].x <= s[l].x)
  }

  lemma InsertingStart(s: seq<Point>, i: nat)
    requires i < |s| && SortedByX(s[..i])
    ensures Inserting(s, s, i, i)
  {
    forall k, l | 0 <= k < l <= i && k != i && l != i ensures s[k].x <= s[l].x {
      assert s[k] == s[..i][k] && s[l] == s[..i][l];
    }
  }

  /** Swapping the moving entry with a larger left neighbour moves it one
      place left. */
  lemma InsertingStep(s: seq<Point>, before: seq<Point>, j: nat, i: nat)
    requires 0 < j && Inserting(s, before, j, i) && s[j - 1].x > s[j].x
    ensures Inserting(s[j - 1 := s[j]][j := s[j - 1]], before, j - 1, i)
  {
    var t := s[j - 1 := s[j]][j := s[j - 1]];
    assert multiset(t) == multiset(s);
    assert forall k :: i < k < |t| ==> t[k] == s[k];
    OrderStep(s, j, i);
  }

  lemma OrderStep(s: seq<Point>, j: nat, i: nat)
    requires 0 < j <= i < |s| && InsertionOrder(s, j, i) && s[j - 1].x > s[j].x
    ensures InsertionOrder(s[j - 1 := s[j]][j := s[j - 1]], j - 1, i)
  {
  }

  /** The moving entry has come to rest: the prefix is a sorted permutation
      of the old prefix, and the rest is as before. */
  lemma InsertingDone(s: seq<Point>, before: seq<Point>, j: nat, i: nat)
    requires Inserting(s, before, j, i)
    requires j == 0 || s[j - 1].x <= s[j].x
    ensures SortedByX(s[..i + 1])
    ensures multiset(s[..i + 1]) == multiset(before[..i + 1])
    ensures s[i + 1..] == before[i + 1..]
    ensures multiset(s) == multiset(before)
  {
    assert s[i + 1..] == before[i + 1..];
    PrefixPermutation(s, before, i + 1);
  }

  /** Two permutations of each other that agree after n agree up to n as
      multisets. */
  lemma PrefixPermutation(s: seq<Point>, t: seq<Point>, n: nat)
    requires n <= |s| && n <= |t| && multiset(s) == multiset(t) && s[n..] == t[n..]
    ensures multiset(s[..n]) == multiset(t[..n])
  {
    assert s == s[..n] + s[n..];
    assert t == t[..n] + t[n..];
    CancelRight(multiset(s[..n]), multiset(t[..n]), multiset(s[n..]));
  }

  lemma CancelRight(p: multiset<Point>, q: multiset<Point>, r: multiset<Point>)
    requires p + r == q + r
    ensures p == q
  {
    assert forall x :: p[x] == (p + r)[x] - r[x] == (q + r)[x] - r[x] == q[x];
  }

  method Swap(a: array<Point>, i: nat, j: nat)
    requires i < j < a.Length
    modifies a
    ensures a[..] == old(a[..])[i := old(a[j])][j := old(a[i])]
    ensures multiset(a[..]) == old(multiset(a[..]))
  {
    a[i], a[j] := a[j], a[i];
  }

  /** A sorted permutation of a strictly ascending sequence is that sequence:
      points that are already in strictly ascending order are left as they are. */
  lemma {:induction false} SortedPermutationOfStrict(a: seq<Point>, b: seq<Point>)
    requires StrictlyAscendingX(a) && SortedByX(b)
    requires multiset(a) == multiset(b)
    ensures a == b
    decreases |a|
  {
    assert |a| == |multiset(a)| == |multiset(b)| == |b|;
    if |a| > 0 {
      SameFirst(a, b);
      MultisetOfTail(a);
      MultisetOfTail(b);
      SortedPermutationOfStrict(a[1..], b[1..]);
      assert a == [a[0]] + a[1..] && b == [b[0]] + b[1..];
    }
  }

  /** Both start with the point of least abscissa. */
  lemma SameFirst(a: seq<Point>, b: seq<Point>)
    requires StrictlyAscendingX(a) && SortedByX(b)
    requires multiset(a) == multiset(b) && |a| > 0 && |b| > 0
    ensures a[0] == b[0]
  {
    assert b[0] in multiset(a);
    var j :| 0 <= j < |a| && a[j] == b[0];
    assert a[0] in multiset(b);
    var i :| 0 <= i < |b| && b[i] == a[0];
    assert b[0].x <= b[i].x;
    assert j == 0;
  }

  lemma MultisetOfTail(s: seq<Point>)
    requires |s| > 0
    ensures multiset(s[1..]) == multiset(s) - multiset{s[0]}
  {
    assert s == [s[0]] + s[1..];
    assert multiset(s) == multiset{s[0]} + multiset(s[1..]);
  }
}
