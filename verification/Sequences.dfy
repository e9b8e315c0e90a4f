/** Sequence facts the other modules share: mapping, totals that ignore order, and a stable sort. */
module Sequences {

  function Mapped<A, B>(f: A -> B, s: seq<A>): seq<B> {
    seq(|s|, i requires 0 <= i < |s| => f(s[i]))
  }

  lemma Associates<T>(a: seq<T>, b: seq<T>, c: seq<T>)
    ensures (a + b) + c == a + (b + c)
  {}

  lemma ConcatEmpty<T>(a: seq<T>)
    ensures a + [] == a && [] + a == a
  {}

  lemma MappedMembers<A, B>(f: A -> B, s: seq<A>)
    ensures forall y :: y in Mapped(f, s) ==> exists i :: 0 <= i < |s| && y == f(s[i])
  {
    forall y | y in Mapped(f, s) ensures exists i :: 0 <= i < |s| && y == f(s[i]) {
      var i :| 0 <= i < |Mapped(f, s)| && Mapped(f, s)[i] == y;
      assert y == f(s[i]);
    }
  }

  lemma MappedExtends<A, B>(f: A -> B, s: seq<A>, i: nat)
    requires i < |s|
    ensures Mapped(f, s[..i + 1]) == Mapped(f, s[..i]) + [f(s[i])]
  {}

  lemma MappedConcat<A, B>(f: A -> B, a: seq<A>, b: seq<A>)
    ensures Mapped(f, a + b) == Mapped(f, a) + Mapped(f, b)
  {}

  lemma MappedOne<A, B>(f: A -> B, x: A)
    ensures Mapped(f, [x]) == [f(x)]
  {}

  lemma MappedEqual<A, B, C>(f: A -> B, s: seq<A>, g: C -> B, t: seq<C>)
    requires |s| == |t| && forall i :: 0 <= i < |s| ==> f(s[i]) == g(t[i])
    ensures Mapped(f, s) == Mapped(g, t)
  {}

  lemma MappedHead<A, B>(f: A -> B, s: seq<A>)
    requires s != []
    ensures Mapped(f, s) == [f(s[0])] + Mapped(f, s[1..])
  {}

  /** Adds up `weight` over a sequence. */
  function Total<T>(weight: T -> int, s: seq<T>): int {
    if s == [] then 0 else Total(weight, s[..|s| - 1]) + weight(s[|s| - 1])
  }

  lemma {:induction false} TotalOfConcat<T>(weight: T -> int, a: seq<T>, b: seq<T>)
    ensures Total(weight, a + b) == Total(weight, a) + Total(weight, b)
  {
    if b == [] {
      assert a + b == a;
    } else {
      assert (a + b)[..|a + b| - 1] == a + b[..|b| - 1];
      TotalOfConcat(weight, a, b[..|b| - 1]);
    }
  }

  lemma TotalOfOne<T>(weight: T -> int, x: T)
    ensures Total(weight, [x]) == weight(x)
  {
    assert [x][..0] == [];
  }

  function OneOut<T>(s: seq<T>, i: nat): seq<T>
    requires i < |s|
  {
    s[..i] + s[i + 1..]
  }

  lemma TotalOfThree<T>(weight: T -> int, a: seq<T>, x: T, b: seq<T>)
    ensures Total(weight, a + [x] + b) == Total(weight, a + b) + weight(x)
  {
    TotalOfConcat(weight, a + [x], b);
    TotalOfConcat(weight, a, [x]);
    TotalOfConcat(weight, a, b);
    TotalOfOne(weight, x);
  }

  lemma CutAt<T>(s: seq<T>, i: nat)
    requires i < |s|
    ensures s == s[..i] + [s[i]] + s[i + 1..]
  {}

  /** Taking one element out. */
  lemma TotalWithout<T>(weight: T -> int, s: seq<T>, i: nat)
    requires i < |s|
    ensures Total(weight, s) == Total(weight, OneOut(s, i)) + weight(s[i])
  {
    CutAt(s, i);
    TotalOfThree(weight, s[..i], s[i], s[i + 1..]);
  }

  lemma MultisetWithout<T>(s: seq<T>, i: nat)
    requires i < |s|
    ensures multiset(OneOut(s, i)) == multiset(s) - multiset{s[i]}
  {
    CutAt(s, i);
  }

  /** A total depends on the elements only, not on their order. */
  lemma {:induction false} TotalIgnoresOrder<T>(weight: T -> int, a: seq<T>, b: seq<T>)
    requires multiset(a) == multiset(b)
    ensures Total(weight, a) == Total(weight, b)
    decreases |a|
  {
    if a == [] {
      assert |multiset(b)| == 0;
    } else {
      assert a[0] in multiset(b);
      var i :| 0 <= i < |b| && b[i] == a[0];
      MultisetWithout(a, 0);
      MultisetWithout(b, i);
      TotalWithout(weight, a, 0);
      TotalWithout(weight, b, i);
      TotalIgnoresOrder(weight, OneOut(a, 0), OneOut(b, i));
    }
  }

  /** Puts `x` before the first element that compares strictly greater. */
  function Insert<T>(compare: (T, T) -> int, x: T, s: seq<T>): seq<T> {
    if s == [] || compare(x, s[0]) < 0 then [x] + s else [s[0]] + Insert(compare, x, s[1..])
  }

  /** The stable sort that `Array.prototype.sort` performs. */
  function Sort<T>(compare: (T, T) -> int, s: seq<T>): seq<T> {
    if s == [] then [] else Insert(compare, s[|s| - 1], Sort(compare, s[..|s| - 1]))
  }

  lemma {:induction false} InsertAddsOne<T>(compare: (T, T) -> int, x: T, s: seq<T>)
    ensures multiset(Insert(compare, x, s)) == multiset(s) + multiset{x}
  {
    if s != [] && compare(x, s[0]) >= 0 {
      InsertAddsOne(compare, x, s[1..]);
      assert s == [s[0]] + s[1..];
    }
  }

  lemma {:induction false} SortPermutes<T>(compare: (T, T) -> int, s: seq<T>)
    ensures multiset(Sort(compare, s)) == multiset(s)
    ensures |Sort(compare, s)| == |s|
  {
    if s != [] {
      SortPermutes(compare, s[..|s| - 1]);
      InsertAddsOne(compare, s[|s| - 1], Sort(compare, s[..|s| - 1]));
      assert s == s[..|s| - 1] + [s[|s| - 1]];
    }
    assert |multiset(Sort(compare, s))| == |Sort(compare, s)| && |multiset(s)| == |s|;
  }

  /** `rank` is the first thing `compare` looks at. */
  ghost predicate Leads<T(!new)>(rank: T -> int, compare: (T, T) -> int) {
    forall a, b :: (rank(a) < rank(b) ==> compare(a, b) < 0) && (compare(a, b) < 0 ==> rank(a) <= rank(b))
  }

  /** The head of a sorted sequence has the least leading rank. */
  lemma {:induction false} SortHeadIsLeast<T(!new)>(rank: T -> int, compare: (T, T) -> int, s: seq<T>)
    requires s != [] && Leads(rank, compare)
    ensures Sort(compare, s) != [] && Sort(compare, s)[0] in s
    ensures forall x :: x in s ==> rank(Sort(compare, s)[0]) <= rank(x)
  {
    var front, last := s[..|s| - 1], s[|s| - 1];
    assert s == front + [last];
    if front != [] {
      SortHeadIsLeast(rank, compare, front);
      var sorted := Sort(compare, front);
      var head := Insert(compare, last, sorted)[0];
      assert if compare(last, sorted[0]) < 0 then head == last else head == sorted[0];
    }
  }
}
