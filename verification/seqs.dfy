/** Order-preserving filtering and counting over sequences, with the facts the
    statistics and the membership record rely on: filtering distributes over
    concatenation and a permutation of the input permutes the output. */
module Seqs {
  import opened Optional

  /** `s.filter(...).map(...)` in one step: keeps, in order, the image of every
      element that `f` maps to `Some`. */
  function FilterMap<T, U>(s: seq<T>, f: T -> Option<U>): (r: seq<U>)
    ensures |r| <= |s|
    decreases |s|
  {
    if |s| == 0 then []
    else
      var rest := FilterMap(s[1..], f);
      match f(s[0])
      case Some(y) => [y] + rest
      case None => rest
  }

  /** `s.filter(p)`. */
  function Filter<T>(s: seq<T>, p: T -> bool): (r: seq<T>)
    ensures |r| <= |s|
  {
    FilterMap(s, x => if p(x) then Some(x) else None)
  }

  /** The number of elements of `s` satisfying `p`. */
  function Count<T>(s: seq<T>, p: T -> bool): (n: nat)
    ensures n <= |s|
  {
    |Filter(s, p)|
  }

  /** What `FilterMap` keeps: exactly the images of the elements mapped to `Some`. */
  lemma {:induction false} FilterMapMembers<T, U>(s: seq<T>, f: T -> Option<U>)
    ensures forall y | y in FilterMap(s, f) :: exists x :: x in s && f(x) == Some(y)
    ensures forall x | x in s && f(x).Some? :: f(x).value in FilterMap(s, f)
    decreases |s|
  {
    if |s| != 0 {
      FilterMapMembers(s[1..], f);
      assert forall x :: x in s[1..] ==> x in s;
      assert forall x | x in s :: x == s[0] || x in s[1..];
    }
  }

  /** What `Filter` keeps: exactly the elements satisfying `p`. */
  lemma FilterMembers<T>(s: seq<T>, p: T -> bool)
    ensures forall x | x in Filter(s, p) :: x in s && p(x)
    ensures forall x | x in s && p(x) :: x in Filter(s, p)
  {
    var f := x => if p(x) then Some(x) else None;
    FilterMapMembers(s, f);
    assert forall x | x in s && p(x) :: f(x) == Some(x);
  }

  lemma {:induction false} FilterMapAppend<T, U>(a: seq<T>, b: seq<T>, f: T -> Option<U>)
    ensures FilterMap(a + b, f) == FilterMap(a, f) + FilterMap(b, f)
    decreases |a|
  {
    if |a| == 0 {
      assert a + b == b;
    } else {
      assert (a + b)[1..] == a[1..] + b;
      FilterMapAppend(a[1..], b, f);
    }
  }

  /** Reordering the input only reorders the output. */
  lemma {:induction false} FilterMapPermutation<T, U>(a: seq<T>, b: seq<T>, f: T -> Option<U>)
    requires multiset(a) == multiset(b)
    ensures multiset(FilterMap(a, f)) == multiset(FilterMap(b, f))
    decreases |a|
  {
    if |a| == 0 {
      assert |b| == |multiset(b)| == 0;
    } else {
      var x := a[0];
      assert x in multiset(b);
      var i :| 0 <= i < |b| && b[i] == x;
      var pre, post := b[..i], b[i + 1..];
      assert b == pre + ([x] + post);
      assert a == [x] + a[1..];
      RemoveMatching(a, b, i);
      FilterMapPermutation(a[1..], pre + post, f);
      FilterMapAppend([x], a[1..], f);
      FilterMapAppend(pre, [x] + post, f);
      FilterMapAppend([x], post, f);
      FilterMapAppend(pre, post, f);
      Regroup(FilterMap([x], f), FilterMap(a[1..], f), FilterMap(pre, f), FilterMap(post, f));
    }
  }

  /** Moving a block from the front into the middle keeps the multiset. */
  lemma Regroup<U>(mid: seq<U>, rest: seq<U>, front: seq<U>, back: seq<U>)
    requires multiset(rest) == multiset(front + back)
    ensures multiset(mid + rest) == multiset(front + (mid + back))
  {
  }

  /** Dropping the first element of `a` and a matching element of `b` keeps
      the two sequences permutations of each other. */
  lemma RemoveMatching<T>(a: seq<T>, b: seq<T>, i: nat)
    requires multiset(a) == multiset(b)
    requires 0 < |a| && i < |b| && b[i] == a[0]
    ensures multiset(a[1..]) == multiset(b[..i] + b[i + 1..])
  {
    var x, b' := a[0], b[..i] + b[i + 1..];
    assert b == b[..i] + [x] + b[i + 1..];
    assert a == [x] + a[1..];
    assert multiset(b) == multiset{x} + multiset(b');
    forall y ensures multiset(a[1..])[y] == multiset(b')[y] {
      assert (multiset{x} + multiset(a[1..]))[y] == (multiset{x} + multiset(b'))[y];
    }
  }

  /** Two permutations with the same first element stay permutations without it. */
  lemma RemoveHeads<T>(a: seq<T>, b: seq<T>)
    requires multiset(a) == multiset(b)
    requires 0 < |a| && 0 < |b| && a[0] == b[0]
    ensures multiset(a[1..]) == multiset(b[1..])
  {
    assert a == [a[0]] + a[1..] && b == [b[0]] + b[1..];
    forall y ensures multiset(a[1..])[y] == multiset(b[1..])[y] {
      assert (multiset{a[0]} + multiset(a[1..]))[y] == (multiset{b[0]} + multiset(b[1..]))[y];
    }
  }

  lemma CountAppend<T>(a: seq<T>, b: seq<T>, p: T -> bool)
    ensures Count(a + b, p) == Count(a, p) + Count(b, p)
  {
    FilterMapAppend(a, b, x => if p(x) then Some(x) else None);
  }

  lemma CountPermutation<T>(a: seq<T>, b: seq<T>, p: T -> bool)
    requires multiset(a) == multiset(b)
    ensures Count(a, p) == Count(b, p)
  {
    var f := x => if p(x) then Some(x) else None;
    FilterMapPermutation(a, b, f);
    assert |multiset(FilterMap(a, f))| == |multiset(FilterMap(b, f))|;
  }

  /** When every element satisfies `p`, filtering keeps the whole sequence. */
  lemma {:induction false} FilterAll<T>(s: seq<T>, p: T -> bool)
    requires forall x :: x in s ==> p(x)
    ensures Filter(s, p) == s
    decreases |s|
  {
    if |s| != 0 {
      FilterAll(s[1..], p);
    }
  }

  /** When no element satisfies `p`, filtering keeps nothing. */
  lemma {:induction false} FilterNone<T>(s: seq<T>, p: T -> bool)
    requires forall x :: x in s ==> !p(x)
    ensures Filter(s, p) == []
    decreases |s|
  {
    if |s| != 0 {
      FilterNone(s[1..], p);
    }
  }

  /** Counting with a weaker predicate never counts fewer elements. */
  lemma {:induction false} CountMonotonic<T>(s: seq<T>, p: T -> bool, q: T -> bool)
    requires forall x :: x in s && p(x) ==> q(x)
    ensures Count(s, p) <= Count(s, q)
    decreases |s|
  {
    if |s| != 0 {
      CountMonotonic(s[1..], p, q);
      assert s == [s[0]] + s[1..];
      CountAppend([s[0]], s[1..], p);
      CountAppend([s[0]], s[1..], q);
    }
  }

  /** Elements satisfying `p` plus those satisfying its negation make up the whole. */
  lemma {:induction false} CountComplement<T>(s: seq<T>, p: T -> bool, q: T -> bool)
    requires forall x :: x in s ==> q(x) == !p(x)
    ensures Count(s, p) + Count(s, q) == |s|
    decreases |s|
  {
    if |s| != 0 {
      CountComplement(s[1..], p, q);
      assert s == [s[0]] + s[1..];
      CountAppend([s[0]], s[1..], p);
      CountAppend([s[0]], s[1..], q);
    }
  }

  lemma FilterAppend<T>(a: seq<T>, b: seq<T>, p: T -> bool)
    ensures Filter(a + b, p) == Filter(a, p) + Filter(b, p)
  {
    FilterMapAppend(a, b, x => if p(x) then Some(x) else None);
  }

  /** `FilterMap` keeps one image per element that `f` maps to `Some`, so
      duplicates survive. */
  lemma {:induction false} FilterMapCount<T, U>(s: seq<T>, f: T -> Option<U>, p: T -> bool)
    requires forall x :: x in s ==> p(x) == f(x).Some?
    ensures |FilterMap(s, f)| == Count(s, p)
    decreases |s|
  {
    if |s| != 0 {
      FilterMapCount(s[1..], f, p);
      assert s == [s[0]] + s[1..];
      CountAppend([s[0]], s[1..], p);
      FilterMapAppend([s[0]], s[1..], f);
    }
  }
}
