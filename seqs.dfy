/** `Array.prototype.filter` and the order-preserving subsequence relation it produces. */
module Seqs {

  /** `a` is obtained from `b` by deleting elements, keeping the order of the rest. */
  predicate IsSubsequence<T(==)>(a: seq<T>, b: seq<T>)
    decreases |b|
  {
    if a == [] then true
    else if b == [] then false
    else if a[0] == b[0] then IsSubsequence(a[1..], b[1..])
    else IsSubsequence(a, b[1..])
  }

  /** `s.filter(p)`: the elements of `s` that satisfy `p`, in their original order. */
  function Filter<T(==,!new)>(s: seq<T>, p: T -> bool): (r: seq<T>)
    ensures IsSubsequence(r, s)
    ensures forall x :: x in r <==> x in s && p(x)
    ensures |r| <= |s|
    ensures |r| == |s| <==> forall x :: x in s ==> p(x)
    ensures |r| == |s| ==> r == s
    ensures r == [] <==> forall x :: x in s ==> !p(x)
    decreases |s|
  {
    if s == [] then []
    else
      var rest := Filter(s[1..], p);
      assert s == [s[0]] + s[1..];
      if p(s[0]) then
        assert IsSubsequence([s[0]] + rest, s) by {
          assert ([s[0]] + rest)[1..] == rest;
        }
        [s[0]] + rest
      else
        IsSubsequenceDropHead(rest, s);
        rest
  }

  lemma {:induction false} IsSubsequenceDropHead<T>(a: seq<T>, b: seq<T>)
    requires b != [] && IsSubsequence(a, b[1..])
    ensures IsSubsequence(a, b)
    decreases |b|, 0
  {
    if a != [] && a[0] == b[0] {
      IsSubsequenceTail(a, b[1..]);
    }
  }

  lemma {:induction false} IsSubsequenceTail<T>(a: seq<T>, b: seq<T>)
    requires a != [] && IsSubsequence(a, b)
    ensures IsSubsequence(a[1..], b)
    decreases |b|, 1
  {
    assert b != [];
    if a[0] == b[0] {
      if a[1..] != [] {
        IsSubsequenceDropHead(a[1..], b);
      }
    } else {
      IsSubsequenceTail(a, b[1..]);
      if a[1..] != [] {
        IsSubsequenceDropHead(a[1..], b);
      }
    }
  }

  /** `Filter` keeps every passing element as often as it occurs, and no other element. */
  lemma {:induction false} FilterMultiset<T(!new)>(s: seq<T>, p: T -> bool)
    ensures forall x :: multiset(Filter(s, p))[x] == if p(x) then multiset(s)[x] else 0
    decreases |s|
  {
    if s != [] {
      FilterMultiset(s[1..], p);
      assert s == [s[0]] + s[1..];
    }
  }

  /** `Filter` of a sequence with a given first element. */
  lemma FilterCons<T(!new)>(x: T, s: seq<T>, p: T -> bool)
    ensures Filter([x] + s, p) == if p(x) then [x] + Filter(s, p) else Filter(s, p)
  {
    assert ([x] + s)[1..] == s;
  }

  /** Filtering distributes over concatenation. */
  lemma {:induction false} FilterAppend<T(!new)>(a: seq<T>, b: seq<T>, p: T -> bool)
    ensures Filter(a + b, p) == Filter(a, p) + Filter(b, p)
    decreases |a|
  {
    if a == [] {
      assert a + b == b;
    } else {
      var x, rest := a[0], a[1..];
      calc {
        Filter(a + b, p);
        { assert a + b == [x] + (rest + b); }
        Filter([x] + (rest + b), p);
        { FilterCons(x, rest + b, p); }
        if p(x) then [x] + Filter(rest + b, p) else Filter(rest + b, p);
        { FilterAppend(rest, b, p); }
        if p(x) then [x] + (Filter(rest, p) + Filter(b, p)) else Filter(rest, p) + Filter(b, p);
        (if p(x) then [x] + Filter(rest, p) else Filter(rest, p)) + Filter(b, p);
        { assert a == [x] + rest; FilterCons(x, rest, p); }
        Filter(a, p) + Filter(b, p);
      }
    }
  }
}
