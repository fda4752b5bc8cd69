/** Helpers over lists of platform ids (strings) shared by the giveaway and ticket models:
    distinctness, and the two `Array.prototype.filter` shapes the source uses. */
module Sequences {

  /** No element occurs twice. */
  ghost predicate Distinct(s: seq<string>) {
    forall x :: multiset(s)[x] <= 1
  }

  /** `s.filter(y => y !== x)`: every occurrence of `x` removed, order kept. */
  function Without(s: seq<string>, x: string): (r: seq<string>)
    ensures forall y :: y in r <==> y in s && y != x
    ensures multiset(r) <= multiset(s)
    ensures multiset(r)[x] == 0
    ensures forall y :: y != x ==> multiset(r)[y] == multiset(s)[y]
  {
    if s == [] then []
    else
      assert s == [s[0]] + s[1..];
      (if s[0] == x then [] else [s[0]]) + Without(s[1..], x)
  }

  /** `s.filter(y => !xs.includes(y))`: every element that occurs in `xs` removed, order kept. */
  function Excluding(s: seq<string>, xs: seq<string>): (r: seq<string>)
    ensures forall y :: y in r <==> y in s && y !in xs
    ensures multiset(r) <= multiset(s)
    ensures forall y :: y !in xs ==> multiset(r)[y] == multiset(s)[y]
  {
    if s == [] then []
    else
      assert s == [s[0]] + s[1..];
      (if s[0] in xs then [] else [s[0]]) + Excluding(s[1..], xs)
  }

  /** A sub-multiset of a distinct sequence is distinct. */
  lemma DistinctSub(r: seq<string>, s: seq<string>)
    requires Distinct(s) && multiset(r) <= multiset(s)
    ensures Distinct(r)
  {
    forall x ensures multiset(r)[x] <= 1 {
      assert multiset(r)[x] <= multiset(s)[x];
    }
  }

  /** A distinct sequence has as many elements as its set of elements. */
  lemma {:induction false} DistinctCard(s: seq<string>)
    requires Distinct(s)
    ensures |set x | x in s| == |s|
  {
    if s != [] {
      var t := s[1..];
      assert s == [s[0]] + t;
      assert multiset(s) == multiset{s[0]} + multiset(t);
      forall x ensures multiset(t)[x] <= 1 {
        assert multiset(t)[x] <= multiset(s)[x];
      }
      DistinctCard(t);
      assert multiset(s)[s[0]] == 1 + multiset(t)[s[0]];
      assert (set x | x in s) == {s[0]} + (set x | x in t);
    }
  }

  /** Removing from a distinct pool every element of a distinct list drawn from it
      leaves exactly the difference in size. */
  lemma ExcludingCard(p: seq<string>, w: seq<string>)
    requires Distinct(p) && Distinct(w)
    requires forall x :: x in w ==> x in p
    ensures |Excluding(p, w)| == |p| - |w|
  {
    var e := Excluding(p, w);
    DistinctSub(e, p);
    DistinctCard(p);
    DistinctCard(w);
    DistinctCard(e);
    var sp, sw, se := set x | x in p, set x | x in w, set x | x in e;
    assert se == sp - sw;
    assert sw <= sp;
    assert |sp - sw| == |sp| - |sw| by {
      assert sp == (sp - sw) + sw;
    }
  }
}
