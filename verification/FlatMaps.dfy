/** Sequences built by replacing each element by a sequence. */
module FlatMaps {

  function FlatMap<A, B>(s: seq<A>, g: A -> seq<B>): seq<B> {
    if s == [] then [] else FlatMap(s[..|s| - 1], g) + g(s[|s| - 1])
  }

  lemma FlatMapOne<A, B>(s: seq<A>, x: A, g: A -> seq<B>)
    ensures FlatMap(s + [x], g) == FlatMap(s, g) + g(x)
  {
    assert (s + [x])[..|s|] == s;
  }

  lemma FlatMapNone<A, B>(g: A -> seq<B>)
    ensures FlatMap([], g) == []
  {
  }

  lemma {:induction false} FlatMapConcat<A, B>(s: seq<A>, t: seq<A>, g: A -> seq<B>)
    ensures FlatMap(s + t, g) == FlatMap(s, g) + FlatMap(t, g)
  {
    hide FlatMap;
    if t == [] {
      FlatMapNone(g);
      assert s + t == s && FlatMap(s, g) + [] == FlatMap(s, g);
    } else {
      var t', x := t[..|t| - 1], t[|t| - 1];
      FlatMapConcat(s, t', g);
      assert s + t == (s + t') + [x] && t == t' + [x];
      FlatMapOne(s + t', x, g);
      FlatMapOne(t', x, g);
      assert (FlatMap(s, g) + FlatMap(t', g)) + g(x) == FlatMap(s, g) + (FlatMap(t', g) + g(x));
    }
  }

  lemma TakeOut<A>(t: seq<A>, x: A) returns (before: seq<A>, after: seq<A>)
    requires x in t
    ensures t == (before + [x]) + after
    ensures multiset(t) == multiset(before + after) + multiset{x}
  {
    var i :| 0 <= i < |t| && t[i] == x;
    before, after := t[..i], t[i + 1..];
    assert t == (before + [x]) + after;
  }

  lemma FlatMapInserted<A, B>(before: seq<A>, x: A, after: seq<A>, g: A -> seq<B>)
    ensures multiset(FlatMap((before + [x]) + after, g)) == multiset(FlatMap(before + after, g)) + multiset(g(x))
  {
    hide FlatMap;
    FlatMapConcat(before, after, g);
    FlatMapConcat(before + [x], after, g);
    FlatMapOne(before, x, g);
  }

  /** Reordering the input only reorders the output. */
  lemma {:induction false} FlatMapPermutes<A, B>(s: seq<A>, t: seq<A>, g: A -> seq<B>)
    requires multiset(s) == multiset(t)
    ensures multiset(FlatMap(s, g)) == multiset(FlatMap(t, g))
    decreases |s|
  {
    hide FlatMap;
    if s == [] {
      assert |multiset(t)| == 0;
    } else {
      var s', x := s[..|s| - 1], s[|s| - 1];
      assert s == s' + [x];
      assert x in multiset(t);
      var before, after := TakeOut(t, x);
      assert multiset(s') == multiset(s) - multiset{x} == multiset(before + after);
      FlatMapPermutes(s', before + after, g);
      FlatMapOne(s', x, g);
      FlatMapInserted(before, x, after, g);
    }
  }

  lemma {:induction false} FlatMapMember<A, B>(s: seq<A>, g: A -> seq<B>, y: B)
    ensures y in FlatMap(s, g) <==> exists i :: 0 <= i < |s| && y in g(s[i])
  {
    if s != [] {
      FlatMapMember(s[..|s| - 1], g, y);
    }
  }
}
