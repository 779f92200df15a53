/** Concatenating the lists a function produces for the elements of a
    sequence: the shape shared by the parse pass (each line yields zero or
    one instruction) and the encode pass (each instruction yields its words). */
module Sequences {

  function FlatMap<T, U>(f: T --> seq<U>, s: seq<T>): (r: seq<U>)
    requires forall k :: 0 <= k < |s| ==> f.requires(s[k])
  {
    if s == [] then [] else FlatMap(f, s[..|s| - 1]) + f(s[|s| - 1])
  }

  lemma FlatMapStep<T, U>(f: T --> seq<U>, s: seq<T>, i: nat)
    requires i < |s|
    requires forall k :: 0 <= k < |s| ==> f.requires(s[k])
    ensures FlatMap(f, s[..i + 1]) == FlatMap(f, s[..i]) + f(s[i])
  {
    assert s[..i + 1][..i] == s[..i];
  }

  lemma {:induction false} FlatMapAppend<T, U>(f: T --> seq<U>, a: seq<T>, b: seq<T>)
    requires forall k :: 0 <= k < |a| ==> f.requires(a[k])
    requires forall k :: 0 <= k < |b| ==> f.requires(b[k])
    ensures forall k :: 0 <= k < |a + b| ==> f.requires((a + b)[k])
    ensures FlatMap(f, a + b) == FlatMap(f, a) + FlatMap(f, b)
  {
    if b == [] {
      assert a + b == a;
    } else {
      var ab := a + b;
      var b' := b[..|b| - 1];
      assert ab[..|ab| - 1] == a + b';
      assert ab[|ab| - 1] == b[|b| - 1];
      FlatMapAppend(f, a, b');
    }
  }
}
