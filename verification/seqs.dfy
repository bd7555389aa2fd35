/** Sequences as multisets: mapping a function over a sequence, and why
    the result of the mapping depends on its input only up to order. */
module Seqs {
  /** `f` applied to every element, in order. */
  function MapSeq<A, B>(f: A --> B, s: seq<A>): (r: seq<B>)
    requires forall x :: x in s ==> f.requires(x)
    ensures |r| == |s|
    ensures forall i :: 0 <= i < |s| ==> r[i] == f(s[i])
  {
    if |s| == 0 then [] else [f(s[0])] + MapSeq(f, s[1..])
  }

  /** A sequence is what lies before position `j`, the element there, and
      what lies after. */
  lemma SplitAt<T>(s: seq<T>, j: nat)
    requires j < |s|
    ensures s == s[..j] + ([s[j]] + s[j + 1..])
    ensures multiset(s) == multiset(s[..j] + s[j + 1..]) + multiset{s[j]}
  {
    assert s == s[..j] + ([s[j]] + s[j + 1..]);
    assert multiset(s) == multiset(s[..j]) + multiset{s[j]} + multiset(s[j + 1..]);
  }

  /** The position of `a[0]` in a permutation `b` of `a`; removing it from
      `b` leaves a permutation of the rest of `a`. */
  lemma PickFirst<T>(a: seq<T>, b: seq<T>) returns (j: nat)
    requires multiset(a) == multiset(b) && |a| > 0
    ensures j < |b| && b[j] == a[0]
    ensures multiset(a[1..]) == multiset(b[..j] + b[j + 1..])
  {
    assert a[0] in multiset(b);
    j :| 0 <= j < |b| && b[j] == a[0];
    assert a == [a[0]] + a[1..];
    assert multiset(a) == multiset{a[0]} + multiset(a[1..]);
    var rest := b[..j] + b[j + 1..];
    SplitAt(b, j);
    forall y
      ensures multiset(a[1..])[y] == multiset(rest)[y]
    {
      assert multiset(a)[y] == multiset{a[0]}[y] + multiset(a[1..])[y];
      assert multiset(b)[y] == multiset{a[0]}[y] + multiset(rest)[y];
    }
  }

  lemma MapSeqAppend<A, B>(f: A --> B, a: seq<A>, b: seq<A>)
    requires forall x :: x in a ==> f.requires(x)
    requires forall x :: x in b ==> f.requires(x)
    ensures forall x :: x in a + b ==> f.requires(x)
    ensures MapSeq(f, a + b) == MapSeq(f, a) + MapSeq(f, b)
  {
    var ab := a + b;
    assert forall i :: 0 <= i < |ab| ==> ab[i] == if i < |a| then a[i] else b[i - |a|];
  }

  /** Taking one element out of the input takes its image out of the
      output. */
  lemma MapSeqRemove<A, B>(f: A --> B, b: seq<A>, j: nat)
    requires forall x :: x in b ==> f.requires(x)
    requires j < |b|
    ensures forall x :: x in b[..j] + b[j + 1..] ==> f.requires(x)
    ensures multiset(MapSeq(f, b)) == multiset(MapSeq(f, b[..j] + b[j + 1..])) + multiset{f(b[j])}
  {
    MapSeqAround(f, b, j);
    MultisetMiddle(MapSeq(f, b[..j]), f(b[j]), MapSeq(f, b[j + 1..]));
  }

  /** The image of a sequence around position `j`, with and without the
      element there. */
  lemma MapSeqAround<A, B>(f: A --> B, b: seq<A>, j: nat)
    requires forall x :: x in b ==> f.requires(x)
    requires j < |b|
    ensures forall x :: x in b[..j] ==> f.requires(x)
    ensures forall x :: x in b[j + 1..] ==> f.requires(x)
    ensures forall x :: x in b[..j] + b[j + 1..] ==> f.requires(x)
    ensures MapSeq(f, b) == MapSeq(f, b[..j]) + ([f(b[j])] + MapSeq(f, b[j + 1..]))
    ensures MapSeq(f, b[..j] + b[j + 1..]) == MapSeq(f, b[..j]) + MapSeq(f, b[j + 1..])
  {
    var b1, b2 := b[..j], b[j + 1..];
    SplitAt(b, j);
    assert forall x :: x in b1 || x in b2 ==> x in b;
    MapSeqAppend(f, b1, b2);
    MapSeqAppend(f, [b[j]], b2);
    MapSeqAppend(f, b1, [b[j]] + b2);
    assert MapSeq(f, [b[j]]) == [f(b[j])];
  }

  lemma MultisetMiddle<T>(a: seq<T>, y: T, c: seq<T>)
    ensures multiset(a + ([y] + c)) == multiset(a + c) + multiset{y}
  {
  }

  /** Permuting the input permutes the output. */
  lemma {:induction false} MapSeqPermutation<A, B>(f: A --> B, a: seq<A>, b: seq<A>)
    requires multiset(a) == multiset(b)
    requires forall x :: x in a ==> f.requires(x)
    ensures forall x :: x in b ==> f.requires(x)
    ensures multiset(MapSeq(f, a)) == multiset(MapSeq(f, b))
    decreases |a|
  {
    assert forall x :: x in b ==> x in multiset(a);
    if |a| == 0 {
      assert |b| == |multiset(b)| == 0;
    } else {
      var j := PickFirst(a, b);
      MapSeqRemove(f, b, j);
      MapSeqPermutation(f, a[1..], b[..j] + b[j + 1..]);
      assert MapSeq(f, a) == [f(a[0])] + MapSeq(f, a[1..]);
    }
  }
}
