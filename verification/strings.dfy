/** Character-level helpers on `string` (= `seq<char>`): trimming of ASCII
    white space, first-occurrence search, and splitting on a separator with
    its inverse, joining. They play the part of Go's `strings.TrimSpace`
    (restricted to ASCII white space), `strings.Index` and `strings.Split`. */
module Strings {
  import opened Results

  /** ASCII white space only: space, and the control characters tab
      through carriage return. The Unicode white space that
      `strings.TrimSpace` also removes (U+0085, U+00A0, U+2000 to U+200A
      and others) is not white space here. */
  predicate IsSpace(c: char) {
    c == ' ' || '\t' <= c <= '\r'
  }

  /** Drops leading white space. What it keeps is stated by TrimLeftSpec. */
  function TrimLeft(s: string): (r: string)
    ensures |r| <= |s|
    decreases |s|
  {
    if |s| > 0 && IsSpace(s[0]) then TrimLeft(s[1..]) else s
  }

  /** TrimLeft keeps a suffix, drops only white space, and stops at the
      first character that is not white space. */
  lemma {:induction false} TrimLeftSpec(s: string)
    ensures var r := TrimLeft(s);
      && r == s[|s| - |r|..]
      && (forall i :: 0 <= i < |s| - |r| ==> IsSpace(s[i]))
      && (r == [] || !IsSpace(r[0]))
    decreases |s|
  {
    if |s| > 0 && IsSpace(s[0]) {
      TrimLeftSpec(s[1..]);
    }
  }

  /** Drops trailing white space. What it keeps is stated by TrimRightSpec. */
  function TrimRight(s: string): (r: string)
    ensures |r| <= |s|
    decreases |s|
  {
    if |s| > 0 && IsSpace(s[|s| - 1]) then TrimRight(s[..|s| - 1]) else s
  }

  /** TrimRight keeps a prefix, drops only white space, and stops at the
      last character that is not white space. */
  lemma {:induction false} TrimRightSpec(s: string)
    ensures var r := TrimRight(s);
      && r == s[..|r|]
      && (forall i :: |r| <= i < |s| ==> IsSpace(s[i]))
      && (r == [] || !IsSpace(r[|r| - 1]))
    decreases |s|
  {
    if |s| > 0 && IsSpace(s[|s| - 1]) {
      TrimRightSpec(s[..|s| - 1]);
    }
  }

  /** Drops ASCII white space at both ends. */
  function Trim(s: string): (r: string)
  {
    TrimRight(TrimLeft(s))
  }

  /** A string that starts and ends with a non-space character is its own trim. */
  lemma TrimNoSpace(s: string)
    requires s != [] && !IsSpace(s[0]) && !IsSpace(s[|s| - 1])
    ensures Trim(s) == s
  {
    TrimLeftSpec(s);
    assert TrimLeft(s) == s;
    TrimRightSpec(s);
  }

  /** Position of the first occurrence of `c` in `s`, if any; IndexOfSpec
      states that it is the first. */
  function IndexOf(s: string, c: char): (r: Option<nat>)
    ensures r.Some? ==> r.value < |s|
  {
    if |s| == 0 then None
    else if s[0] == c then Some(0)
    else match IndexOf(s[1..], c)
      case None => None
      case Some(k) => Some(k + 1)
  }

  lemma {:induction false} IndexOfSpec(s: string, c: char)
    ensures var r := IndexOf(s, c);
      && (r.Some? ==> s[r.value] == c && c !in s[..r.value])
      && (r.None? <==> c !in s)
  {
    if |s| > 0 && s[0] != c {
      IndexOfSpec(s[1..], c);
      assert s == [s[0]] + s[1..];
      var r := IndexOf(s[1..], c);
      if r.Some? {
        assert s[..r.value + 1] == [s[0]] + s[1..][..r.value];
      }
    }
  }

  /** The pieces of `s` between occurrences of `sep`, like `strings.Split`:
      n separators give n + 1 pieces, empty pieces included. SplitSpec
      states that they hold no separator and join back to `s`. */
  function Split(s: string, sep: char): (r: seq<string>)
    ensures |r| >= 1
    decreases |s|
  {
    match IndexOf(s, sep)
    case None => [s]
    case Some(k) => [s[..k]] + Split(s[k + 1..], sep)
  }

  /** The pieces hold no separator, and joining them with it gives back
      the text. */
  lemma {:induction false} SplitSpec(s: string, sep: char)
    ensures var r := Split(s, sep);
      (forall i :: 0 <= i < |r| ==> sep !in r[i]) && Join(r, sep) == s
    decreases |s|
  {
    IndexOfSpec(s, sep);
    match IndexOf(s, sep)
    case None =>
    case Some(k) =>
      SplitSpec(s[k + 1..], sep);
      var r := Split(s, sep);
      assert r[1..] == Split(s[k + 1..], sep);
      assert s == s[..k] + [sep] + s[k + 1..];
  }

  /** Glues the pieces back together with `sep` between neighbours. */
  function Join(ps: seq<string>, sep: char): string
    requires |ps| >= 1
  {
    if |ps| == 1 then ps[0] else ps[0] + [sep] + Join(ps[1..], sep)
  }

  /** Splitting a join of separator-free pieces gives the pieces back. */
  lemma {:induction false} SplitJoin(ps: seq<string>, sep: char)
    requires |ps| >= 1
    requires forall i :: 0 <= i < |ps| ==> sep !in ps[i]
    ensures Split(Join(ps, sep), sep) == ps
    decreases |ps|
  {
    var s := Join(ps, sep);
    if |ps| == 1 {
      assert sep !in ps[0];
      IndexOfSpec(s, sep);
    } else {
      var tail := Join(ps[1..], sep);
      assert s == ps[0] + [sep] + tail;
      assert sep !in ps[0];
      IndexOfPrefix(ps[0], sep, tail);
      assert s[|ps[0]| + 1..] == tail;
      assert s[..|ps[0]|] == ps[0];
      SplitJoin(ps[1..], sep);
    }
  }

  /** The first separator of `a + [sep] + b` sits just after `a` when `a` has none. */
  lemma {:induction false} IndexOfPrefix(a: string, sep: char, b: string)
    requires sep !in a
    ensures IndexOf(a + [sep] + b, sep) == Some(|a|)
  {
    if a != [] {
      assert a + [sep] + b == [a[0]] + (a[1..] + [sep] + b);
      IndexOfPrefix(a[1..], sep, b);
    }
  }
}
