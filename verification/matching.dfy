/** Comparing compiled rules with expected rules. The compiler's result is
    an unordered collection, so two rule lists agree when they hold the
    same rules the same number of times. The comparison the tests use
    checks equal length and that every expected rule occurs somewhere in
    the result; that is weaker when the expected list repeats a rule, and
    exact when it does not. */
module Matching {
  import opened Rules
  import opened Seqs

  /** The intended comparison: the same rules, each the same number of
      times, in any order. */
  predicate SameRules(expected: seq<Rule>, actual: seq<Rule>) {
    multiset(expected) == multiset(actual)
  }

  /** The test helper's comparison as written: the lengths agree, and
      every expected rule is equal to some rule of the result. */
  method MatchRules(expected: seq<Rule>, actual: seq<Rule>) returns (ok: bool)
    ensures ok <==> |actual| == |expected| && forall i :: 0 <= i < |expected| ==> expected[i] in actual
  {
    if |actual| != |expected| {
      return false;
    }
    var i := 0;
    while i < |expected|
      invariant 0 <= i <= |expected|
      invariant forall k :: 0 <= k < i ==> expected[k] in actual
    {
      var found := false;
      var j := 0;
      while j < |actual|
        invariant 0 <= j <= |actual|
        invariant !found
        invariant forall k :: 0 <= k < j ==> actual[k] != expected[i]
      {
        if actual[j] == expected[i] {
          found := true;
          break;
        }
        j := j + 1;
      }
      if !found {
        assert expected[i] !in actual;
        return false;
      }
      assert actual[j] == expected[i];
      i := i + 1;
    }
    return true;
  }

  /** Striking the `i`-th expected rule off the working copy at `j` keeps
      the copy and the expected rules seen so far adding up to the result. */
  lemma StrikeOff(expected: seq<Rule>, actual: seq<Rule>, rest: seq<Rule>, i: nat, j: nat)
    requires i < |expected| && j < |rest| && rest[j] == expected[i]
    requires multiset(rest) + multiset(expected[..i]) == multiset(actual)
    ensures multiset(rest[..j] + rest[j + 1..]) + multiset(expected[..i + 1]) == multiset(actual)
  {
    SplitAt(rest, j);
    assert expected[..i + 1] == expected[..i] + [expected[i]];
  }

  /** An expected rule missing from the working copy occurs more often in
      the expectation than in the result. */
  lemma MissingRule(expected: seq<Rule>, actual: seq<Rule>, rest: seq<Rule>, i: nat)
    requires i < |expected| && expected[i] !in rest
    requires multiset(rest) + multiset(expected[..i]) == multiset(actual)
    ensures !SameRules(expected, actual)
  {
    var x := expected[i];
    assert multiset(actual)[x] == multiset(expected[..i])[x];
    assert expected == expected[..i] + [x] + expected[i + 1..];
    assert multiset(expected)[x] > multiset(actual)[x];
  }

  /** Once every expected rule is struck off, the rules agree exactly when
      nothing is left over. */
  lemma Leftover(expected: seq<Rule>, actual: seq<Rule>, rest: seq<Rule>)
    requires multiset(rest) + multiset(expected) == multiset(actual)
    ensures SameRules(expected, actual) <==> rest == []
  {
    if rest != [] {
      assert rest[0] in multiset(rest);
    }
  }

  /** The intended comparison, computed by striking each expected rule
      off a working copy of the result. */
  method MatchRulesExactly(expected: seq<Rule>, actual: seq<Rule>) returns (ok: bool)
    ensures ok <==> SameRules(expected, actual)
  {
    var rest := actual;
    var i := 0;
    while i < |expected|
      invariant 0 <= i <= |expected|
      invariant multiset(rest) + multiset(expected[..i]) == multiset(actual)
    {
      var x := expected[i];
      var j := 0;
      while j < |rest| && rest[j] != x
        invariant 0 <= j <= |rest|
        invariant forall k :: 0 <= k < j ==> rest[k] != x
      {
        j := j + 1;
      }
      if j == |rest| {
        MissingRule(expected, actual, rest, i);
        return false;
      }
      StrikeOff(expected, actual, rest, i, j);
      rest := rest[..j] + rest[j + 1..];
      i := i + 1;
    }
    assert expected[..i] == expected;
    Leftover(expected, actual, rest);
    ok := rest == [];
  }

  /** A multiset-equal result also passes the test helper's check. */
  lemma SameRulesMatch(expected: seq<Rule>, actual: seq<Rule>)
    requires SameRules(expected, actual)
    ensures |actual| == |expected|
    ensures forall i :: 0 <= i < |expected| ==> expected[i] in actual
  {
    assert |actual| == |multiset(actual)| == |multiset(expected)| == |expected|;
    forall i | 0 <= i < |expected|
      ensures expected[i] in actual
    {
      assert expected[i] in multiset(expected);
    }
  }

  /** The test helper's check does not imply the intended comparison:
      a result with two different rules passes against an expectation
      that lists one of them twice. */
  lemma MatchRulesTooWeak(a: Rule, b: Rule)
    requires a != b
    ensures var expected, actual := [a, a], [a, b];
      && |actual| == |expected|
      && (forall i :: 0 <= i < |expected| ==> expected[i] in actual)
      && !SameRules(expected, actual)
  {
    assert multiset([a, a])[a] == 2;
    assert multiset([a, b])[a] == 1;
  }

  /** No rule occurs twice. */
  predicate Distinct(rs: seq<Rule>) {
    forall i, j :: 0 <= i < j < |rs| ==> rs[i] != rs[j]
  }

  lemma {:induction false} DistinctCount(rs: seq<Rule>)
    requires Distinct(rs)
    ensures forall x :: multiset(rs)[x] == if x in rs then 1 else 0
    decreases |rs|
  {
    if |rs| > 0 {
      DistinctCount(rs[1..]);
      assert rs == [rs[0]] + rs[1..];
      assert rs[0] !in rs[1..];
    }
  }

  lemma {:induction false} SetSize(rs: seq<Rule>)
    ensures |set x | x in rs| <= |rs|
    ensures Distinct(rs) ==> |set x | x in rs| == |rs|
    decreases |rs|
  {
    if |rs| > 0 {
      SetSize(rs[1..]);
      SetOfCons(rs);
      if Distinct(rs) {
        assert rs[0] !in rs[1..];
        assert Distinct(rs[1..]);
      }
    }
  }

  lemma {:induction false} SmallSetDistinct(rs: seq<Rule>)
    requires |set x | x in rs| == |rs|
    ensures Distinct(rs)
    decreases |rs|
  {
    if |rs| > 0 {
      var t := rs[1..];
      var s1 := set x | x in t;
      SetSize(t);
      SetOfCons(rs);
      assert rs[0] !in t;
      assert |s1| == |t|;
      SmallSetDistinct(t);
      forall j | 0 < j < |rs|
        ensures rs[0] != rs[j]
      {
        assert rs[j] == t[j - 1];
      }
    }
  }

  /** The elements of a non-empty sequence: its head and those of its tail. */
  lemma SetOfCons(rs: seq<Rule>)
    requires |rs| > 0
    ensures (set x | x in rs) == (set x | x in rs[1..]) + {rs[0]}
  {
    assert rs == [rs[0]] + rs[1..];
  }

  /** A subset at least as large as its superset is the whole of it. */
  lemma SubsetSameSize(a: set<Rule>, b: set<Rule>)
    requires a <= b && |b| <= |a|
    ensures a == b
  {
    var extra := b - a;
    assert b == a + extra;
    assert |b| == |a| + |extra|;
    assert extra == {};
  }

  /** When the expected rules are pairwise different, the test helper's
      check is exactly the intended comparison. */
  lemma MatchExactWhenDistinct(expected: seq<Rule>, actual: seq<Rule>)
    requires Distinct(expected)
    requires |actual| == |expected|
    requires forall i :: 0 <= i < |expected| ==> expected[i] in actual
    ensures SameRules(expected, actual)
  {
    var se := set x | x in expected;
    var sa := set x | x in actual;
    SetSize(expected);
    SetSize(actual);
    assert se <= sa;
    SubsetSameSize(se, sa);
    SmallSetDistinct(actual);
    DistinctCount(expected);
    DistinctCount(actual);
    assert forall x :: x in expected <==> x in actual by {
      assert forall x :: x in expected <==> x in se;
      assert forall x :: x in actual <==> x in sa;
    }
    assert forall x :: multiset(expected)[x] == multiset(actual)[x];
  }
}
