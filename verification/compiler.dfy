/** The constraint compiler: `NewRules(role, replicas, text)` normalizes
    the quotes of `text`, recognizes its shape and turns it into placement
    rules. Every successful result conserves the replica count, and the
    map form's result does not depend on the order of the map's entries. */
module Compiler {
  import opened Results
  import opened Strings
  import opened Constraints
  import opened Rules
  import opened SpecText
  import opened Seqs

  /** The sum of the declared counts of a map. */
  function SumCounts(es: seq<Entry>): int
  {
    if |es| == 0 then 0 else es[0].count + SumCounts(es[1..])
  }

  /** Every entry of the map declares a positive count. */
  predicate AllPositive(es: seq<Entry>) {
    forall e :: e in es ==> e.count > 0
  }

  /** Every key of the map is a well-formed comma-joined token list. */
  predicate AllKeysParse(es: seq<Entry>) {
    forall e :: e in es ==> ParseKey(e.key).Some?
  }

  /** An entry that makes a rule: a positive count and a well-formed key. */
  predicate ValidEntry(e: Entry) {
    e.count > 0 && ParseKey(e.key).Some?
  }

  /** Entries that all make rules. */
  predicate ValidEntries(es: seq<Entry>) {
    AllPositive(es) && AllKeysParse(es)
  }

  /** The rule one map entry stands for. */
  function EntryRule(role: Role, e: Entry): Rule
    requires ValidEntry(e)
  {
    NewRule(role, e.count, ParseKey(e.key).value)
  }

  /** The rules of all entries, in entry order. */
  function EntryRules(role: Role, es: seq<Entry>): (rs: seq<Rule>)
    requires ValidEntries(es)
  {
    MapSeq((e: Entry) requires ValidEntry(e) => EntryRule(role, e), es)
  }

  /** The map form. A non-positive count is reported first, then a total
      above a non-zero replica count, then a malformed key; with zero
      replicas the total is not bounded and no catch-all rule is added. */
  function CompileMap(role: Role, replicas: nat, es: seq<Entry>): Result<seq<Rule>>
  {
    if !AllPositive(es) then Err(InvalidMapCount)
    else
      var sum := SumCounts(es);
      if replicas != 0 && sum > replicas then Err(InvalidReplicas)
      else if !AllKeysParse(es) then Err(InvalidConstraintFormat)
      else
        Ok(EntryRules(role, es) + CatchAll(role, replicas, sum))
  }

  /** The unconstrained rule that takes the replicas the entries leave
      over, if any. */
  function CatchAll(role: Role, replicas: nat, sum: int): seq<Rule>
  {
    if replicas > sum then [NewRule(role, replicas - sum, [])] else []
  }

  /** Turns a recognized shape into rules. */
  function Compile(role: Role, replicas: nat, spec: Spec): Result<seq<Rule>>
  {
    match spec
    case Bad(e) => Err(e)
    case Empty => if replicas == 0 then Err(InvalidReplicas) else Ok([NewRule(role, replicas, [])])
    case Array(ts) =>
      var cs := ParseTokens(ts);
      if cs.None? then Err(InvalidFormat)
      else if replicas == 0 then Err(InvalidReplicas)
      else Ok([NewRule(role, replicas, cs.value)])
    case Map(es) => CompileMap(role, replicas, es)
  }

  /** The compiler entry point. */
  function NewRules(role: Role, replicas: nat, text: string): Result<seq<Rule>>
  {
    Compile(role, replicas, Recognize(Normalize(text)))
  }

  // ---------------------------------------------------------------------
  // Counting

  lemma {:induction false} SumCountsAppend(a: seq<Entry>, b: seq<Entry>)
    ensures SumCounts(a + b) == SumCounts(a) + SumCounts(b)
    decreases |a|
  {
    if |a| == 0 {
      assert a + b == b;
    } else {
      assert (a + b)[1..] == a[1..] + b;
      SumCountsAppend(a[1..], b);
    }
  }

  /** The rules of a map carry exactly the declared counts. */
  lemma {:induction false} EntryRulesTotal(role: Role, es: seq<Entry>)
    requires ValidEntries(es)
    ensures TotalCount(EntryRules(role, es)) == SumCounts(es)
    decreases |es|
  {
    if |es| > 0 {
      EntryRulesTotal(role, es[1..]);
      assert EntryRules(role, es)[1..] == EntryRules(role, es[1..]);
    }
  }

  /** Every rule the compiler returns has the requested role, a positive
      count and no identifier. */
  lemma CompileRulesWellFormed(role: Role, replicas: nat, spec: Spec)
    requires Compile(role, replicas, spec).Ok?
    ensures forall r :: r in Compile(role, replicas, spec).value ==>
      r.role == role && r.count > 0 && r.id == []
  {
    if spec.Map? {
      var es := spec.entries;
      var rs := EntryRules(role, es);
      forall r | r in rs
        ensures r.role == role && r.count > 0 && r.id == []
      {
        var i :| 0 <= i < |rs| && rs[i] == r;
        assert es[i] in es;
      }
    }
  }

  /** The map form conserves the replica count, or with zero replicas
      the declared total. */
  lemma CompileMapConserves(role: Role, replicas: nat, es: seq<Entry>)
    requires CompileMap(role, replicas, es).Ok?
    ensures TotalCount(CompileMap(role, replicas, es).value)
      == if replicas == 0 then SumCounts(es) else replicas
  {
    var rs := EntryRules(role, es);
    var sum := SumCounts(es);
    var extra := CatchAll(role, replicas, sum);
    EntryRulesTotal(role, es);
    TotalCountAppend(rs, extra);
    assert TotalCount(extra) == if replicas > sum then replicas - sum else 0 by {
      if replicas > sum {
        assert extra[1..] == [];
      }
    }
  }

  /** Sum conservation: on success the counts add up to the replica count,
      or, for the map form called with zero replicas, to the declared
      total. */
  lemma CompileConservesReplicas(role: Role, replicas: nat, spec: Spec)
    requires Compile(role, replicas, spec).Ok?
    ensures TotalCount(Compile(role, replicas, spec).value)
      == if spec.Map? && replicas == 0 then SumCounts(spec.entries) else replicas
  {
    if spec.Map? {
      CompileMapConserves(role, replicas, spec.entries);
    } else {
      var rs := Compile(role, replicas, spec).value;
      assert rs[1..] == [];
    }
  }

  // ---------------------------------------------------------------------
  // The map form, case by case

  /** Which error the map form reports, exactly when. */
  lemma CompileMapErrors(role: Role, replicas: nat, es: seq<Entry>)
    ensures var r := CompileMap(role, replicas, es);
      && (r == Err(InvalidMapCount) <==> exists e :: e in es && e.count <= 0)
      && (r == Err(InvalidReplicas) <==> AllPositive(es) && replicas != 0 && SumCounts(es) > replicas)
      && (r == Err(InvalidConstraintFormat) <==>
            AllPositive(es) && (replicas == 0 || SumCounts(es) <= replicas)
            && exists e :: e in es && ParseKey(e.key).None?)
      && (r.Ok? <==> AllPositive(es) && AllKeysParse(es) && (replicas == 0 || SumCounts(es) <= replicas))
  {
  }

  /** A successful map form gives one rule per entry, in entry order,
      followed by one unconstrained rule for the remainder when the
      declared counts fall short of a non-zero replica count. */
  lemma CompileMapRules(role: Role, replicas: nat, es: seq<Entry>)
    requires CompileMap(role, replicas, es).Ok?
    ensures var rs := CompileMap(role, replicas, es).value;
      && |rs| == |es| + (if replicas > SumCounts(es) then 1 else 0)
      && (forall i :: 0 <= i < |es| ==>
            && rs[i].role == role
            && rs[i].count == es[i].count
            && Some(rs[i].constraints) == ParseKey(es[i].key))
      && (replicas > SumCounts(es) ==> rs[|es|] == NewRule(role, replicas - SumCounts(es), []))
  {
    CompileMapValue(role, replicas, es);
    EntryRulesSpec(role, es);
  }

  /** A successful map form is the entries' rules followed by the
      catch-all. */
  lemma CompileMapValue(role: Role, replicas: nat, es: seq<Entry>)
    requires CompileMap(role, replicas, es).Ok?
    ensures ValidEntries(es)
    ensures CompileMap(role, replicas, es).value
      == EntryRules(role, es) + CatchAll(role, replicas, SumCounts(es))
  {
  }

  /** One rule per entry, with the entry's count and the constraints of
      its key. */
  lemma EntryRulesSpec(role: Role, es: seq<Entry>)
    requires ValidEntries(es)
    ensures var rs := EntryRules(role, es);
      && |rs| == |es|
      && (forall i :: 0 <= i < |es| ==>
            && rs[i].role == role
            && rs[i].count == es[i].count
            && Some(rs[i].constraints) == ParseKey(es[i].key))
  {
    var rs := EntryRules(role, es);
    forall i | 0 <= i < |es|
      ensures rs[i].role == role && rs[i].count == es[i].count
      ensures Some(rs[i].constraints) == ParseKey(es[i].key)
    {
      assert es[i] in es;
      assert rs[i] == EntryRule(role, es[i]);
    }
  }

  // ---------------------------------------------------------------------
  // Independence from entry order

  lemma {:induction false} SumCountsPermutation(a: seq<Entry>, b: seq<Entry>)
    requires multiset(a) == multiset(b)
    ensures SumCounts(a) == SumCounts(b)
    decreases |a|
  {
    if |a| == 0 {
      assert |b| == |multiset(b)| == 0;
    } else {
      var j := PickFirst(a, b);
      SumCountsPermutation(a[1..], b[..j] + b[j + 1..]);
      SumCountsAppend(b[..j], b[j + 1..]);
      SumCountsAppend(b[..j], [b[j]] + b[j + 1..]);
      assert b == b[..j] + ([b[j]] + b[j + 1..]);
    }
  }

  /** The map form depends on its entries only as a multiset: reordering
      the entries of the object gives the same error, or rules that are
      the same up to order. */
  lemma CompileMapPermutation(role: Role, replicas: nat, a: seq<Entry>, b: seq<Entry>)
    requires multiset(a) == multiset(b)
    ensures CompileMap(role, replicas, a).Err? <==> CompileMap(role, replicas, b).Err?
    ensures CompileMap(role, replicas, a).Err? ==>
      CompileMap(role, replicas, a).error == CompileMap(role, replicas, b).error
    ensures CompileMap(role, replicas, a).Ok? ==>
      multiset(CompileMap(role, replicas, a).value) == multiset(CompileMap(role, replicas, b).value)
  {
    assert forall e :: e in a <==> e in b by {
      assert forall e :: e in a <==> e in multiset(a);
      assert forall e :: e in b <==> e in multiset(b);
    }
    SumCountsPermutation(a, b);
    if ValidEntries(a) {
      MapSeqPermutation((e: Entry) requires ValidEntry(e) => EntryRule(role, e), a, b);
    }
  }

  // ---------------------------------------------------------------------
  // Quotes

  /** Normalization is the identity on text without single quotes. */
  lemma {:induction false} NormalizeFixed(s: string)
    requires '\'' !in s
    ensures Normalize(s) == s
  {
    assert forall i :: 0 <= i < |s| ==> s[i] != '\'';
  }

  /** Texts that differ only in the kind of quote character at some
      positions give the same result. */
  lemma QuoteTolerance(role: Role, replicas: nat, a: string, b: string)
    requires |a| == |b|
    requires forall i :: 0 <= i < |a| ==> a[i] == b[i] || (a[i] in "'\"" && b[i] in "'\"")
    ensures NewRules(role, replicas, a) == NewRules(role, replicas, b)
  {
    assert Normalize(a) == Normalize(b);
  }
}
