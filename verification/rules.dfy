/** Placement rules: a role, a replica count and label constraints. */
module Rules {
  import opened Constraints

  /** Replica roles. The compiler passes the role through unchanged. */
  datatype Role = Voter | Leader | Follower | Learner

  /** A placement rule. The identifier is not assigned by construction; it
      stays empty unless a caller sets it. */
  datatype Rule = Rule(id: string, role: Role, count: nat, constraints: seq<Constraint>)

  /** Builds a rule from its parts, leaving the identifier empty. */
  function NewRule(role: Role, count: nat, constraints: seq<Constraint>): (r: Rule)
    ensures r.id == [] && r.role == role && r.count == count && r.constraints == constraints
  {
    Rule([], role, count, constraints)
  }

  /** Copies a value list element by element. */
  function CloneValues(vs: seq<string>): (r: seq<string>)
    ensures r == vs
  {
    if |vs| == 0 then [] else [vs[0]] + CloneValues(vs[1..])
  }

  /** Copies one constraint, including its own value list. */
  function CloneConstraint(c: Constraint): (r: Constraint)
    ensures r == c
  {
    Constraint(c.key, c.op, CloneValues(c.values))
  }

  /** Copies a constraint list, constraint by constraint. */
  function CloneConstraints(cs: seq<Constraint>): (r: seq<Constraint>)
    ensures r == cs
  {
    if |cs| == 0 then [] else [CloneConstraint(cs[0])] + CloneConstraints(cs[1..])
  }

  /** A deep copy of a rule: every owned sequence is rebuilt. */
  function Clone(r: Rule): (c: Rule)
    ensures c == r
  {
    Rule(r.id, r.role, r.count, CloneConstraints(r.constraints))
  }

  /** Renaming a clone gives a rule that differs from the original in its
      identifier only, and leaves the original as it was. */
  lemma CloneThenRename(r: Rule, id: string)
    ensures Clone(r).(id := id).id == id
    ensures Clone(r).(id := id) == r.(id := id)
    ensures id != r.id ==> Clone(r).(id := id) != r
  {
  }

  /** The total replica count of a list of rules. */
  function TotalCount(rs: seq<Rule>): nat
  {
    if |rs| == 0 then 0 else rs[0].count + TotalCount(rs[1..])
  }

  /** Total count distributes over concatenation. */
  lemma {:induction false} TotalCountAppend(a: seq<Rule>, b: seq<Rule>)
    ensures TotalCount(a + b) == TotalCount(a) + TotalCount(b)
    decreases |a|
  {
    if |a| > 0 {
      assert (a + b)[1..] == a[1..] + b;
      TotalCountAppend(a[1..], b);
    } else {
      assert a + b == b;
    }
  }
}
