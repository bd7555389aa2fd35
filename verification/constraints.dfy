/** Label constraints and the `+key=value` / `-key=value` token parser. */
module Constraints {
  import opened Results
  import opened Strings

  /** Constraint operators. `Exists` and `NotExists` belong to the operator
      set but no token form produces them. */
  datatype Op = In | NotIn | Exists | NotExists

  /** A predicate over one node label: `key op values`. */
  datatype Constraint = Constraint(key: string, op: Op, values: seq<string>)

  /** The constraints one textual token can denote: a non-empty key without
      `=`, operator `In` or `NotIn`, exactly one value (which may contain
      anything, `=` included). */
  predicate Tokenizable(c: Constraint) {
    && (c.op == In || c.op == NotIn)
    && |c.key| > 0
    && '=' !in c.key
    && |c.values| == 1
  }

  /** The textual token of a constraint: sign, key, `=`, value. */
  function RenderToken(c: Constraint): string
    requires Tokenizable(c)
  {
    [if c.op == In then '+' else '-'] + c.key + ['='] + c.values[0]
  }

  /** Parses one token. A leading `+` gives `In`, a leading `-` gives
      `NotIn`; the key runs up to the first `=` and must not be empty; the
      value is everything after that `=`. Any other shape is malformed
      (`None`): the callers decide which error kind that becomes. */
  function ParseToken(t: string): (r: Option<Constraint>)
    ensures r.Some? ==> Tokenizable(r.value) && RenderToken(r.value) == t
    ensures |t| == 0 || (t[0] != '+' && t[0] != '-') ==> r.None?
    ensures '=' !in t ==> r.None?
  {
    if |t| == 0 || (t[0] != '+' && t[0] != '-') then None
    else
      IndexOfSpec(t[1..], '=');
      match IndexOf(t[1..], '=')
      case None => None
      case Some(k) =>
        if k == 0 then None
        else
          var c := Constraint(t[1..k + 1], if t[0] == '+' then In else NotIn, [t[k + 2..]]);
          assert t[1..][..k] == t[1..k + 1];
          assert t == [t[0]] + t[1..k + 1] + ['='] + t[k + 2..];
          Some(c)
  }

  /** Every tokenizable constraint is recovered from its token; with the
      `ensures` of ParseToken this makes parsing and rendering inverse
      bijections between well-formed tokens and tokenizable constraints. */
  lemma ParseRenderToken(c: Constraint)
    requires Tokenizable(c)
    ensures ParseToken(RenderToken(c)) == Some(c)
  {
    var t := RenderToken(c);
    assert t[1..] == c.key + ['='] + c.values[0];
    assert IndexOf(t[1..], '=') == Some(|c.key|) by {
      IndexOfPrefix(c.key, '=', c.values[0]);
    }
    assert t[1..|c.key| + 1] == c.key;
    assert t[|c.key| + 2..] == c.values[0];
    assert c.values == [c.values[0]];
  }

  /** A list element or key piece is parsed after trimming white space. */
  function ParseTrimmed(t: string): Option<Constraint> {
    ParseToken(Trim(t))
  }

  /** Parses a list of tokens, each trimmed first, keeping their order; the
      whole list fails as soon as one token is malformed. ParseTokensSpec
      states the result element by element. */
  function ParseTokens(ts: seq<string>): Option<seq<Constraint>>
  {
    if |ts| == 0 then Some([])
    else
      var head := ParseTrimmed(ts[0]);
      var tail := ParseTokens(ts[1..]);
      if head.None? || tail.None? then None
      else Some([head.value] + tail.value)
  }

  /** The list parses exactly when every token does, and then the i-th
      constraint is the i-th token's. */
  lemma {:induction false} ParseTokensSpec(ts: seq<string>)
    ensures var r := ParseTokens(ts);
      && (r.Some? <==> forall i :: 0 <= i < |ts| ==> ParseTrimmed(ts[i]).Some?)
      && (r.Some? ==> |r.value| == |ts|)
      && (r.Some? ==> forall i :: 0 <= i < |ts| ==> ParseTrimmed(ts[i]) == Some(r.value[i]))
  {
    if |ts| > 0 {
      ParseTokensSpec(ts[1..]);
      var r := ParseTokens(ts);
      if ParseTrimmed(ts[0]).Some? && ParseTokens(ts[1..]).None? {
        var i :| 0 <= i < |ts[1..]| && ParseTrimmed(ts[1..][i]).None?;
        assert ts[i + 1] == ts[1..][i];
      }
    }
  }

  /** The constraints denoted by one map key: its comma-separated pieces,
      each parsed as a token. */
  function ParseKey(key: string): Option<seq<Constraint>>
  {
    ParseTokens(Split(key, ','))
  }

  /** A key whose first comma-separated piece is malformed is malformed,
      whatever follows the comma. */
  lemma ParseKeyBadHead(head: string, rest: string)
    requires ',' !in head
    requires ParseTrimmed(head).None?
    ensures ParseKey(head + [','] + rest) == None
  {
    IndexOfPrefix(head, ',', rest);
    assert Split(head + [','] + rest, ',')[0] == head;
  }

  /** A constraint whose token survives trimming and comma-joining: its
      token ends in a non-space character and holds no comma. */
  predicate Plain(c: Constraint) {
    && Tokenizable(c)
    && ',' !in c.key
    && ',' !in c.values[0]
    && (c.values[0] == [] || !IsSpace(c.values[0][|c.values[0]| - 1]))
  }

  /** The tokens of a list of plain constraints, in order. */
  function RenderTokens(cs: seq<Constraint>): (ts: seq<string>)
    requires forall c :: c in cs ==> Plain(c)
    ensures |ts| == |cs|
  {
    if |cs| == 0 then [] else
      assert cs[0] in cs;
      assert Plain(cs[0]);
      [RenderToken(cs[0])] + RenderTokens(cs[1..])
  }

  /** Trimming does not disturb the token of a plain constraint. */
  lemma ParseTrimmedRender(c: Constraint)
    requires Plain(c)
    ensures ParseTrimmed(RenderToken(c)) == Some(c)
  {
    var t := RenderToken(c);
    var v := c.values[0];
    assert t == [t[0]] + c.key + ['='] + v;
    assert t[|t| - 1] == if v == [] then '=' else v[|v| - 1];
    TrimNoSpace(t);
    ParseRenderToken(c);
  }

  /** A list of plain constraints is read back from its tokens. */
  lemma {:induction false} ParseTokensRender(cs: seq<Constraint>)
    requires forall c :: c in cs ==> Plain(c)
    ensures ParseTokens(RenderTokens(cs)) == Some(cs)
    decreases |cs|
  {
    if |cs| > 0 {
      assert cs[0] in cs;
      var ts := RenderTokens(cs);
      assert ts[1..] == RenderTokens(cs[1..]);
      ParseTrimmedRender(cs[0]);
      ParseTokensRender(cs[1..]);
      assert [cs[0]] + cs[1..] == cs;
    }
  }

  lemma {:induction false} RenderTokensCommaFree(cs: seq<Constraint>)
    requires forall c :: c in cs ==> Plain(c)
    ensures forall i :: 0 <= i < |cs| ==> ',' !in RenderTokens(cs)[i]
    decreases |cs|
  {
    if |cs| > 0 {
      RenderTokensCommaFree(cs[1..]);
      assert cs[0] in cs;
      var c := cs[0];
      var t := RenderToken(c);
      assert t == [t[0]] + c.key + ['='] + c.values[0];
      var ts := RenderTokens(cs);
      forall i | 0 <= i < |cs|
        ensures ',' !in ts[i]
      {
        if i > 0 {
          assert ts[i] == RenderTokens(cs[1..])[i - 1];
        }
      }
    }
  }

  /** A map key written as the comma-joined tokens of plain constraints
      denotes exactly those constraints. */
  lemma ParseKeyRender(cs: seq<Constraint>)
    requires |cs| >= 1
    requires forall c :: c in cs ==> Plain(c)
    ensures ParseKey(Join(RenderTokens(cs), ',')) == Some(cs)
  {
    RenderTokensCommaFree(cs);
    SplitJoin(RenderTokens(cs), ',');
    ParseTokensRender(cs);
  }
}
