/** The cases of the compiler's test table, each stated as a lemma about
    the model: the text, the replica count, and the rules or the error
    the call must give. The role is `Voter` throughout, as in the table.
    Each literal text is first shown to be a rendering of the recognizer's
    printer (or, for the malformed ones, to have the shape that fails),
    and the general lemmas about the recognizer and the compiler do the
    rest. Strings are named constants so that each step stays small. */
module Scenarios {
  import opened Results
  import opened Strings
  import opened Constraints
  import opened Rules
  import opened SpecText
  import opened SpecRender
  import opened Recognition
  import opened Compiler
  import opened TableText

  // ---------------------------------------------------------------------
  // The empty text

  /** Empty text with three replicas: one unconstrained rule for all
      three. */
  lemma EmptyConstraints()
    ensures NewRules(Voter, 3, "") == Ok([NewRule(Voter, 3, [])])
  {
    RecognizeEmpty("");
  }

  /** Empty text with zero replicas is a replica-count error. */
  lemma ZeroReplicas()
    ensures NewRules(Voter, 0, "") == Err(InvalidReplicas)
  {
    RecognizeEmpty("");
  }

  // ---------------------------------------------------------------------
  // Arrays

  /** `["a", "b"]` is a rendering of the array of `a` and `b`. */
  lemma PairArrayText(a: string, b: string)
    ensures ArrayText([a, b], "", [ItemPad("", ""), ItemPad(" ", "")]) == PairArray(a, b)
  {
    var ts := [a, b];
    var ps := [ItemPad("", ""), ItemPad(" ", "")];
    assert RenderItemsOnto(ts[1..], ps[1..], []) == " " + QuoteOnto(b, "]");
  }

  lemma PairArrayUnquoted(a: string, b: string)
    requires '\'' !in a && '\'' !in b
    ensures '\'' !in PairArray(a, b)
  {
  }

  /** `["a", "b"]` with quotable `a` and `b` and no single quote reads back
      as the array of `a` and `b`. */
  lemma PairArrayRecognized(a: string, b: string)
    requires Quotable(a) && Quotable(b)
    requires '\'' !in a && '\'' !in b
    ensures Recognize(Normalize(PairArray(a, b))) == Array([a, b])
  {
    var text := PairArray(a, b);
    var ps := [ItemPad("", ""), ItemPad(" ", "")];
    assert text == "" + ArrayText([a, b], "", ps) + "" by {
      PairArrayText(a, b);
    }
    assert BlankItem(ps[0]) && BlankItem(ps[1]);
    RecognizeArrayText("", [a, b], "", ps, "");
    PairArrayUnquoted(a, b);
    NormalizeFixed(text);
  }

  /** A two-element array of well-formed tokens with a non-zero replica
      count gives one rule for all replicas. */
  lemma PairArrayCompiles(role: Role, replicas: nat, a: string, b: string, cs: seq<Constraint>)
    requires Quotable(a) && Quotable(b)
    requires '\'' !in a && '\'' !in b
    requires ParseTokens([a, b]) == Some(cs)
    requires replicas > 0
    ensures NewRules(role, replicas, PairArray(a, b)) == Ok([NewRule(role, replicas, cs)])
  {
    PairArrayRecognized(a, b);
  }

  lemma NormalTokens()
    ensures ParseTokens([zoneShToken, regionShToken]) == Some([zoneSh, regionSh])
  {
    var cs := [zoneSh, regionSh];
    TableConstraints();
    assert RenderTokens(cs[1..]) == [regionShToken];
    assert RenderTokens(cs) == [zoneShToken, regionShToken];
    ParseTokensRender(cs);
  }

  /** An array of two `+` tokens: one rule for all replicas with both
      constraints, in array order. */
  lemma NormalArrayConstraints()
    ensures NewRules(Voter, 3, normalArray) == Ok([NewRule(Voter, 3, [zoneSh, regionSh])])
  {
    NormalArrayText();
    TableStrings();
    NormalTokens();
    PairArrayCompiles(Voter, 3, zoneShToken, regionShToken, [zoneSh, regionSh]);
  }

  lemma SignlessTokens()
    ensures ParseTokens([signlessToken, zoneShToken]) == None
  {
    var ts := [signlessToken, zoneShToken];
    assert ParseTrimmed(ts[0]) == None by {
      TrimNoSpace(signlessToken);
    }
  }

  /** A token without a sign is malformed, so the array is a format
      error. */
  lemma SignlessArrayConstraints()
    ensures NewRules(Voter, 3, signlessArray) == Err(InvalidFormat)
  {
    SignlessArrayText();
    TableStrings();
    PairArrayRecognized(signlessToken, zoneShToken);
    SignlessTokens();
  }

  /** A last element with nothing after it does not close the array. */
  lemma ParseItemsUnclosed(b: string)
    requires Quotable(b)
    ensures ParseItems(QuoteOnto(b, [])) == None
  {
    ParseQuotedRender(b, []);
  }

  /** An element list that stops after its second element is malformed. */
  lemma ParseItemsUnclosedPair(a: string, b: string)
    requires Quotable(a) && Quotable(b)
    ensures ParseItems(QuoteOnto(a, "," + (" " + QuoteOnto(b, [])))) == None
  {
    var w := "," + (" " + QuoteOnto(b, []));
    ParseQuotedRender(a, w);
    TrimLeftBlank([], w);
    assert w[1..] == " " + QuoteOnto(b, []);
    TrimLeftBlank(" ", QuoteOnto(b, []));
    ParseItemsUnclosed(b);
  }

  lemma UnclosedPairUnquoted(a: string, b: string)
    requires '\'' !in a && '\'' !in b
    ensures Normalize(UnclosedPairArray(a, b)) == UnclosedPairArray(a, b)
  {
    var u := UnclosedPairArray(a, b);
    assert '\'' !in u;
    NormalizeFixed(u);
  }

  lemma UnclosedPairParse(a: string, b: string)
    requires Quotable(a) && Quotable(b)
    ensures ParseArray(UnclosedPairArray(a, b)) == None
  {
    var v := QuoteOnto(a, "," + (" " + QuoteOnto(b, [])));
    assert UnclosedPairArray(a, b)[1..] == v;
    TrimLeftBlank([], v);
    ParseItemsUnclosedPair(a, b);
  }

  /** An array whose closing bracket is missing is a format error. */
  lemma UnclosedPairRecognized(a: string, b: string)
    requires Quotable(a) && Quotable(b)
    requires '\'' !in a && '\'' !in b
    ensures Recognize(Normalize(UnclosedPairArray(a, b))) == Bad(InvalidFormat)
  {
    var u := UnclosedPairArray(a, b);
    UnclosedPairUnquoted(a, b);
    TrimNoSpace(u);
    UnclosedPairParse(a, b);
    assert Structured(u) == None;
  }

  /** The table's unclosed array is a format error. */
  lemma UnclosedArrayConstraints()
    ensures NewRules(Voter, 3, unclosedArray) == Err(InvalidFormat)
  {
    UnclosedArrayText();
    TableStrings();
    UnclosedPairRecognized(neShToken, zoneShToken);
  }

  // ---------------------------------------------------------------------
  // Objects

  const pairPads := [EntryPad("", "", "", ""), EntryPad(" ", "", " ", "")]

  lemma EntryOntoTight(e: Entry, rest: string)
    ensures EntryOnto(e, EntryPad("", "", "", ""), rest) == QuoteOnto(e.key, ":" + (IntToString(e.count) + rest))
  {
  }

  lemma EntryOntoSpaced(e: Entry, rest: string)
    ensures EntryOnto(e, EntryPad(" ", "", " ", ""), rest)
      == " " + QuoteOnto(e.key, ":" + (" " + (IntToString(e.count) + rest)))
  {
  }

  /** The entries of the pair, rendered with the pair's padding. */
  lemma PairEntries(k1: string, c1: nat, k2: string, c2: nat)
    ensures RenderEntriesOnto([Entry(k1, c1), Entry(k2, c2)], pairPads, [])
      == QuoteOnto(k1, ":" + (NatToString(c1) + ("," + (" " + QuoteOnto(k2, ":" + (" " + (NatToString(c2) + "}")))))))
  {
    var es := [Entry(k1, c1), Entry(k2, c2)];
    EntryOntoSpaced(es[1], "}");
    var second := EntryOnto(es[1], pairPads[1], "}");
    assert RenderEntriesOnto(es[1..], pairPads[1..], []) == second;
    EntryOntoTight(es[0], "," + second);
  }

  /** The double-quoted pair text is a rendering of the two entries. */
  lemma PairTextObject(k1: string, c1: nat, k2: string, c2: nat)
    ensures ObjectText([Entry(k1, c1), Entry(k2, c2)], "", pairPads)
      == PairText('"', k1, NatToString(c1), k2, NatToString(c2))
  {
    PairEntries(k1, c1, k2, c2);
  }

  /** A quoted key and its colon normalize to the double-quoted key,
      whichever quote character is used. */
  lemma NormalizeQuotedKey(q: char, k: string, tail: string)
    requires q == '\'' || q == '"'
    requires '\'' !in k
    ensures Normalize([q] + (k + ([q] + (":" + tail))))
      == ['"'] + (k + (['"'] + (":" + Normalize(tail))))
  {
    assert Normalize([q]) == ['"'];
    NormalizeFixed(k);
    NormalizeFixed(":");
    NormalizeAppend(":", tail);
    NormalizeAppend([q], ":" + tail);
    NormalizeAppend(k, [q] + (":" + tail));
    NormalizeAppend([q], k + ([q] + (":" + tail)));
  }

  /** Single and double quotes give the same pair text after
      normalization, when nothing else in it is a single quote. */
  lemma PairTextNormalize(q: char, k1: string, n1: string, k2: string, n2: string)
    requires q == '\'' || q == '"'
    requires '\'' !in k1 && '\'' !in n1 && '\'' !in k2 && '\'' !in n2
    ensures Normalize(PairText(q, k1, n1, k2, n2)) == PairText('"', k1, n1, k2, n2)
  {
    var tail2 := " " + (n2 + "}");
    NormalizeFixed(tail2);
    NormalizeQuotedKey(q, k2, tail2);
    var key2 := [q] + (k2 + ([q] + (":" + tail2)));
    var tail1 := n1 + ("," + (" " + key2));
    NormalizeFixed(n1);
    NormalizeFixed(",");
    NormalizeFixed(" ");
    NormalizeAppend(" ", key2);
    NormalizeAppend(",", " " + key2);
    NormalizeAppend(n1, "," + (" " + key2));
    NormalizeQuotedKey(q, k1, tail1);
    NormalizeFixed("{");
    NormalizeAppend("{", [q] + (k1 + ([q] + (":" + tail1))));
  }

  /** A pair text with two different quotable keys and natural counts is
      recognized as the map of its two entries, whichever quote it uses. */
  lemma PairRecognized(q: char, k1: string, c1: nat, k2: string, c2: nat)
    requires q == '\'' || q == '"'
    requires Quotable(k1) && Quotable(k2) && k1 != k2
    requires '\'' !in k1 && '\'' !in k2
    ensures Recognize(Normalize(PairText(q, k1, NatToString(c1), k2, NatToString(c2))))
      == Map([Entry(k1, c1), Entry(k2, c2)])
  {
    var n1, n2 := NatToString(c1), NatToString(c2);
    assert '\'' !in n1 && '\'' !in n2 by {
      assert forall i :: 0 <= i < |n1| ==> IsDigit(n1[i]);
      assert forall i :: 0 <= i < |n2| ==> IsDigit(n2[i]);
    }
    PairTextNormalize(q, k1, n1, k2, n2);
    var es := [Entry(k1, c1), Entry(k2, c2)];
    PairTextObject(k1, c1, k2, c2);
    assert BlankPad(pairPads[0]) && BlankPad(pairPads[1]);
    var y := ObjectText(es, "", pairPads);
    assert y == "" + y + "";
    RecognizeObjectText("", es, "", pairPads, "");
  }

  lemma PairSum(e1: Entry, e2: Entry)
    ensures SumCounts([e1, e2]) == e1.count + e2.count
  {
    assert [e1, e2][1..] == [e2];
    assert SumCounts([e2]) == e2.count by {
      assert [e2][1..] == [];
    }
  }

  /** The pair text compiles as the map form of its two entries. */
  lemma PairCompiles(role: Role, replicas: nat, q: char, k1: string, c1: nat, k2: string, c2: nat)
    requires q == '\'' || q == '"'
    requires Quotable(k1) && Quotable(k2) && k1 != k2
    requires '\'' !in k1 && '\'' !in k2
    ensures NewRules(role, replicas, PairText(q, k1, NatToString(c1), k2, NatToString(c2)))
      == CompileMap(role, replicas, [Entry(k1, c1), Entry(k2, c2)])
  {
    PairRecognized(q, k1, c1, k2, c2);
  }

  /** A two-entry map with a non-positive count is a map-count error. */
  lemma PairCountError(role: Role, replicas: nat, e1: Entry, e2: Entry)
    requires e1.count <= 0 || e2.count <= 0
    ensures CompileMap(role, replicas, [e1, e2]) == Err(InvalidMapCount)
  {
    assert e1 in [e1, e2] && e2 in [e1, e2];
  }

  /** A two-entry map with positive counts whose total exceeds a non-zero
      replica count is a replica error. */
  lemma PairReplicaError(role: Role, replicas: nat, e1: Entry, e2: Entry)
    requires e1.count > 0 && e2.count > 0
    requires replicas != 0 && e1.count + e2.count > replicas
    ensures CompileMap(role, replicas, [e1, e2]) == Err(InvalidReplicas)
  {
    PairSum(e1, e2);
  }

  /** A two-entry map with positive counts that fit the replica count and
      a malformed key is a constraint-format error. */
  lemma PairKeyError(role: Role, replicas: nat, e1: Entry, e2: Entry)
    requires e1.count > 0 && e2.count > 0
    requires replicas == 0 || e1.count + e2.count <= replicas
    requires ParseKey(e1.key).None? || ParseKey(e2.key).None?
    ensures CompileMap(role, replicas, [e1, e2]) == Err(InvalidConstraintFormat)
  {
    PairSum(e1, e2);
    assert e1 in [e1, e2] && e2 in [e1, e2];
  }

  /** A two-entry map with positive counts and well-formed keys that fits
      the replica count gives one rule per entry, in order, and the
      remainder rule. */
  lemma PairRules(role: Role, replicas: nat, e1: Entry, e2: Entry, cs1: seq<Constraint>, cs2: seq<Constraint>)
    requires e1.count > 0 && e2.count > 0
    requires ParseKey(e1.key) == Some(cs1) && ParseKey(e2.key) == Some(cs2)
    requires replicas == 0 || replicas >= e1.count + e2.count
    ensures CompileMap(role, replicas, [e1, e2])
      == Ok([NewRule(role, e1.count, cs1), NewRule(role, e2.count, cs2)]
            + CatchAll(role, replicas, e1.count + e2.count))
  {
    var es := [e1, e2];
    PairSum(e1, e2);
    assert AllPositive(es) && AllKeysParse(es);
    var rs := EntryRules(role, es);
    assert rs[0] == EntryRule(role, es[0]);
    assert rs[1] == EntryRule(role, es[1]);
    assert rs == [NewRule(role, e1.count, cs1), NewRule(role, e2.count, cs2)];
  }

  /** The same, with the remainder rule written out. */
  lemma PairRulesRemainder(role: Role, replicas: nat, e1: Entry, e2: Entry, cs1: seq<Constraint>, cs2: seq<Constraint>)
    requires e1.count > 0 && e2.count > 0
    requires ParseKey(e1.key) == Some(cs1) && ParseKey(e2.key) == Some(cs2)
    requires replicas == 0 || replicas >= e1.count + e2.count
    ensures var sum := e1.count + e2.count;
      var rs := [NewRule(role, e1.count, cs1), NewRule(role, e2.count, cs2)];
      CompileMap(role, replicas, [e1, e2])
        == Ok(if replicas > sum then rs + [NewRule(role, replicas - sum, [])] else rs)
  {
    PairRules(role, replicas, e1, e2, cs1, cs2);
    var rs := [NewRule(role, e1.count, cs1), NewRule(role, e2.count, cs2)];
    if replicas <= e1.count + e2.count {
      assert rs + [] == rs;
    }
  }

  // ---------------------------------------------------------------------
  // The table's map keys

  /** `+zone=sh,-zone=bj` denotes zone in sh and zone not in bj. */
  lemma ZoneKeyParses()
    ensures ParseKey(zoneKey) == Some([zoneSh, zoneNotBj])
  {
    var cs := [zoneSh, zoneNotBj];
    TableConstraints();
    assert RenderTokens(cs[1..]) == [zoneNotBjToken];
    assert RenderTokens(cs) == [zoneShToken, zoneNotBjToken];
    assert Join([zoneShToken, zoneNotBjToken], ',') == zoneKey;
    ParseKeyRender(cs);
  }

  /** `+zone=sh` denotes zone in sh. */
  lemma ZoneShParses()
    ensures ParseKey(zoneShToken) == Some([zoneSh])
  {
    TableConstraints();
    assert RenderTokens([zoneSh]) == [zoneShToken];
    ParseKeyRender([zoneSh]);
  }

  /** `+ne=sh,-zone=bj` denotes ne in sh and zone not in bj. */
  lemma NeKeyParses()
    ensures ParseKey(neKey) == Some([neSh, zoneNotBj])
  {
    var cs := [neSh, zoneNotBj];
    TableConstraints();
    assert RenderTokens(cs[1..]) == [zoneNotBjToken];
    assert RenderTokens(cs) == [neShToken, zoneNotBjToken];
    assert Join([neShToken, zoneNotBjToken], ',') == neKey;
    ParseKeyRender(cs);
  }

  /** `nesh,-zone=bj` is malformed: its first token has no sign. */
  lemma SignlessKeyFails()
    ensures ParseKey(signlessKey) == None
  {
    var head := "nesh";
    assert signlessKey == head + [','] + zoneNotBjToken;
    assert ParseTrimmed(head) == None by {
      TrimNoSpace(head);
    }
    ParseKeyBadHead(head, zoneNotBjToken);
  }

  // ---------------------------------------------------------------------
  // The table's maps

  const twoReplicaRule := NewRule(Voter, 2, [zoneSh, zoneNotBj])
  const oneReplicaRule := NewRule(Voter, 1, [zoneSh])

  const zoneEntries := [Entry(zoneKey, 2), Entry(zoneShToken, 1)]

  /** The table's two-entry map gives its two rules, followed by the
      remainder rule when the replica count exceeds the declared three. */
  lemma ZoneMapRules(replicas: nat)
    requires replicas == 0 || replicas >= 3
    ensures CompileMap(Voter, replicas, zoneEntries)
      == Ok(if replicas > 3 then [twoReplicaRule, oneReplicaRule, NewRule(Voter, replicas - 3, [])]
            else [twoReplicaRule, oneReplicaRule])
  {
    var e1, e2 := Entry(zoneKey, 2), Entry(zoneShToken, 1);
    var rs := [twoReplicaRule, oneReplicaRule];
    var sum := e1.count + e2.count;
    var rs0 := [NewRule(Voter, e1.count, [zoneSh, zoneNotBj]), NewRule(Voter, e2.count, [zoneSh])];
    assert CompileMap(Voter, replicas, [e1, e2])
      == Ok(if replicas > sum then rs0 + [NewRule(Voter, replicas - sum, [])] else rs0) by {
      ZoneKeyParses();
      ZoneShParses();
      PairRulesRemainder(Voter, replicas, e1, e2, [zoneSh, zoneNotBj], [zoneSh]);
    }
    assert zoneEntries == [e1, e2];
    assert rs0 == rs;
    if replicas > 3 {
      var extra := NewRule(Voter, replicas - 3, []);
      assert rs + [extra] == [twoReplicaRule, oneReplicaRule, extra];
    }
  }

  /** A map whose counts add up to the replica count: one rule per key,
      each with its count. */
  lemma NormalObjectConstraints()
    ensures NewRules(Voter, 3, normalObject) == Ok([twoReplicaRule, oneReplicaRule])
  {
    NormalObjectText();
    Numerals();
    TableStrings();
    PairCompiles(Voter, 3, '"', zoneKey, 2, zoneShToken, 1);
    ZoneMapRules(3);
  }

  /** The single-quoted table text compiles as the table's map. */
  lemma SingleQuotedCompiles(replicas: nat)
    ensures NewRules(Voter, replicas, singleQuotedObject) == CompileMap(Voter, replicas, zoneEntries)
  {
    SingleQuotedObjectText();
    Numerals();
    TableStrings();
    PairCompiles(Voter, replicas, '\'', zoneKey, 2, zoneShToken, 1);
  }

  /** The same map written with single quotes and four replicas: the
      remaining replica gets an unconstrained rule. */
  lemma ExtraCountConstraints()
    ensures NewRules(Voter, 4, singleQuotedObject)
      == Ok([twoReplicaRule, oneReplicaRule, NewRule(Voter, 1, [])])
  {
    SingleQuotedCompiles(4);
    ZoneMapRules(4);
  }

  /** The same map with no replica count: the declared counts stand and no
      rule is added. */
  lemma WithoutCountConstraints()
    ensures NewRules(Voter, 0, singleQuotedObject) == Ok([twoReplicaRule, oneReplicaRule])
  {
    SingleQuotedCompiles(0);
    ZoneMapRules(0);
  }

  /** A zero count is a map-count error. */
  lemma ZeroCountConstraints()
    ensures NewRules(Voter, 3, zeroCountObject) == Err(InvalidMapCount)
  {
    ZeroCountObjectText();
    Numerals();
    TableStrings();
    PairCompiles(Voter, 3, '"', zoneKey, 0, zoneShToken, 1);
    PairCountError(Voter, 3, Entry(zoneKey, 0), Entry(zoneShToken, 1));
  }

  /** Counts that add up to more than the replica count are a replica
      error. */
  lemma OverlargeCountConstraints()
    ensures NewRules(Voter, 3, overlargeObject) == Err(InvalidReplicas)
  {
    OverlargeObjectText();
    Numerals();
    TableStrings();
    PairCompiles(Voter, 3, '"', neKey, 1, zoneShToken, 4);
    PairReplicaError(Voter, 3, Entry(neKey, 1), Entry(zoneShToken, 4));
  }

  /** A key whose token has no sign is a constraint-format error, once the
      counts fit the replica count. */
  lemma BadKeyConstraints()
    ensures NewRules(Voter, 6, badKeyObject) == Err(InvalidConstraintFormat)
  {
    BadKeyObjectText();
    Numerals();
    TableStrings();
    PairCompiles(Voter, 6, '"', signlessKey, 1, zoneShToken, 4);
    SignlessKeyFails();
    PairKeyError(Voter, 6, Entry(signlessKey, 1), Entry(zoneShToken, 4));
  }

  // ---------------------------------------------------------------------
  // Texts that are neither arrays nor objects

  /** Text with no single quote and no surrounding white space is left
      alone by quote normalization and by trimming. */
  lemma PlainText(u: string)
    requires '\'' !in u
    requires u != [] && !IsSpace(u[0]) && !IsSpace(u[|u| - 1])
    ensures Normalize(u) == u && Trim(u) == u
  {
    NormalizeFixed(u);
    TrimNoSpace(u);
  }

  /** Such text that the separator heuristic flags compiles to the
      mapping-separator error. */
  lemma FlaggedCompiles(role: Role, replicas: nat, u: string)
    requires '\'' !in u
    requires u != [] && !IsSpace(u[0]) && !IsSpace(u[|u| - 1])
    requires SeparatorMisuse(u)
    ensures NewRules(role, replicas, u) == Err(InvalidMappingSeparator)
  {
    PlainText(u);
    RecognizeSeparator(u);
  }

  /** Such text that opens like an object with an unquoted key and does not
      end with a brace compiles to the format error. */
  lemma UnquotedCompiles(role: Role, replicas: nat, u: string)
    requires '\'' !in u
    requires |u| >= 2 && u[0] == '{'
    requires !IsSpace(u[1]) && u[1] != '"' && u[1] != '}'
    requires !IsSpace(u[|u| - 1]) && u[|u| - 1] != '}'
    ensures NewRules(role, replicas, u) == Err(InvalidFormat)
  {
    NormalizeFixed(u);
    RecognizeUnquotedKey(u);
  }

  /** An object whose first key is not quoted and whose closing brace is
      missing is a format error. */
  lemma UnquotedObjectConstraints()
    ensures NewRules(Voter, 5, unquotedObject) == Err(InvalidFormat)
  {
    UnquotedObjectUnquoted();
    var u := unquotedObject;
    assert u[1] == '+' && u[|u| - 1] == '4';
    UnquotedCompiles(Voter, 5, u);
  }

  /** Text written with `:` where a map's key and count would go, but no
      quotes, is a mapping-separator error. */
  lemma WrongSeparatorConstraints()
    ensures NewRules(Voter, 6, wrongSeparator) == Err(InvalidMappingSeparator)
  {
    WrongSeparatorUnquoted();
    WrongSeparatorFlagged();
    var u := wrongSeparator;
    assert u[0] == '{' && u[|u| - 1] == '}';
    FlaggedCompiles(Voter, 6, u);
  }
}
