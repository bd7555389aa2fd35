/** The literal texts, tokens and keys of the compiler's test table, and
    the facts about them that the scenarios need: each text is one of a
    few shapes with the table's tokens and keys filled in. */
module TableText {
  import opened Strings
  import opened Constraints
  import opened SpecText
  import opened SpecRender

  const zoneSh := Constraint("zone", In, ["sh"])
  const zoneNotBj := Constraint("zone", NotIn, ["bj"])
  const regionSh := Constraint("region", In, ["sh"])
  const neSh := Constraint("ne", In, ["sh"])

  const zoneShToken := "+zone=sh"
  const zoneNotBjToken := "-zone=bj"
  const regionShToken := "+region=sh"
  const neShToken := "+ne=sh"
  const signlessToken := "ne=sh"

  /** The keys of the table's objects besides `+zone=sh`. */
  const zoneKey := "+zone=sh,-zone=bj"
  const neKey := "+ne=sh,-zone=bj"
  const signlessKey := "nesh,-zone=bj"

  /** The texts of the table. */
  const normalArray := "[\"+zone=sh\", \"+region=sh\"]"
  const unclosedArray := "[\"+ne=sh\", \"+zone=sh\""
  const signlessArray := "[\"ne=sh\", \"+zone=sh\"]"
  const normalObject := "{\"" + zoneKey + "\":2, \"" + zoneShToken + "\": 1}"
  const singleQuotedObject := "{'" + zoneKey + "':2, '" + zoneShToken + "': 1}"
  const zeroCountObject := "{\"" + zoneKey + "\":0, \"" + zoneShToken + "\": 1}"
  const overlargeObject := "{\"" + neKey + "\":1, \"" + zoneShToken + "\": 4}"
  const unquotedObject := "{+ne=sh,-zone=bj:1, \"+zone=sh\": 4"
  const badKeyObject := "{\"" + signlessKey + "\":1, \"" + zoneShToken + "\": 4}"
  const wrongSeparator := "{+region=us-east-2:2}"

  /** The table's constraints are plain, and their tokens are the ones the
      table spells. */
  lemma TableConstraints()
    ensures Plain(zoneSh) && RenderToken(zoneSh) == zoneShToken
    ensures Plain(zoneNotBj) && RenderToken(zoneNotBj) == zoneNotBjToken
    ensures Plain(regionSh) && RenderToken(regionSh) == regionShToken
    ensures Plain(neSh) && RenderToken(neSh) == neShToken
  {
  }

  /** The table's tokens and keys can stand between double quotes and hold
      no single quote. */
  lemma TableStrings()
    ensures Quotable(zoneShToken) && '\'' !in zoneShToken
    ensures Quotable(regionShToken) && '\'' !in regionShToken
    ensures Quotable(neShToken) && '\'' !in neShToken
    ensures Quotable(signlessToken) && '\'' !in signlessToken
    ensures Quotable(zoneKey) && '\'' !in zoneKey
    ensures Quotable(neKey) && '\'' !in neKey
    ensures Quotable(signlessKey) && '\'' !in signlessKey
  {
    TableKeys();
  }

  lemma TableKeys()
    ensures Quotable(zoneKey) && '\'' !in zoneKey
    ensures Quotable(neKey) && '\'' !in neKey
    ensures Quotable(signlessKey) && '\'' !in signlessKey
  {
    assert Quotable(zoneKey) && '\'' !in zoneKey;
    assert Quotable(neKey) && '\'' !in neKey;
  }

  /** `["a", "b"]`, the shape of the table's array texts. */
  function PairArray(a: string, b: string): string {
    "[" + QuoteOnto(a, "," + (" " + QuoteOnto(b, "]")))
  }

  lemma NormalArrayText()
    ensures normalArray == PairArray(zoneShToken, regionShToken)
  {
  }

  lemma SignlessArrayText()
    ensures signlessArray == PairArray(signlessToken, zoneShToken)
  {
  }

  /** `["a", "b"` without its closing bracket. */
  function UnclosedPairArray(a: string, b: string): string {
    "[" + QuoteOnto(a, "," + (" " + QuoteOnto(b, [])))
  }

  lemma UnclosedArrayText()
    ensures unclosedArray == UnclosedPairArray(neShToken, zoneShToken)
  {
  }

  /** `{"k1":n1, "k2": n2}`, written with the quote character `q`: the
      shape of the table's object texts. */
  function PairText(q: char, k1: string, n1: string, k2: string, n2: string): string {
    "{" + ([q] + (k1 + ([q] + (":" + (n1 + ("," + (" " + ([q] + (k2 + ([q] + (":" + (" " + (n2 + "}")))))))))))))
  }

  lemma Numerals()
    ensures NatToString(0) == "0" && NatToString(1) == "1"
    ensures NatToString(2) == "2" && NatToString(4) == "4"
  {
  }

  lemma NormalObjectText()
    ensures normalObject == PairText('"', zoneKey, "2", zoneShToken, "1")
  {
  }

  lemma SingleQuotedObjectText()
    ensures singleQuotedObject == PairText('\'', zoneKey, "2", zoneShToken, "1")
  {
  }

  lemma ZeroCountObjectText()
    ensures zeroCountObject == PairText('"', zoneKey, "0", zoneShToken, "1")
  {
  }

  lemma OverlargeObjectText()
    ensures overlargeObject == PairText('"', neKey, "1", zoneShToken, "4")
  {
  }

  lemma BadKeyObjectText()
    ensures badKeyObject == PairText('"', signlessKey, "1", zoneShToken, "4")
  {
  }

  lemma UnquotedObjectUnquoted()
    ensures '\'' !in unquotedObject
  {
  }

  lemma WrongSeparatorUnquoted()
    ensures '\'' !in wrongSeparator
  {
  }

  /** `{+region=us-east-2:2}` holds both a token's `=` and a count's `:`
      inside its braces and no quote: the mapping-separator heuristic
      fires. */
  lemma WrongSeparatorFlagged()
    ensures SeparatorMisuse(wrongSeparator)
  {
    var u := wrongSeparator;
    var inner := u[1..|u| - 1];
    assert inner == "+region=us-east-2:2";
    assert inner[7] == '=' && inner[17] == ':';
  }

}
