/** The textual side of the compiler: quote normalization, a recognizer for
    the three accepted shapes (empty text, a JSON array of strings, a JSON
    object from strings to integers), the printer it inverts, and the
    separator-misuse heuristic used for text that is not recognized. */
module SpecText {
  import opened Results
  import opened Strings

  /** One entry of the map form: a comma-joined token list and its count. */
  datatype Entry = Entry(key: string, count: int)

  /** What the recognizer makes of a constraint text. `Bad` carries the
      error kind for text of no accepted shape. */
  datatype Spec =
    | Empty
    | Array(tokens: seq<string>)
    | Map(entries: seq<Entry>)
    | Bad(error: Error)

  /** Turns every single quote into a double quote, so that a
      Python-dict-like spelling reads as JSON. */
  function Normalize(s: string): (r: string)
    ensures |r| == |s|
    ensures forall i :: 0 <= i < |s| ==> r[i] == (if s[i] == '\'' then '"' else s[i])
  {
    if |s| == 0 then [] else [if s[0] == '\'' then '"' else s[0]] + Normalize(s[1..])
  }

  /** Normalization works character by character, so it distributes over
      concatenation. */
  lemma NormalizeAppend(a: string, b: string)
    ensures Normalize(a + b) == Normalize(a) + Normalize(b)
  {
    assert forall i :: 0 <= i < |a + b| ==> (a + b)[i] == if i < |a| then a[i] else b[i - |a|];
  }

  predicate IsDigit(c: char) {
    '0' <= c <= '9'
  }

  /** Text made of white space only. */
  predicate Blank(s: string) {
    forall i :: 0 <= i < |s| ==> IsSpace(s[i])
  }

  /** Strings the recognizer reads between two double quotes: no quote and
      no backslash (escape sequences are not part of the grammar). */
  predicate Quotable(t: string) {
    '"' !in t && '\\' !in t
  }

  /** A string literal without escapes: `"`, content, `"`. Returns the
      content and the text after the closing quote. */
  function ParseQuoted(s: string): (r: Option<(string, string)>)
    ensures r.Some? ==> |r.value.1| < |s|
  {
    if |s| == 0 || s[0] != '"' then None
    else match IndexOf(s[1..], '"')
      case None => None
      case Some(k) =>
        if '\\' in s[1..k + 1] then None
        else Some((s[1..k + 1], s[k + 2..]))
  }

  /** A successful ParseQuoted splits its input into the literal and the rest. */
  lemma ParseQuotedShape(s: string)
    requires ParseQuoted(s).Some?
    ensures var (t, rest) := ParseQuoted(s).value;
      s == ['"'] + t + ['"'] + rest && Quotable(t)
  {
    var k := IndexOf(s[1..], '"').value;
    IndexOfSpec(s[1..], '"');
    assert s[1..][..k] == s[1..k + 1];
    assert s == ['"'] + s[1..k + 1] + ['"'] + s[k + 2..];
  }

  /** Length of the run of decimal digits that starts `s`. */
  function DigitRun(s: string): (k: nat)
    ensures k <= |s|
  {
    if |s| > 0 && IsDigit(s[0]) then 1 + DigitRun(s[1..]) else 0
  }

  /** DigitRun stops at the first character that is not a digit. */
  lemma {:induction false} DigitRunSpec(s: string)
    ensures var k := DigitRun(s);
      (forall i :: 0 <= i < k ==> IsDigit(s[i])) && (k == |s| || !IsDigit(s[k]))
  {
    if |s| > 0 && IsDigit(s[0]) {
      DigitRunSpec(s[1..]);
    }
  }

  function DigitValue(c: char): nat {
    if IsDigit(c) then c as int - '0' as int else 0
  }

  /** Decimal value of a digit string, most significant digit first. */
  function DigitsValue(ds: string): nat
  {
    if |ds| == 0 then 0 else 10 * DigitsValue(ds[..|ds| - 1]) + DigitValue(ds[|ds| - 1])
  }

  /** An integer literal: an optional `-` then at least one digit. */
  function ParseInt(s: string): (r: Option<(int, string)>)
    ensures r.Some? ==> |r.value.1| < |s|
  {
    if |s| > 0 && s[0] == '-' then
      var k := DigitRun(s[1..]);
      if k == 0 then None
      else
        var n: int := DigitsValue(s[1..k + 1]);
        Some((-n, s[k + 1..]))
    else
      var k := DigitRun(s);
      if k == 0 then None else Some((DigitsValue(s[..k]), s[k..]))
  }

  /** The elements of a non-empty array after its `[`, up to and including
      the closing `]`; returns the strings and the text after `]`. */
  function ParseItems(s: string): (r: Option<(seq<string>, string)>)
    ensures r.Some? ==> |r.value.1| < |s|
    decreases |s|
  {
    var q := ParseQuoted(s);
    if q.None? then None
    else
      var u := TrimLeft(q.value.1);
      if |u| > 0 && u[0] == ']' then Some(([q.value.0], u[1..]))
      else if |u| > 0 && u[0] == ',' then
        var more := ParseItems(TrimLeft(u[1..]));
        if more.None? then None else Some(([q.value.0] + more.value.0, more.value.1))
      else None
  }

  /** A JSON array of strings. */
  function ParseArray(s: string): (r: Option<(seq<string>, string)>)
  {
    if |s| == 0 || s[0] != '[' then None
    else
      var u := TrimLeft(s[1..]);
      if |u| > 0 && u[0] == ']' then Some(([], u[1..])) else ParseItems(u)
  }

  /** One object entry, `"key" : integer`, and the text after the integer. */
  function ParseEntry(s: string): (r: Option<(Entry, string)>)
    ensures r.Some? ==> |r.value.1| < |s|
  {
    var q := ParseQuoted(s);
    if q.None? then None
    else
      var u := TrimLeft(q.value.1);
      if |u| == 0 || u[0] != ':' then None
      else
        var n := ParseInt(TrimLeft(u[1..]));
        if n.None? then None
        else Some((Entry(q.value.0, n.value.0), n.value.1))
  }

  /** The entries of a non-empty object after its `{`, up to and including
      the closing `}`; returns the entries and the text after `}`. */
  function ParseEntries(s: string): (r: Option<(seq<Entry>, string)>)
    ensures r.Some? ==> |r.value.1| < |s|
    decreases |s|
  {
    var h := ParseEntry(s);
    if h.None? then None
    else
      var v := TrimLeft(h.value.1);
      if |v| > 0 && v[0] == '}' then Some(([h.value.0], v[1..]))
      else if |v| > 0 && v[0] == ',' then
        var more := ParseEntries(TrimLeft(v[1..]));
        if more.None? then None else Some(([h.value.0] + more.value.0, more.value.1))
      else None
  }

  /** A JSON object from strings to integers. */
  function ParseObject(s: string): (r: Option<(seq<Entry>, string)>)
  {
    if |s| == 0 || s[0] != '{' then None
    else
      var u := TrimLeft(s[1..]);
      if |u| > 0 && u[0] == '}' then Some(([], u[1..])) else ParseEntries(u)
  }

  /** No two entries share a key. The recognizer rejects an object that
      repeats a key; this is a choice of the model, since a lenient
      decoder could instead keep one of the values. */
  predicate DistinctKeys(es: seq<Entry>) {
    forall i, j :: 0 <= i < j < |es| ==> es[i].key != es[j].key
  }

  /** The array or object a trimmed text spells out, if it spells one out
      completely. */
  function Structured(u: string): Option<Spec>
  {
    if |u| > 0 && u[0] == '[' then
      match ParseArray(u)
      case Some((ts, rest)) => if rest == [] then Some(Array(ts)) else None
      case None => None
    else if |u| > 0 && u[0] == '{' then
      match ParseObject(u)
      case Some((es, rest)) => if rest == [] && DistinctKeys(es) then Some(Map(es)) else None
      case None => None
    else None
  }

  /** The separator-misuse heuristic: text braced like an object whose
      inside has no quoted key but holds both a token's `=` and a count's
      `:` was most likely meant as a map written with the token/count
      separator in the wrong place. */
  predicate SeparatorMisuse(u: string) {
    && |u| >= 2
    && u[0] == '{'
    && u[|u| - 1] == '}'
    && '"' !in u[1..|u| - 1]
    && '=' in u[1..|u| - 1]
    && ':' in u[1..|u| - 1]
  }

  /** Classifies a (normalized) constraint text. */
  function Recognize(text: string): (r: Spec)
  {
    var u := Trim(text);
    if u == [] then Empty
    else match Structured(u)
      case Some(spec) => spec
      case None => Bad(if SeparatorMisuse(u) then InvalidMappingSeparator else InvalidFormat)
  }
}
