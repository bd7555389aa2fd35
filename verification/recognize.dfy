/** What the recognizer makes of whole constraint texts: blank text is the
    empty shape, every padded rendering of an array or object is read back
    as that array or object, what it reads back satisfies the grammar's
    restrictions, and the separator-misuse heuristic only ever fires on
    text no accepted shape covers. */
module Recognition {
  import opened Results
  import opened Strings
  import opened SpecText
  import opened SpecRender

  /** Trailing white space after a non-space is dropped exactly. */
  lemma TrimRightBlank(y: string, b: string)
    requires Blank(b)
    requires y == [] || !IsSpace(y[|y| - 1])
    ensures TrimRight(y + b) == y
  {
    var s := y + b;
    TrimRightSpec(s);
    var r := TrimRight(s);
    assert forall i :: |y| <= i < |s| ==> s[i] == b[i - |y|];
    assert |y| > 0 ==> s[|y| - 1] == y[|y| - 1];
    assert |r| == |y|;
    assert s[..|y|] == y;
  }

  /** Trim leaves nothing exactly when the text is all white space. */
  lemma TrimEmpty(s: string)
    ensures Trim(s) == [] <==> Blank(s)
  {
    TrimLeftSpec(s);
    var l := TrimLeft(s);
    TrimRightSpec(l);
    assert forall i :: |s| - |l| <= i < |s| ==> s[i] == l[i - (|s| - |l|)];
    assert l != [] ==> s[|s| - |l|] == l[0];
  }

  /** The recognizer reports the empty shape exactly for blank text. */
  lemma RecognizeEmpty(text: string)
    ensures Recognize(text) == Empty <==> Blank(text)
  {
    TrimEmpty(text);
  }

  /** A complete rendered array, with nothing after it. */
  function ArrayText(ts: seq<string>, inner: string, ps: seq<ItemPad>): string
    requires |ts| == |ps|
  {
    RenderArrayOnto(ts, inner, ps, [])
  }

  /** A complete rendered object, with nothing after it. */
  function ObjectText(es: seq<Entry>, inner: string, ps: seq<EntryPad>): string
    requires |es| == |ps|
  {
    RenderObjectOnto(es, inner, ps, [])
  }

  lemma {:induction false} RenderItemsEnd(ts: seq<string>, ps: seq<ItemPad>)
    requires |ts| == |ps| >= 1
    ensures var r := RenderItemsOnto(ts, ps, []); |r| > 0 && r[|r| - 1] == ']'
    decreases |ts|
  {
    if |ts| > 1 {
      RenderItemsEnd(ts[1..], ps[1..]);
    }
  }

  /** A rendered entry ends where the text after it ends. */
  lemma EntryOntoEnd(e: Entry, p: EntryPad, w: string)
    requires |w| > 0
    ensures var r := EntryOnto(e, p, w); |r| > 0 && r[|r| - 1] == w[|w| - 1]
  {
    var r := EntryOnto(e, p, w);
    var a := p.before + ['"'] + e.key + ['"'] + p.afterKey + ":" + p.afterColon + IntToString(e.count) + p.after;
    assert r == a + w;
  }

  /** A rendered entry starts with its key's opening quote, after its
      leading white space. */
  lemma EntryOntoStart(e: Entry, p: EntryPad, w: string)
    ensures var r := EntryOnto(e, p, w); |r| > |p.before| + 1 && r[|p.before|] == '"'
  {
  }

  lemma {:induction false} RenderEntriesEnd(es: seq<Entry>, ps: seq<EntryPad>)
    requires |es| == |ps| >= 1
    ensures var r := RenderEntriesOnto(es, ps, []); |r| > 0 && r[|r| - 1] == '}'
    decreases |es|
  {
    if |es| > 1 {
      RenderEntriesEnd(es[1..], ps[1..]);
      var w := "," + RenderEntriesOnto(es[1..], ps[1..], []);
      assert w[|w| - 1] == '}';
      EntryOntoEnd(es[0], ps[0], w);
    } else {
      EntryOntoEnd(es[0], ps[0], "}");
    }
  }

  /** A complete rendered object is braced, and a non-empty one has a
      quote inside its braces. */
  lemma ObjectTextShape(es: seq<Entry>, inner: string, ps: seq<EntryPad>)
    requires |es| == |ps|
    ensures var y := ObjectText(es, inner, ps);
      && |y| >= 2 && y[0] == '{' && y[|y| - 1] == '}'
      && (es != [] ==> '"' in y[1..|y| - 1])
  {
    var y := ObjectText(es, inner, ps);
    if es != [] {
      var z := RenderEntriesOnto(es, ps, []);
      RenderEntriesEnd(es, ps);
      assert y == "{" + z;
      var w := if |es| == 1 then "}" else "," + RenderEntriesOnto(es[1..], ps[1..], []);
      EntryOntoStart(es[0], ps[0], w);
      assert z[|ps[0].before|] == '"';
      assert y[1..|y| - 1][|ps[0].before|] == '"';
    }
  }

  /** Surrounding white space around a text that starts and ends with
      non-space characters is exactly what Trim removes. */
  lemma TrimPadded(lead: string, y: string, trail: string)
    requires Blank(lead) && Blank(trail)
    requires |y| > 0 && !IsSpace(y[0]) && !IsSpace(y[|y| - 1])
    ensures Trim(lead + y + trail) == y
  {
    assert lead + y + trail == lead + (y + trail);
    TrimLeftBlank(lead, y + trail);
    TrimRightBlank(y, trail);
  }

  /** Every padded rendering of an array of quotable strings is recognized
      as that array. */
  lemma RecognizeArrayText(lead: string, ts: seq<string>, inner: string, ps: seq<ItemPad>, trail: string)
    requires |ts| == |ps|
    requires forall t :: t in ts ==> Quotable(t)
    requires Blank(lead) && Blank(inner) && BlankItems(ps) && Blank(trail)
    ensures Recognize(lead + ArrayText(ts, inner, ps) + trail) == Array(ts)
  {
    var y := ArrayText(ts, inner, ps);
    if ts != [] {
      RenderItemsEnd(ts, ps);
      assert y[|y| - 1] == RenderItemsOnto(ts, ps, [])[|RenderItemsOnto(ts, ps, [])| - 1];
    }
    TrimPadded(lead, y, trail);
    ParseArrayRender(ts, inner, ps, []);
  }

  /** Every padded rendering of an object with distinct quotable keys is
      recognized as that object, entries in written order. */
  lemma RecognizeObjectText(lead: string, es: seq<Entry>, inner: string, ps: seq<EntryPad>, trail: string)
    requires |es| == |ps|
    requires forall e :: e in es ==> Quotable(e.key)
    requires DistinctKeys(es)
    requires Blank(lead) && Blank(inner) && BlankEntries(ps) && Blank(trail)
    ensures Recognize(lead + ObjectText(es, inner, ps) + trail) == Map(es)
  {
    var y := ObjectText(es, inner, ps);
    ObjectTextShape(es, inner, ps);
    TrimPadded(lead, y, trail);
    ParseObjectRender(es, inner, ps, []);
  }

  /** An object that names one key twice is a format error. This follows
      the recognizer's choice to reject repeated keys rather than keep one
      of their values. */
  lemma RecognizeObjectRepeated(lead: string, es: seq<Entry>, inner: string, ps: seq<EntryPad>, trail: string)
    requires |es| == |ps|
    requires forall e :: e in es ==> Quotable(e.key)
    requires !DistinctKeys(es)
    requires Blank(lead) && Blank(inner) && BlankEntries(ps) && Blank(trail)
    ensures Recognize(lead + ObjectText(es, inner, ps) + trail) == Bad(InvalidFormat)
  {
    var y := ObjectText(es, inner, ps);
    ObjectTextShape(es, inner, ps);
    TrimPadded(lead, y, trail);
    ParseObjectRender(es, inner, ps, []);
    assert Structured(y).None?;
  }

  /** Text braced like an object whose first key is not quoted, and that
      does not end with the closing brace, is a format error. */
  lemma RecognizeUnquotedKey(u: string)
    requires |u| >= 2 && u[0] == '{'
    requires !IsSpace(u[1]) && u[1] != '"' && u[1] != '}'
    requires !IsSpace(u[|u| - 1]) && u[|u| - 1] != '}'
    ensures Recognize(u) == Bad(InvalidFormat)
  {
    TrimNoSpace(u);
    assert [] + u[1..] == u[1..];
    TrimLeftBlank([], u[1..]);
    assert ParseQuoted(u[1..]).None?;
  }

  // ---------------------------------------------------------------------
  // What the recognizer reads back

  lemma {:induction false} ParseItemsQuotable(s: string)
    requires ParseItems(s).Some?
    ensures forall t :: t in ParseItems(s).value.0 ==> Quotable(t)
    decreases |s|
  {
    var q := ParseQuoted(s);
    ParseQuotedShape(s);
    var u := TrimLeft(q.value.1);
    if u[0] == ',' {
      ParseItemsQuotable(TrimLeft(u[1..]));
    }
  }

  lemma {:induction false} ParseEntriesQuotable(s: string)
    requires ParseEntries(s).Some?
    ensures forall e :: e in ParseEntries(s).value.0 ==> Quotable(e.key)
    decreases |s|
  {
    ParseQuotedShape(s);
    var v := TrimLeft(ParseEntry(s).value.1);
    if v[0] == ',' {
      ParseEntriesQuotable(TrimLeft(v[1..]));
    }
  }

  /** Whatever the recognizer accepts obeys the restricted grammar: array
      elements and object keys hold no quote and no backslash, and object
      keys are distinct. */
  lemma RecognizeSound(text: string)
    ensures Recognize(text).Array? ==> forall t :: t in Recognize(text).tokens ==> Quotable(t)
    ensures Recognize(text).Map? ==>
      DistinctKeys(Recognize(text).entries) && forall e :: e in Recognize(text).entries ==> Quotable(e.key)
  {
    var u := Trim(text);
    if u != [] && u[0] == '[' && ParseArray(u).Some? {
      var v := TrimLeft(u[1..]);
      if !(|v| > 0 && v[0] == ']') {
        ParseItemsQuotable(v);
      }
    }
    if u != [] && u[0] == '{' && ParseObject(u).Some? {
      var v := TrimLeft(u[1..]);
      if !(|v| > 0 && v[0] == '}') {
        ParseEntriesQuotable(v);
      }
    }
  }

  // ---------------------------------------------------------------------
  // The separator-misuse heuristic

  /** Text the heuristic flags is never an accepted array or object. */
  lemma SeparatorMisuseUnstructured(u: string)
    requires SeparatorMisuse(u)
    ensures Structured(u).None?
  {
    var inner := u[1..|u| - 1];
    var s1 := u[1..];
    TrimLeftSpec(s1);
    var l := TrimLeft(s1);
    var d := |s1| - |l|;
    var j :| 0 <= j < |inner| && inner[j] == '=';
    assert s1[j] == '=';
    assert d <= j;
    assert l[0] == s1[d] == inner[d];
    assert inner[d] in inner;
    if l[0] == '}' {
      assert |l[1..]| > 0;
    } else {
      assert ParseQuoted(l).None?;
    }
  }

  /** The mapping-separator error is reported exactly for non-empty text
      that the heuristic flags. */
  lemma RecognizeSeparator(text: string)
    ensures Recognize(text) == Bad(InvalidMappingSeparator) <==> SeparatorMisuse(Trim(text))
  {
    var u := Trim(text);
    if SeparatorMisuse(u) {
      SeparatorMisuseUnstructured(u);
    }
  }
}
