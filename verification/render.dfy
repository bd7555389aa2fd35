/** The printer the recognizer inverts. A rendering may put white space at
    every place the recognizer skips it, so one printable value has many
    renderings; the lemmas here show that the recognizer reads back the
    value from each of them. */
module SpecRender {
  import opened Results
  import opened Strings
  import opened SpecText

  /** A string literal followed by the text `rest`. */
  function QuoteOnto(t: string, rest: string): string {
    ['"'] + (t + (['"'] + rest))
  }

  function DigitChar(d: nat): (c: char)
    requires d < 10
    ensures IsDigit(c)
  {
    ('0' as int + d) as char
  }

  /** Decimal digits of a natural number, without leading zeros. */
  function NatToString(n: nat): (r: string)
    ensures |r| >= 1
    ensures forall i :: 0 <= i < |r| ==> IsDigit(r[i])
  {
    if n < 10 then [DigitChar(n)] else NatToString(n / 10) + [DigitChar(n % 10)]
  }

  function IntToString(n: int): string {
    if n < 0 then ['-'] + NatToString(-n) else NatToString(n)
  }

  /** White space before and after one array element. */
  datatype ItemPad = ItemPad(before: string, after: string)

  predicate BlankItem(p: ItemPad) {
    Blank(p.before) && Blank(p.after)
  }

  predicate BlankItems(ps: seq<ItemPad>) {
    forall p :: p in ps ==> BlankItem(p)
  }

  /** Array elements from the first one through the closing `]`, followed
      by `rest`. */
  function RenderItemsOnto(ts: seq<string>, ps: seq<ItemPad>, rest: string): string
    requires |ts| == |ps| >= 1
  {
    ItemOnto(ts[0], ps[0],
      if |ts| == 1 then "]" + rest else "," + RenderItemsOnto(ts[1..], ps[1..], rest))
  }

  /** One array element, padded, followed by `rest`. */
  function ItemOnto(t: string, p: ItemPad, rest: string): string {
    p.before + QuoteOnto(t, p.after + rest)
  }

  /** A JSON array of strings followed by `rest`; `inner` is the white
      space inside an empty array. */
  function RenderArrayOnto(ts: seq<string>, inner: string, ps: seq<ItemPad>, rest: string): string
    requires |ts| == |ps|
  {
    if ts == [] then "[" + (inner + ("]" + rest)) else "[" + RenderItemsOnto(ts, ps, rest)
  }

  /** White space around the parts of one object entry. */
  datatype EntryPad = EntryPad(before: string, afterKey: string, afterColon: string, after: string)

  predicate BlankPad(p: EntryPad) {
    Blank(p.before) && Blank(p.afterKey) && Blank(p.afterColon) && Blank(p.after)
  }

  predicate BlankEntries(ps: seq<EntryPad>) {
    forall p :: p in ps ==> BlankPad(p)
  }

  /** One entry, `"key" : count`, with its padding, followed by `rest`. */
  function EntryOnto(e: Entry, p: EntryPad, rest: string): string {
    p.before + QuoteOnto(e.key, p.afterKey + (":" + (p.afterColon + (IntToString(e.count) + (p.after + rest)))))
  }

  /** Object entries from the first one through the closing `}`, followed
      by `rest`. */
  function RenderEntriesOnto(es: seq<Entry>, ps: seq<EntryPad>, rest: string): string
    requires |es| == |ps| >= 1
  {
    EntryOnto(es[0], ps[0],
      if |es| == 1 then "}" + rest else "," + RenderEntriesOnto(es[1..], ps[1..], rest))
  }

  /** A JSON object from strings to integers followed by `rest`; `inner` is
      the white space inside an empty object. */
  function RenderObjectOnto(es: seq<Entry>, inner: string, ps: seq<EntryPad>, rest: string): string
    requires |es| == |ps|
  {
    if es == [] then "{" + (inner + ("}" + rest)) else "{" + RenderEntriesOnto(es, ps, rest)
  }

  // ---------------------------------------------------------------------
  // Reading a rendering back

  /** Leading white space followed by a non-space is skipped exactly. */
  lemma TrimLeftBlank(b: string, x: string)
    requires Blank(b)
    requires x == [] || !IsSpace(x[0])
    ensures TrimLeft(b + x) == x
  {
    var s := b + x;
    TrimLeftSpec(s);
    assert s[|b|..] == x;
    assert forall i :: 0 <= i < |b| ==> s[i] == b[i];
  }

  lemma ParseQuotedRender(t: string, rest: string)
    requires Quotable(t)
    ensures ParseQuoted(QuoteOnto(t, rest)) == Some((t, rest))
  {
    var s := QuoteOnto(t, rest);
    assert s[1..] == t + ['"'] + rest;
    IndexOfPrefix(t, '"', rest);
    assert s[1..|t| + 1] == t;
    assert s[|t| + 2..] == rest;
  }

  lemma {:induction false} DigitRunPrefix(ds: string, rest: string)
    requires forall i :: 0 <= i < |ds| ==> IsDigit(ds[i])
    requires rest == [] || !IsDigit(rest[0])
    ensures DigitRun(ds + rest) == |ds|
    decreases |ds|
  {
    if |ds| > 0 {
      assert (ds + rest)[1..] == ds[1..] + rest;
      DigitRunPrefix(ds[1..], rest);
    } else {
      assert ds + rest == rest;
    }
  }

  lemma {:induction false} NatToStringValue(n: nat)
    ensures DigitsValue(NatToString(n)) == n
  {
    var r := NatToString(n);
    if n >= 10 {
      assert r[..|r| - 1] == NatToString(n / 10);
      NatToStringValue(n / 10);
    }
  }

  lemma ParseNatRender(n: nat, rest: string)
    requires rest == [] || !IsDigit(rest[0])
    ensures ParseInt(NatToString(n) + rest) == Some((n, rest))
  {
    var ds := NatToString(n);
    var s := ds + rest;
    DigitRunPrefix(ds, rest);
    assert s[..|ds|] == ds;
    assert s[|ds|..] == rest;
    NatToStringValue(n);
  }

  lemma ParseNegRender(n: nat, rest: string)
    requires n > 0
    requires rest == [] || !IsDigit(rest[0])
    ensures ParseInt(['-'] + NatToString(n) + rest) == Some((-(n as int), rest))
  {
    var ds := NatToString(n);
    var s := ['-'] + ds + rest;
    assert s[1..] == ds + rest;
    DigitRunPrefix(ds, rest);
    assert s[1..|ds| + 1] == ds;
    assert s[|ds| + 1..] == rest;
    NatToStringValue(n);
  }

  lemma ParseIntRender(n: int, rest: string)
    requires rest == [] || !IsDigit(rest[0])
    ensures ParseInt(IntToString(n) + rest) == Some((n, rest))
  {
    if n < 0 {
      ParseNegRender(-n, rest);
    } else {
      ParseNatRender(n, rest);
    }
  }

  /** ParseItems on an element followed by the closing bracket. */
  lemma ParseItemsLast(w: string, t: string, x: string, v: string)
    requires ParseQuoted(w) == Some((t, x))
    requires TrimLeft(x) == v && |v| > 0 && v[0] == ']'
    ensures ParseItems(w) == Some(([t], v[1..]))
  {
  }

  /** ParseItems on an element followed by a comma and more elements. */
  lemma ParseItemsNext(w: string, t: string, x: string, v: string, ts: seq<string>, after: string)
    requires ParseQuoted(w) == Some((t, x))
    requires TrimLeft(x) == v && |v| > 0 && v[0] == ','
    requires ParseItems(TrimLeft(v[1..])) == Some((ts, after))
    ensures ParseItems(w) == Some(([t] + ts, after))
  {
    var q := ParseQuoted(w);
    assert q.value.1 == x;
    var more := ParseItems(TrimLeft(v[1..]));
    assert more.value == (ts, after);
  }

  lemma {:induction false} ParseItemsRender(ts: seq<string>, ps: seq<ItemPad>, rest: string)
    requires |ts| == |ps| >= 1
    requires forall t :: t in ts ==> Quotable(t)
    requires BlankItems(ps)
    ensures var u := TrimLeft(RenderItemsOnto(ts, ps, rest));
      |u| > 0 && u[0] == '"' && ParseItems(u) == Some((ts, rest))
    decreases |ts|
  {
    if |ts| == 1 {
      ParseOneItemRender(ts, ps, rest);
    } else {
      assert forall x :: x in ts[1..] ==> x in ts;
      assert forall x :: x in ps[1..] ==> x in ps;
      ParseItemsRender(ts[1..], ps[1..], rest);
      ParseItemsRenderStep(ts, ps, rest);
    }
  }

  lemma ParseOneItemRender(ts: seq<string>, ps: seq<ItemPad>, rest: string)
    requires |ts| == |ps| == 1
    requires Quotable(ts[0]) && BlankItem(ps[0])
    ensures var u := TrimLeft(RenderItemsOnto(ts, ps, rest));
      |u| > 0 && u[0] == '"' && ParseItems(u) == Some((ts, rest))
  {
    assert RenderItemsOnto(ts, ps, rest) == ItemOnto(ts[0], ps[0], "]" + rest);
    ParseLastItemRender(ts[0], ps[0], rest);
    assert [ts[0]] == ts;
  }

  /** The first element read in front of the elements after it. */
  lemma ParseItemsRenderStep(ts: seq<string>, ps: seq<ItemPad>, rest: string)
    requires |ts| == |ps| >= 2
    requires Quotable(ts[0]) && BlankItem(ps[0])
    requires ParseItems(TrimLeft(RenderItemsOnto(ts[1..], ps[1..], rest))) == Some((ts[1..], rest))
    ensures var u := TrimLeft(RenderItemsOnto(ts, ps, rest));
      |u| > 0 && u[0] == '"' && ParseItems(u) == Some((ts, rest))
  {
    var more := RenderItemsOnto(ts[1..], ps[1..], rest);
    assert RenderItemsOnto(ts, ps, rest) == ItemOnto(ts[0], ps[0], "," + more);
    ParseNextItemRender(ts[0], ps[0], more, ts[1..], rest);
    assert [ts[0]] + ts[1..] == ts;
  }

  /** One rendered element followed by `v`, read up to `v`. */
  lemma ParseItemOnto(t: string, p: ItemPad, v: string)
    requires Quotable(t) && BlankItem(p)
    requires |v| > 0 && !IsSpace(v[0])
    ensures var q := QuoteOnto(t, p.after + v);
      && TrimLeft(ItemOnto(t, p, v)) == q
      && ParseQuoted(q) == Some((t, p.after + v))
      && TrimLeft(p.after + v) == v
  {
    var x := p.after + v;
    TrimLeftBlank(p.before, QuoteOnto(t, x));
    ParseQuotedRender(t, x);
    TrimLeftBlank(p.after, v);
  }

  /** The last element of an array, followed by its closing bracket. */
  lemma ParseLastItemRender(t: string, p: ItemPad, rest: string)
    requires Quotable(t) && BlankItem(p)
    ensures var u := TrimLeft(ItemOnto(t, p, "]" + rest));
      |u| > 0 && u[0] == '"' && ParseItems(u) == Some(([t], rest))
  {
    var v := "]" + rest;
    ParseItemOnto(t, p, v);
    assert v[1..] == rest;
    ParseItemsLast(QuoteOnto(t, p.after + v), t, p.after + v, v);
  }

  /** An element followed by a comma and the text of further elements. */
  lemma ParseNextItemRender(t: string, p: ItemPad, more: string, ts: seq<string>, rest: string)
    requires Quotable(t) && BlankItem(p)
    requires ParseItems(TrimLeft(more)) == Some((ts, rest))
    ensures var u := TrimLeft(ItemOnto(t, p, "," + more));
      |u| > 0 && u[0] == '"' && ParseItems(u) == Some(([t] + ts, rest))
  {
    var v := "," + more;
    ParseItemOnto(t, p, v);
    assert v[1..] == more;
    ParseItemsNext(QuoteOnto(t, p.after + v), t, p.after + v, v, ts, rest);
  }

  lemma ParseArrayRender(ts: seq<string>, inner: string, ps: seq<ItemPad>, rest: string)
    requires |ts| == |ps|
    requires forall t :: t in ts ==> Quotable(t)
    requires Blank(inner) && BlankItems(ps)
    ensures ParseArray(RenderArrayOnto(ts, inner, ps, rest)) == Some((ts, rest))
  {
    var s := RenderArrayOnto(ts, inner, ps, rest);
    if ts == [] {
      assert s[1..] == inner + ("]" + rest);
      TrimLeftBlank(inner, "]" + rest);
      assert ("]" + rest)[1..] == rest;
    } else {
      assert s[1..] == RenderItemsOnto(ts, ps, rest);
      ParseItemsRender(ts, ps, rest);
    }
  }

  lemma IntToStringStart(n: int)
    ensures |IntToString(n)| > 0
    ensures !IsSpace(IntToString(n)[0])
  {
    if n >= 0 {
      assert IsDigit(IntToString(n)[0]);
    }
  }

  /** ParseEntries on an entry followed by the closing brace. */
  lemma ParseEntriesLast(s: string, e: Entry, y: string, w: string)
    requires ParseEntry(s) == Some((e, y))
    requires TrimLeft(y) == w && |w| > 0 && w[0] == '}'
    ensures ParseEntries(s) == Some(([e], w[1..]))
  {
  }

  /** ParseEntries on an entry followed by a comma and more entries. */
  lemma ParseEntriesNext(s: string, e: Entry, y: string, w: string, es: seq<Entry>, after: string)
    requires ParseEntry(s) == Some((e, y))
    requires TrimLeft(y) == w && |w| > 0 && w[0] == ','
    requires ParseEntries(TrimLeft(w[1..])) == Some((es, after))
    ensures ParseEntries(s) == Some(([e] + es, after))
  {
    var h := ParseEntry(s);
    assert h.value.1 == y;
    var more := ParseEntries(TrimLeft(w[1..]));
    assert more.value == (es, after);
  }

  /** One rendered entry, read up to the comma or brace after it. */
  lemma ParseEntryRender(e: Entry, p: EntryPad, w: string)
    requires Quotable(e.key)
    requires BlankPad(p)
    requires |w| > 0 && (w[0] == '}' || w[0] == ',')
    ensures var s := TrimLeft(EntryOnto(e, p, w));
      && |s| > 0 && s[0] == '"'
      && ParseEntry(s) == Some((e, p.after + w))
      && TrimLeft(p.after + w) == w
  {
    var y := p.after + w;
    var c := IntToString(e.count) + y;
    var z := p.afterColon + c;
    var x := p.afterKey + (":" + z);
    var q := QuoteOnto(e.key, x);
    TrimLeftBlank(p.before, q);
    ParseQuotedRender(e.key, x);
    TrimLeftBlank(p.afterKey, ":" + z);
    assert (":" + z)[1..] == z;
    IntToStringStart(e.count);
    TrimLeftBlank(p.afterColon, c);
    assert y == [] || !IsDigit(y[0]) by {
      if |p.after| > 0 {
        assert IsSpace(p.after[0]);
      }
    }
    ParseIntRender(e.count, y);
    TrimLeftBlank(p.after, w);
  }

  lemma {:induction false} ParseEntriesRender(es: seq<Entry>, ps: seq<EntryPad>, rest: string)
    requires |es| == |ps| >= 1
    requires forall e :: e in es ==> Quotable(e.key)
    requires BlankEntries(ps)
    ensures var u := TrimLeft(RenderEntriesOnto(es, ps, rest));
      |u| > 0 && u[0] == '"' && ParseEntries(u) == Some((es, rest))
    decreases |es|
  {
    if |es| == 1 {
      ParseOneEntryRender(es, ps, rest);
    } else {
      assert forall x :: x in es[1..] ==> x in es;
      assert forall x :: x in ps[1..] ==> x in ps;
      ParseEntriesRender(es[1..], ps[1..], rest);
      ParseEntriesRenderStep(es, ps, rest);
    }
  }

  lemma ParseOneEntryRender(es: seq<Entry>, ps: seq<EntryPad>, rest: string)
    requires |es| == |ps| == 1
    requires Quotable(es[0].key) && BlankPad(ps[0])
    ensures var u := TrimLeft(RenderEntriesOnto(es, ps, rest));
      |u| > 0 && u[0] == '"' && ParseEntries(u) == Some((es, rest))
  {
    assert RenderEntriesOnto(es, ps, rest) == EntryOnto(es[0], ps[0], "}" + rest);
    ParseLastEntryRender(es[0], ps[0], rest);
    assert [es[0]] == es;
  }

  /** The first entry read in front of the entries after it. */
  lemma ParseEntriesRenderStep(es: seq<Entry>, ps: seq<EntryPad>, rest: string)
    requires |es| == |ps| >= 2
    requires Quotable(es[0].key) && BlankPad(ps[0])
    requires ParseEntries(TrimLeft(RenderEntriesOnto(es[1..], ps[1..], rest))) == Some((es[1..], rest))
    ensures var u := TrimLeft(RenderEntriesOnto(es, ps, rest));
      |u| > 0 && u[0] == '"' && ParseEntries(u) == Some((es, rest))
  {
    var more := RenderEntriesOnto(es[1..], ps[1..], rest);
    assert RenderEntriesOnto(es, ps, rest) == EntryOnto(es[0], ps[0], "," + more);
    ParseNextEntryRender(es[0], ps[0], more, es[1..], rest);
    assert [es[0]] + es[1..] == es;
  }

  /** An entry followed by a comma and the text of further entries. */
  lemma ParseNextEntryRender(e: Entry, p: EntryPad, more: string, es: seq<Entry>, rest: string)
    requires Quotable(e.key) && BlankPad(p)
    requires ParseEntries(TrimLeft(more)) == Some((es, rest))
    ensures var u := TrimLeft(EntryOnto(e, p, "," + more));
      |u| > 0 && u[0] == '"' && ParseEntries(u) == Some(([e] + es, rest))
  {
    var w := "," + more;
    ParseEntryRender(e, p, w);
    assert w[1..] == more;
    ParseEntriesNext(TrimLeft(EntryOnto(e, p, w)), e, p.after + w, w, es, rest);
  }

  /** The last entry of an object, followed by its closing brace. */
  lemma ParseLastEntryRender(e: Entry, p: EntryPad, rest: string)
    requires Quotable(e.key) && BlankPad(p)
    ensures var u := TrimLeft(EntryOnto(e, p, "}" + rest));
      |u| > 0 && u[0] == '"' && ParseEntries(u) == Some(([e], rest))
  {
    var w := "}" + rest;
    ParseEntryRender(e, p, w);
    assert w[1..] == rest;
    ParseEntriesLast(TrimLeft(EntryOnto(e, p, w)), e, p.after + w, w);
  }

  lemma ParseObjectRender(es: seq<Entry>, inner: string, ps: seq<EntryPad>, rest: string)
    requires |es| == |ps|
    requires forall e :: e in es ==> Quotable(e.key)
    requires Blank(inner) && BlankEntries(ps)
    ensures ParseObject(RenderObjectOnto(es, inner, ps, rest)) == Some((es, rest))
  {
    var s := RenderObjectOnto(es, inner, ps, rest);
    if es == [] {
      assert s[1..] == inner + ("}" + rest);
      TrimLeftBlank(inner, "}" + rest);
      assert ("}" + rest)[1..] == rest;
    } else {
      assert s[1..] == RenderEntriesOnto(es, ps, rest);
      ParseEntriesRender(es, ps, rest);
    }
  }
}
