/**
  The bytes of an encoded document are JSON text: the UTF-8 form of what
  JSON.stringify prints for the same document, which a reader of the grammar turns
  back into it.
*/
module JsonText {
  import opened NulScan
  import opened E = JsonEncode
  import J = JsPrint

  // ----- from scalar values to code units and back to bytes -----

  /** A scalar value in UTF-16. */
  function Utf16(c: Char): J.Str {
    if c < 0x10000 then [c] else [0xD800 + (c - 0x10000) / 0x400, 0xDC00 + (c - 0x10000) % 0x400]
  }

  function Wide(t: Text): J.Str {
    if t == [] then [] else Utf16(t[0]) + Wide(t[1..])
  }

  /** The scalar value of a surrogate pair. */
  function Paired(lead: int, trail: int): Char
    requires 0xD800 <= lead < 0xDC00 && 0xDC00 <= trail < 0xE000
  {
    0x10000 + (lead - 0xD800) * 0x400 + (trail - 0xDC00)
  }

  /** From UTF-16 to UTF-8; a lone surrogate becomes U+FFFD. */
  function Narrow(s: J.Str): seq<Byte> {
    if s == [] then []
    else if J.Lead(s[0]) && |s| > 1 && J.Trail(s[1]) then
      Utf8(Paired(s[0], s[1])) + Narrow(s[2..])
    else if J.Lead(s[0]) || J.Trail(s[0]) then Utf8(0xFFFD) + Narrow(s[1..])
    else Utf8(s[0]) + Narrow(s[1..])
  }

  /** The document as the page would hold it. */
  function AsValue(d: Doc): J.Value {
    match d
    case Null => J.Null
    case Bool(b) => J.Bool(b)
    case Number(t) => J.Num(t)
    case Str(t) => J.Text(Wide(t))
    case List(items) => J.Arr(AsItems(items))
    case Dict(fields) => J.Obj(AsProps(fields))
  }

  function AsItems(items: seq<Doc>): seq<J.Value> {
    if items == [] then [] else [AsValue(items[0])] + AsItems(items[1..])
  }

  function AsProps(fields: seq<Field>): seq<J.Prop> {
    if fields == [] then [] else [J.Prop(Wide(fields[0].key), AsValue(fields[0].value))] + AsProps(fields[1..])
  }

  // ----- pieces -----

  predicate Ascii(s: J.Str) {
    forall i | 0 <= i < |s| :: s[i] < 128
  }

  lemma {:induction false} NarrowAscii(s: J.Str, r: J.Str)
    requires Ascii(s)
    ensures Narrow(s + r) == s + Narrow(r)
  {
    if s == [] {
      assert s + r == r;
    } else {
      assert (s + r)[1..] == s[1..] + r;
      NarrowAscii(s[1..], r);
      assert s == [s[0]] + s[1..];
    }
  }

  lemma NarrowChar(c: Char, r: J.Str)
    ensures Narrow(Utf16(c) + r) == Utf8(c) + Narrow(r)
  {
    var s := Utf16(c) + r;
    assert s[|Utf16(c)|..] == r;
    if c >= 0x10000 {
      var k := c - 0x10000;
      assert k == k / 0x400 * 0x400 + k % 0x400;
      assert s[0] == 0xD800 + k / 0x400 && s[1] == 0xDC00 + k % 0x400;
    }
  }

  /** What QuoteJSONString prints for a scalar value. */
  function Printed(c: Char): J.Str {
    J.FirstAtom(Utf16(c)).printed
  }

  lemma EscapeChar(c: Char, t: J.Str)
    ensures J.EscapeAll(Utf16(c) + t) == Printed(c) + J.EscapeAll(t)
  {
    var s := Utf16(c) + t;
    if c >= 0x10000 {
      assert s[..2] == Utf16(c) == Utf16(c)[..2] && s[2..] == t;
    } else {
      assert s[0] == c && s[1..] == t;
    }
  }

  lemma NarrowPrinted(c: Char, r: J.Str)
    ensures Narrow(Printed(c) + r) == Escape(c) + Narrow(r)
  {
    if c in {8, 9, 10, 12, 13, 34, 92} {
      NarrowAscii(Printed(c), r);
    } else if c < 32 {
      assert Printed(c) == J.UnicodeEscape(c) == Escape(c);
      NarrowAscii(Printed(c), r);
    } else {
      assert Printed(c) == Utf16(c) && Escape(c) == Utf8(c);
      NarrowChar(c, r);
    }
  }

  lemma Regroup(a: J.Str, b: J.Str, c: J.Str)
    ensures (a + b) + c == a + (b + c)
  {
  }

  lemma RegroupBytes(a: seq<Byte>, b: seq<Byte>, c: seq<Byte>)
    ensures (a + b) + c == a + (b + c)
  {
  }

  lemma {:induction false} NarrowEscaped(t: Text, r: J.Str)
    ensures Narrow(J.EscapeAll(Wide(t)) + r) == E.EscapeAll(t) + Narrow(r)
  {
    if t == [] {
      assert J.EscapeAll(Wide(t)) + r == r;
    } else {
      EscapeChar(t[0], Wide(t[1..]));
      var rest := J.EscapeAll(Wide(t[1..]));
      Regroup(Printed(t[0]), rest, r);
      NarrowPrinted(t[0], rest + r);
      NarrowEscaped(t[1..], r);
      RegroupBytes(Escape(t[0]), E.EscapeAll(t[1..]), Narrow(r));
    }
  }

  lemma NarrowQuote(t: Text, r: J.Str)
    ensures Narrow(J.Quote(Wide(t)) + r) == E.Quote(t) + Narrow(r)
  {
    var body := J.EscapeAll(Wide(t));
    Regroup([34], body + [34], r);
    Regroup(body, [34], r);
    NarrowAscii([34], body + ([34] + r));
    NarrowEscaped(t, [34] + r);
    NarrowAscii([34], r);
    Wrapped(34, E.EscapeAll(t), 34, Narrow(r));
  }

  // ----- documents -----

  lemma {:induction false} NarrowDoc(d: Doc, r: J.Str)
    ensures Narrow(J.Print(AsValue(d)) + r) == Encode(d) + Narrow(r)
    decreases d, 1
  {
    match d
    case Str(t) => NarrowQuote(t, r);
    case List(items) => NarrowList(items, r);
    case Dict(fields) => NarrowDict(fields, r);
    case _ => NarrowAscii(J.Print(AsValue(d)), r);
  }

  /** A separator before what is not the first, and the end. */
  function Comma(more: bool): seq<Byte> {
    if more then [44] else []
  }

  lemma {:induction false} NarrowList(items: seq<Doc>, r: J.Str)
    ensures Narrow(J.Print(J.Arr(AsItems(items))) + r) == Encode(List(items)) + Narrow(r)
    decreases items, 2
  {
    var vs := AsItems(items);
    if items == [] {
      NarrowAscii([91, 93], r);
      assert J.Print(J.Arr(vs)) == [91, 93] == Encode(List(items));
    } else {
      var body := J.Print(vs[0]) + J.PrintItems(vs[1..]);
      Regroup([91], body, r);
      NarrowAscii([91], body + r);
      NarrowBody(items, r);
      Wrapped(91, EncodeItems(items), 93, Narrow(r));
    }
  }

  lemma {:induction false} NarrowBody(items: seq<Doc>, r: J.Str)
    requires items != []
    ensures var vs := AsItems(items);
            Narrow((J.Print(vs[0]) + J.PrintItems(vs[1..])) + r) == EncodeItems(items) + ([93] + Narrow(r))
    decreases items, 1
  {
    var vs := AsItems(items);
    assert vs[1..] == AsItems(items[1..]);
    Regroup(J.Print(vs[0]), J.PrintItems(vs[1..]), r);
    NarrowDoc(items[0], J.PrintItems(vs[1..]) + r);
    NarrowMore(items[1..], r);
    JoinPieces(Encode(items[0]), Comma(|items| > 1), EncodeItems(items[1..]), [93] + Narrow(r));
  }

  lemma JoinPieces(head: seq<Byte>, comma: seq<Byte>, tail: seq<Byte>, rest: seq<Byte>)
    ensures head + (comma + (tail + rest)) == (head + comma + tail) + rest
  {
  }

  lemma JoinField(key: seq<Byte>, value: seq<Byte>, rest: seq<Byte>)
    ensures key + ([58] + (value + rest)) == (key + [58] + value) + rest
  {
  }

  lemma Wrapped(open: Byte, body: seq<Byte>, close: Byte, rest: seq<Byte>)
    ensures [open] + (body + ([close] + rest)) == ([open] + body + [close]) + rest
  {
  }

  lemma {:induction false} NarrowMore(items: seq<Doc>, r: J.Str)
    ensures Narrow(J.PrintItems(AsItems(items)) + r) == Comma(items != []) + (EncodeItems(items) + ([93] + Narrow(r)))
    decreases items, 2
  {
    var vs := AsItems(items);
    if items == [] {
      NarrowAscii([93], r);
    } else {
      var body := J.Print(vs[0]) + J.PrintItems(vs[1..]);
      Regroup([44], body, r);
      NarrowAscii([44], body + r);
      NarrowBody(items, r);
    }
  }

  lemma {:induction false} NarrowDict(fields: seq<Field>, r: J.Str)
    ensures Narrow(J.Print(J.Obj(AsProps(fields))) + r) == Encode(Dict(fields)) + Narrow(r)
    decreases fields, 2
  {
    var ps := AsProps(fields);
    if fields == [] {
      NarrowAscii([123, 125], r);
      assert J.Print(J.Obj(ps)) == [123, 125] == Encode(Dict(fields));
    } else {
      var body := J.PrintProp(ps[0]) + J.PrintProps(ps[1..]);
      Regroup([123], body, r);
      NarrowAscii([123], body + r);
      NarrowMembers(fields, r);
      Wrapped(123, EncodeFields(fields), 125, Narrow(r));
    }
  }

  lemma {:induction false} NarrowField(f: Field, r: J.Str)
    ensures Narrow(J.PrintProp(J.Prop(Wide(f.key), AsValue(f.value))) + r) ==
            (E.Quote(f.key) + [58] + Encode(f.value)) + Narrow(r)
    decreases f, 0
  {
    var text := J.Print(AsValue(f.value));
    Regroup(J.Quote(Wide(f.key)), [58] + text, r);
    NarrowQuote(f.key, ([58] + text) + r);
    Regroup([58], text, r);
    NarrowAscii([58], text + r);
    NarrowDoc(f.value, r);
    JoinField(E.Quote(f.key), Encode(f.value), Narrow(r));
  }

  lemma {:induction false} NarrowMembers(fields: seq<Field>, r: J.Str)
    requires fields != []
    ensures var ps := AsProps(fields);
            Narrow((J.PrintProp(ps[0]) + J.PrintProps(ps[1..])) + r) == EncodeFields(fields) + ([125] + Narrow(r))
    decreases fields, 1
  {
    var f, ps := fields[0], AsProps(fields);
    assert ps[1..] == AsProps(fields[1..]);
    Regroup(J.PrintProp(ps[0]), J.PrintProps(ps[1..]), r);
    NarrowField(f, J.PrintProps(ps[1..]) + r);
    NarrowMoreMembers(fields[1..], r);
    JoinPieces(E.Quote(f.key) + [58] + Encode(f.value), Comma(|fields| > 1), EncodeFields(fields[1..]), [125] + Narrow(r));
  }

  lemma {:induction false} NarrowMoreMembers(fields: seq<Field>, r: J.Str)
    ensures Narrow(J.PrintProps(AsProps(fields)) + r) == Comma(fields != []) + (EncodeFields(fields) + ([125] + Narrow(r)))
    decreases fields, 2
  {
    var ps := AsProps(fields);
    if fields == [] {
      NarrowAscii([125], r);
    } else {
      var body := J.PrintProp(ps[0]) + J.PrintProps(ps[1..]);
      Regroup([44], body, r);
      NarrowAscii([44], body + r);
      NarrowMembers(fields, r);
    }
  }

  /** The encoder's bytes are the UTF-8 form of the text JSON.stringify prints, which reads back as the document. */
  lemma EncodeIsJson(d: Doc)
    ensures Encode(d) == Narrow(J.Print(AsValue(d)))
    ensures J.ReadValue(J.Print(AsValue(d))) == J.Got(AsValue(d), [])
  {
    NarrowDoc(d, []);
    assert J.Print(AsValue(d)) + [] == J.Print(AsValue(d)) && Encode(d) + [] == Encode(d);
    J.PrintRoundTrip(AsValue(d));
  }
}
