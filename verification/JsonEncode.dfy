/**
  The JSON text the scan reads: documents as orjson prints them, with the string
  escapes of section 7 of RFC 8259, and the meaning of the scan on that text.
*/
module JsonEncode {
  import opened Prelude
  import opened NulScan

  /** A Unicode scalar value; orjson refuses lone surrogates. */
  type Char = c: nat | c < 0xD800 || 0xE000 <= c < 0x110000

  type Text = seq<Char>

  predicate NumberByte(b: Byte) {
    48 <= b <= 57 || b == 43 || b == 45 || b == 46 || b == 69 || b == 101
  }

  /** A printed number: digits, signs, point and exponent. */
  type Token = t: seq<Byte> | t != [] && forall b | b in t :: NumberByte(b) witness [48]

  datatype Doc =
    | Null
    | Bool(value: bool)
    | Number(token: Token)
    | Str(text: Text)
    | List(items: seq<Doc>)
    | Dict(fields: seq<Field>)

  datatype Field = Field(key: Text, value: Doc)

  function Utf8(c: Char): seq<Byte> {
    if c < 0x80 then [c]
    else if c < 0x800 then [0xC0 + c / 0x40, 0x80 + c % 0x40]
    else if c < 0x10000 then [0xE0 + c / 0x1000, 0x80 + c / 0x40 % 0x40, 0x80 + c % 0x40]
    else [0xF0 + c / 0x40000, 0x80 + c / 0x1000 % 0x40, 0x80 + c / 0x40 % 0x40, 0x80 + c % 0x40]
  }

  /** What one to four bytes stand for (section 3 of RFC 3629). */
  function FromUtf8(s: seq<int>): int {
    if |s| == 1 && s[0] < 0x80 then s[0]
    else if |s| == 2 && 0xC0 <= s[0] < 0xE0 then (s[0] - 0xC0) * 0x40 + (s[1] - 0x80)
    else if |s| == 3 && 0xE0 <= s[0] < 0xF0 then (s[0] - 0xE0) * 0x1000 + (s[1] - 0x80) * 0x40 + (s[2] - 0x80)
    else if |s| == 4 && 0xF0 <= s[0] < 0xF8
    then (s[0] - 0xF0) * 0x40000 + (s[1] - 0x80) * 0x1000 + (s[2] - 0x80) * 0x40 + (s[3] - 0x80)
    else -1
  }

  /** UTF-8 reads back, in the fewest bytes, all after the first in 0x80 to 0xBF. */
  lemma Utf8RoundTrip(c: Char)
    ensures FromUtf8(Utf8(c)) == c
    ensures |Utf8(c)| == if c < 0x80 then 1 else if c < 0x800 then 2 else if c < 0x10000 then 3 else 4
    ensures forall i | 1 <= i < |Utf8(c)| :: 0x80 <= Utf8(c)[i] < 0xC0
  {
    assert c == c / 0x40 * 0x40 + c % 0x40;
    assert c / 0x40 == c / 0x1000 * 0x40 + c / 0x40 % 0x40;
    assert c / 0x1000 == c / 0x40000 * 0x40 + c / 0x1000 % 0x40;
  }

  function Escape(c: Char): seq<Byte> {
    if c == 34 then [92, 34]
    else if c == 92 then [92, 92]
    else if c == 8 then [92, 98]
    else if c == 9 then [92, 116]
    else if c == 10 then [92, 110]
    else if c == 12 then [92, 102]
    else if c == 13 then [92, 114]
    else if c < 32 then [92, 117, 48, 48, Hex(c / 16), Hex(c % 16)]
    else Utf8(c)
  }

  function EscapeAll(s: Text): seq<Byte> {
    if s == [] then [] else Escape(s[0]) + EscapeAll(s[1..])
  }

  function Quote(s: Text): seq<Byte> {
    [34] + EscapeAll(s) + [34]
  }

  function Encode(d: Doc): seq<Byte> {
    match d
    case Null => [110, 117, 108, 108]
    case Bool(v) => if v then [116, 114, 117, 101] else [102, 97, 108, 115, 101]
    case Number(t) => t
    case Str(s) => Quote(s)
    case List(items) => [91] + EncodeItems(items) + [93]
    case Dict(fields) => [123] + EncodeFields(fields) + [125]
  }

  function EncodeItems(items: seq<Doc>): seq<Byte> {
    if items == [] then []
    else Encode(items[0]) + (if |items| > 1 then [44] else []) + EncodeItems(items[1..])
  }

  function EncodeFields(fields: seq<Field>): seq<Byte> {
    if fields == [] then []
    else Quote(fields[0].key) + [58] + Encode(fields[0].value) +
         (if |fields| > 1 then [44] else []) + EncodeFields(fields[1..])
  }

  /** Some key or string of the document contains U+0000. */
  predicate HasNul(d: Doc) {
    match d
    case Str(s) => 0 in s
    case List(items) => exists x | x in items :: HasNul(x)
    case Dict(fields) => exists f | f in fields :: 0 in f.key || HasNul(f.value)
    case _ => false
  }

  // ----- lexing what was printed -----

  predicate Plain(s: seq<Byte>) {
    forall i | 0 <= i < |s| :: s[i] != BACKSLASH
  }

  lemma {:induction false} LexSkips(plain: seq<Byte>, rest: seq<Byte>)
    requires Plain(plain)
    ensures Lex(plain + rest) == Lex(rest)
  {
    if plain == [] {
      assert plain + rest == rest;
    } else {
      assert (plain + rest)[0] == plain[0];
      assert (plain + rest)[1..] == plain[1..] + rest;
      LexSkips(plain[1..], rest);
    }
  }

  lemma LexPair(b: Byte, rest: seq<Byte>)
    requires b != 117
    ensures Lex([BACKSLASH, b] + rest) == Lex(rest)
  {
    var s := [BACKSLASH, b] + rest;
    assert s[1] == b && s[2..] == rest;
  }

  lemma LexUnicode(c: Char, rest: seq<Byte>)
    requires c < 32
    ensures Lex([92, 117, 48, 48, Hex(c / 16), Hex(c % 16)] + rest) <==> c == 0 || Lex(rest)
  {
    var e := [92, 117, 48, 48, Hex(c / 16), Hex(c % 16)];
    var s := e + rest;
    assert s[..6] == e;
    assert NEEDLE <= s <==> e == NEEDLE;
    assert s[2..] == e[2..] + rest;
    LexSkips(e[2..], rest);
  }

  /** One character's escape: the lexer stops on it exactly when it is U+0000. */
  lemma LexEscape(c: Char, rest: seq<Byte>)
    ensures Lex(Escape(c) + rest) <==> c == 0 || Lex(rest)
  {
    if c in {34, 92, 8, 9, 10, 12, 13} {
      LexPair(Escape(c)[1], rest);
    } else if c < 32 {
      LexUnicode(c, rest);
    } else {
      LexSkips(Escape(c), rest);
    }
  }

  lemma {:induction false} LexText(t: Text, rest: seq<Byte>)
    ensures Lex(EscapeAll(t) + rest) <==> 0 in t || Lex(rest)
  {
    if t == [] {
      assert EscapeAll(t) + rest == rest;
    } else {
      assert EscapeAll(t) + rest == Escape(t[0]) + (EscapeAll(t[1..]) + rest);
      LexEscape(t[0], EscapeAll(t[1..]) + rest);
      LexText(t[1..], rest);
    }
  }

  lemma LexQuote(t: Text, rest: seq<Byte>)
    ensures Lex(Quote(t) + rest) <==> 0 in t || Lex(rest)
  {
    assert Quote(t) + rest == [34] + (EscapeAll(t) + ([34] + rest));
    LexSkips([34], EscapeAll(t) + ([34] + rest));
    LexText(t, [34] + rest);
    LexSkips([34], rest);
  }

  /** Brackets and braces hold no backslash. */
  lemma LexWrapped(open: Byte, body: seq<Byte>, close: Byte, rest: seq<Byte>)
    requires open != BACKSLASH && close != BACKSLASH
    ensures Lex([open] + body + [close] + rest) == Lex(body + ([close] + rest)) && Lex([close] + rest) == Lex(rest)
  {
    assert [open] + body + [close] + rest == [open] + (body + ([close] + rest));
    LexSkips([open], body + ([close] + rest));
    LexSkips([close], rest);
  }

  lemma LexWord(d: Doc, rest: seq<Byte>)
    requires d.Null? || d.Bool? || d.Number?
    ensures Lex(Encode(d) + rest) == Lex(rest)
  {
    LexSkips(Encode(d), rest);
  }

  lemma {:induction false} LexDoc(d: Doc, rest: seq<Byte>)
    ensures Lex(Encode(d) + rest) <==> HasNul(d) || Lex(rest)
    decreases d, 1
  {
    match d
    case Str(t) => LexQuote(t, rest);
    case List(items) =>
      LexWrapped(91, EncodeItems(items), 93, rest);
      LexItems(items, [93] + rest);
    case Dict(fields) =>
      LexWrapped(123, EncodeFields(fields), 125, rest);
      LexFields(fields, [125] + rest);
    case _ => LexWord(d, rest);
  }

  lemma Regroup(head: seq<Byte>, comma: seq<Byte>, tail: seq<Byte>, rest: seq<Byte>)
    ensures (head + comma + tail) + rest == head + (comma + (tail + rest))
  {
  }

  lemma {:induction false} LexItems(items: seq<Doc>, rest: seq<Byte>)
    ensures Lex(EncodeItems(items) + rest) <==> (exists x | x in items :: HasNul(x)) || Lex(rest)
    decreases items, 0
  {
    if items == [] {
      assert EncodeItems(items) + rest == rest;
    } else {
      var comma := if |items| > 1 then [44] else [];
      var more := EncodeItems(items[1..]) + rest;
      Regroup(Encode(items[0]), comma, EncodeItems(items[1..]), rest);
      LexDoc(items[0], comma + more);
      LexSkips(comma, more);
      LexItems(items[1..], rest);
      assert items == [items[0]] + items[1..];
    }
  }

  lemma {:induction false} LexField(f: Field, rest: seq<Byte>)
    ensures Lex(Quote(f.key) + [58] + Encode(f.value) + rest) <==> 0 in f.key || HasNul(f.value) || Lex(rest)
    decreases f, 0
  {
    assert Quote(f.key) + [58] + Encode(f.value) + rest == Quote(f.key) + ([58] + (Encode(f.value) + rest));
    LexQuote(f.key, [58] + (Encode(f.value) + rest));
    LexSkips([58], Encode(f.value) + rest);
    LexDoc(f.value, rest);
  }

  lemma {:induction false} LexFields(fields: seq<Field>, rest: seq<Byte>)
    ensures Lex(EncodeFields(fields) + rest) <==> (exists f | f in fields :: 0 in f.key || HasNul(f.value)) || Lex(rest)
    decreases fields, 0
  {
    if fields == [] {
      assert EncodeFields(fields) + rest == rest;
    } else {
      var f := fields[0];
      var comma := if |fields| > 1 then [44] else [];
      var more := EncodeFields(fields[1..]) + rest;
      Regroup(Quote(f.key) + [58] + Encode(f.value), comma, EncodeFields(fields[1..]), rest);
      LexField(f, comma + more);
      LexSkips(comma, more);
      LexFields(fields[1..], rest);
      assert fields == [f] + fields[1..];
    }
  }

  /** The scan's verdict on an encoded document is about the document. */
  lemma ScanMeansNul(d: Doc)
    ensures HasLive(Encode(d)) <==> HasNul(d)
  {
    ParityIsLexing(Encode(d));
    LexDoc(d, []);
    assert Encode(d) + [] == Encode(d);
  }

  /** The text of the escape: six characters, none of them a NUL. */
  const LITERAL: Text := [92, 117, 48, 48, 48, 48]

  lemma {:induction false} EscapeJoin(a: Text, b: Text)
    ensures EscapeAll(a + b) == EscapeAll(a) + EscapeAll(b)
  {
    if a == [] {
      assert a + b == b;
    } else {
      assert (a + b)[1..] == a[1..] + b;
      EscapeJoin(a[1..], b);
    }
  }

  lemma LiteralEscaped()
    ensures EscapeAll(LITERAL) == [92] + NEEDLE
  {
    assert EscapeAll(LITERAL[6..]) == [];
  }

  lemma FoundAfter(front: seq<Byte>, back: seq<Byte>)
    ensures MatchAt(front + NEEDLE + back, |front|)
  {
    var data := front + NEEDLE + back;
    assert data[|front|..|front| + 6] == NEEDLE;
  }

  lemma QuoteSplit(a: Text, b: Text)
    ensures Quote(a + LITERAL + b) == ([34] + EscapeAll(a) + [92]) + NEEDLE + (EscapeAll(b) + [34])
  {
    EscapeJoin(a + LITERAL, b);
    EscapeJoin(a, LITERAL);
    LiteralEscaped();
    Around(EscapeAll(a), EscapeAll(b));
  }

  lemma Around(x: seq<Byte>, y: seq<Byte>)
    ensures [34] + (x + ([92] + NEEDLE) + y) + [34] == ([34] + x + [92]) + NEEDLE + (y + [34])
  {
  }

  /** Wherever the literal text stands in a string it matches byte for byte, and it never makes the string a NUL. */
  lemma LiteralTextIsLegal(a: Text, b: Text)
    ensures var data := Encode(Str(a + LITERAL + b));
            MatchAt(data, |EscapeAll(a)| + 2) && (HasLive(data) <==> 0 in a || 0 in b)
  {
    LiteralMatches(a, b);
    ScanMeansNul(Str(a + LITERAL + b));
  }

  lemma LiteralMatches(a: Text, b: Text)
    ensures MatchAt(Encode(Str(a + LITERAL + b)), |EscapeAll(a)| + 2)
  {
    QuoteSplit(a, b);
    FoundAfter([34] + EscapeAll(a) + [92], EscapeAll(b) + [34]);
  }

  datatype Outcome = Ok(data: seq<Byte>) | NulError

  /** Serialize for a jsonb column: the text itself, or a refusal exactly when it holds a NUL. */
  method DumpsJsonbBytes(d: Doc) returns (r: Outcome)
    ensures r == if HasNul(d) then NulError else Ok(Encode(d))
  {
    var data := Encode(d);
    ScanMeansNul(d);
    var raised := RejectsNul(data);
    r := if raised then NulError else Ok(data);
  }
}
