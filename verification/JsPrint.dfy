/**
  JSON values as the page holds them and JSON.stringify on them (section 25.5.2
  of ECMA-262 2024): strings are sequences of UTF-16 code units, objects keep
  their properties in own-key order, numbers are their printed tokens.
*/
module JsPrint {
  import opened Prelude

  type CodeUnit = u: nat | u < 0x10000

  type Str = seq<CodeUnit>

  predicate NumberUnit(u: CodeUnit) {
    48 <= u <= 57 || u == 43 || u == 45 || u == 46 || u == 69 || u == 101
  }

  /** What Number::toString prints for a finite number. */
  type Token = t: Str | t != [] && forall i | 0 <= i < |t| :: NumberUnit(t[i]) witness [48]

  datatype Value =
    | Null
    | Bool(b: bool)
    | Num(token: Token)
    | Text(s: Str)
    | Arr(items: seq<Value>)
    | Obj(props: seq<Prop>)

  datatype Prop = Prop(key: Str, value: Value)

  // ----- QuoteJSONString -----

  predicate Lead(u: CodeUnit) { 0xD800 <= u < 0xDC00 }

  predicate Trail(u: CodeUnit) { 0xDC00 <= u < 0xE000 }

  function UnicodeEscape(u: CodeUnit): Str {
    [92, 117, Hex(u / 4096), Hex(u / 256 % 16), Hex(u / 16 % 16), Hex(u % 16)]
  }

  function Short(u: CodeUnit): CodeUnit {
    if u == 8 then 98 else if u == 9 then 116 else if u == 10 then 110 else if u == 12 then 102
    else if u == 13 then 114 else u
  }

  /** The first code point of a string and how it is printed. */
  datatype Atom = Atom(taken: Str, printed: Str)

  function FirstAtom(s: Str): Atom
    requires s != []
  {
    var u := s[0];
    if Lead(u) && |s| > 1 && Trail(s[1]) then Atom(s[..2], s[..2])
    else if u in {8, 9, 10, 12, 13, 34, 92} then Atom([u], [92, Short(u)])
    else if u < 32 || Lead(u) || Trail(u) then Atom([u], UnicodeEscape(u))
    else Atom([u], [u])
  }

  function EscapeAll(s: Str): Str {
    if s == [] then []
    else var a := FirstAtom(s); a.printed + EscapeAll(s[|a.taken|..])
  }

  function Quote(s: Str): Str {
    [34] + (EscapeAll(s) + [34])
  }

  // ----- SerializeJSONProperty -----

  function Print(v: Value): Str {
    match v
    case Null => [110, 117, 108, 108]
    case Bool(b) => if b then [116, 114, 117, 101] else [102, 97, 108, 115, 101]
    case Num(t) => t
    case Text(s) => Quote(s)
    case Arr(items) => [91] + (if items == [] then [93] else Print(items[0]) + PrintItems(items[1..]))
    case Obj(props) => [123] + (if props == [] then [125] else PrintProp(props[0]) + PrintProps(props[1..]))
  }

  function PrintItems(items: seq<Value>): Str {
    if items == [] then [93] else [44] + (Print(items[0]) + PrintItems(items[1..]))
  }

  function PrintProp(p: Prop): Str {
    Quote(p.key) + ([58] + Print(p.value))
  }

  function PrintProps(props: seq<Prop>): Str {
    if props == [] then [125] else [44] + (PrintProp(props[0]) + PrintProps(props[1..]))
  }

  // ----- reading it back -----

  /** The code units of a word of the basic plane. */
  function Units(word: string): Str {
    seq(|word|, i requires 0 <= i < |word| => if word[i] as int < 0x10000 then word[i] as int else 0)
  }

  /** What was read and what follows it. */
  datatype Read<+T> = Fail | Got(value: T, rest: Str)

  /** The value of a hexadecimal digit of either case, or 16. */
  function Digit(u: CodeUnit): nat {
    if 48 <= u <= 57 then u - 48 else if 97 <= u <= 102 then u - 87 else if 65 <= u <= 70 then u - 55 else 16
  }

  predicate FourHex(s: Str) {
    |s| == 4 && forall i | 0 <= i < 4 :: Digit(s[i]) < 16
  }

  function HexValue(s: Str): CodeUnit
    requires FourHex(s)
  {
    Digit(s[0]) * 4096 + Digit(s[1]) * 256 + Digit(s[2]) * 16 + Digit(s[3])
  }

  /** What a two-character escape stands for. */
  function Unescape(u: CodeUnit): Option<CodeUnit> {
    if u == 'b' as int then Some(8) else if u == 't' as int then Some(9) else if u == 'n' as int then Some(10)
    else if u == 'f' as int then Some(12) else if u == 'r' as int then Some(13)
    else if u == '"' as int || u == '\\' as int || u == '/' as int then Some(u) else None
  }

  function Prepend(u: CodeUnit, r: Read<Str>): Read<Str> {
    if r.Fail? then Fail else Got([u] + r.value, r.rest)
  }

  /** The characters of a string and its closing quote (section 7 of RFC 8259). */
  function ReadChars(s: Str): (r: Read<Str>)
    ensures r.Got? ==> |r.rest| < |s|
  {
    if s == [] then Fail
    else if s[0] == '"' as int then Got([], s[1..])
    else if s[0] < 32 then Fail
    else if s[0] != '\\' as int then Prepend(s[0], ReadChars(s[1..]))
    else if |s| >= 6 && s[1] == 'u' as int && FourHex(s[2..6]) then Prepend(HexValue(s[2..6]), ReadChars(s[6..]))
    else if |s| >= 2 && Unescape(s[1]).Some? then Prepend(Unescape(s[1]).value, ReadChars(s[2..]))
    else Fail
  }

  /** The longest run of number characters. */
  function NumberRun(s: Str): (n: nat)
    ensures n <= |s| && forall i | 0 <= i < n :: NumberUnit(s[i])
  {
    if s == [] || !NumberUnit(s[0]) then 0 else 1 + NumberRun(s[1..])
  }

  /** A word, a number or a string (sections 3, 6 and 7 of RFC 8259). */
  function ReadScalar(s: Str): (r: Read<Value>)
    requires s != []
    ensures r.Got? ==> |r.rest| < |s|
  {
    if s[0] == 'n' as int then (if Units("null") <= s then Got(Null, s[4..]) else Fail)
    else if s[0] == 't' as int then (if Units("true") <= s then Got(Bool(true), s[4..]) else Fail)
    else if s[0] == 'f' as int then (if Units("false") <= s then Got(Bool(false), s[5..]) else Fail)
    else if NumberUnit(s[0]) then Got(Num(s[..NumberRun(s)]), s[NumberRun(s)..])
    else if s[0] == '"' as int then
      (match ReadChars(s[1..])
       case Fail => Fail
       case Got(t, rest) => Got(Text(t), rest))
    else Fail
  }

  /** A value, without white space between its tokens. */
  function ReadValue(s: Str): (r: Read<Value>)
    ensures r.Got? ==> |r.rest| < |s|
    decreases |s|, 1
  {
    if s == [] then Fail
    else if s[0] == '[' as int then ReadArray(s)
    else if s[0] == '{' as int then ReadObject(s)
    else ReadScalar(s)
  }

  /** An array (section 5). */
  function ReadArray(s: Str): (r: Read<Value>)
    requires s != []
    ensures r.Got? ==> |r.rest| < |s|
    decreases |s|, 0
  {
    if |s| > 1 && s[1] == ']' as int then Got(Arr([]), s[2..])
    else
      match ReadItems(s[1..])
      case Fail => Fail
      case Got(items, rest) => Got(Arr(items), rest)
  }

  /** An object (section 4). */
  function ReadObject(s: Str): (r: Read<Value>)
    requires s != []
    ensures r.Got? ==> |r.rest| < |s|
    decreases |s|, 0
  {
    if |s| > 1 && s[1] == '}' as int then Got(Obj([]), s[2..])
    else
      match ReadProps(s[1..])
      case Fail => Fail
      case Got(props, rest) => Got(Obj(props), rest)
  }

  /** One value or more, and the closing bracket. */
  function ReadItems(s: Str): (r: Read<seq<Value>>)
    ensures r.Got? ==> |r.rest| < |s|
    decreases |s|, 2
  {
    match ReadValue(s)
    case Fail => Fail
    case Got(v, rest) =>
      if rest != [] && rest[0] == ']' as int then Got([v], rest[1..])
      else if rest != [] && rest[0] == ',' as int then
        (match ReadItems(rest[1..])
         case Fail => Fail
         case Got(more, last) => Got([v] + more, last))
      else Fail
  }

  /** One property or more, and the closing brace. */
  function ReadProps(s: Str): (r: Read<seq<Prop>>)
    ensures r.Got? ==> |r.rest| < |s|
    decreases |s|, 2
  {
    match ReadProp(s)
    case Fail => Fail
    case Got(p, rest) =>
      if rest != [] && rest[0] == '}' as int then Got([p], rest[1..])
      else if rest != [] && rest[0] == ',' as int then
        (match ReadProps(rest[1..])
         case Fail => Fail
         case Got(more, last) => Got([p] + more, last))
      else Fail
  }

  function ReadProp(s: Str): (r: Read<Prop>)
    ensures r.Got? ==> |r.rest| < |s|
    decreases |s|, 1
  {
    if s == [] || s[0] != '"' as int then Fail
    else
      match ReadChars(s[1..])
      case Fail => Fail
      case Got(key, rest) =>
        if rest == [] || rest[0] != ':' as int then Fail
        else
          match ReadValue(rest[1..])
          case Fail => Fail
          case Got(v, last) => Got(Prop(key, v), last)
  }

  // ----- the printed text reads back as the value -----

  lemma Assoc(a: Str, b: Str, c: Str)
    ensures (a + b) + c == a + (b + c)
  {
  }

  lemma HexDigit(d: nat)
    requires d < 16
    ensures Digit(Hex(d)) == d
  {
  }

  lemma FourDigits(u: CodeUnit)
    ensures u == u / 4096 * 4096 + u / 256 % 16 * 256 + u / 16 % 16 * 16 + u % 16
  {
    assert u / 256 == u / 16 / 16 && u / 4096 == u / 256 / 16;
    assert u == u / 16 * 16 + u % 16;
    assert u / 16 == u / 256 * 16 + u / 16 % 16;
    assert u / 256 == u / 4096 * 16 + u / 256 % 16;
  }

  lemma ReadUnicode(u: CodeUnit, r: Str)
    ensures ReadChars(UnicodeEscape(u) + r) == Prepend(u, ReadChars(r))
  {
    var e := UnicodeEscape(u);
    var s := e + r;
    assert s[2..6] == e[2..6] && s[6..] == r && s[0] == 92 && s[1] == 117;
    HexDigit(u / 4096);
    HexDigit(u / 256 % 16);
    HexDigit(u / 16 % 16);
    HexDigit(u % 16);
    FourDigits(u);
  }

  lemma ReadShort(u: CodeUnit, r: Str)
    requires u in {8, 9, 10, 12, 13, 34, 92}
    ensures ReadChars([92, Short(u)] + r) == Prepend(u, ReadChars(r))
  {
    var s := [92, Short(u)] + r;
    assert s[0] == 92 && s[1] == Short(u) && s[2..] == r;
  }

  lemma ReadPlain(u: CodeUnit, r: Str)
    requires u >= 32 && u != 34 && u != 92
    ensures ReadChars([u] + r) == Prepend(u, ReadChars(r))
  {
    assert ([u] + r)[1..] == r;
  }

  /** The string after its first code point. */
  function Rest(s: Str): Str
    requires s != []
  {
    s[|FirstAtom(s).taken|..]
  }

  function PrependAll(t: Str, r: Read<Str>): Read<Str> {
    if r.Fail? then Fail else Got(t + r.value, r.rest)
  }

  lemma {:induction false} ReadEscaped(s: Str, r: Str)
    ensures ReadChars(EscapeAll(s) + ([34] + r)) == Got(s, r)
    decreases |s|
  {
    if s == [] {
      assert EscapeAll(s) + ([34] + r) == [34] + r;
      assert ([34] + r)[1..] == r;
    } else {
      Assoc(FirstAtom(s).printed, EscapeAll(Rest(s)), [34] + r);
      ReadEscaped(Rest(s), r);
      ReadAtom(s, EscapeAll(Rest(s)) + ([34] + r));
      assert s == FirstAtom(s).taken + Rest(s);
    }
  }

  lemma ReadAtom(s: Str, more: Str)
    requires s != []
    ensures ReadChars(FirstAtom(s).printed + more) == PrependAll(FirstAtom(s).taken, ReadChars(more))
  {
    var u := s[0];
    if Lead(u) && |s| > 1 && Trail(s[1]) {
      ReadPair(u, s[1], more);
      assert s[..2] == [u, s[1]];
    } else if u in {8, 9, 10, 12, 13, 34, 92} {
      ReadShort(u, more);
    } else if u < 32 || Lead(u) || Trail(u) {
      ReadUnicode(u, more);
    } else {
      ReadPlain(u, more);
    }
  }

  lemma ReadPair(u: CodeUnit, w: CodeUnit, more: Str)
    requires Lead(u) && Trail(w)
    ensures ReadChars([u, w] + more) == PrependAll([u, w], ReadChars(more))
  {
    assert [u, w] + more == [u] + ([w] + more);
    ReadPlain(u, [w] + more);
    ReadPlain(w, more);
    var r := ReadChars(more);
    if r.Got? { assert [u] + ([w] + r.value) == [u, w] + r.value; }
  }

  lemma QuoteSplits(s: Str, r: Str)
    ensures (Quote(s) + r)[0] == 34 && (Quote(s) + r)[1..] == EscapeAll(s) + ([34] + r)
  {
    Assoc([34], EscapeAll(s) + [34], r);
    Assoc(EscapeAll(s), [34], r);
  }

  /** What may follow a value: not another character of a number. */
  predicate Ends(r: Str) {
    r == [] || !NumberUnit(r[0])
  }

  lemma {:induction false} RunOfToken(t: Str, r: Str)
    requires (forall i | 0 <= i < |t| :: NumberUnit(t[i])) && Ends(r)
    ensures NumberRun(t + r) == |t|
  {
    if t == [] {
      assert t + r == r;
    } else {
      assert (t + r)[1..] == t[1..] + r;
      RunOfToken(t[1..], r);
    }
  }

  lemma ReadWord(v: Value, r: Str)
    requires v.Null? || v.Bool?
    ensures ReadValue(Print(v) + r) == Got(v, r)
  {
    var s := Print(v) + r;
    assert s[..|Print(v)|] == Print(v) && s[|Print(v)|..] == r;
    match v
    case Null => assert Print(v) == Units("null");
    case Bool(b) =>
      assert Print(v) == if b then Units("true") else Units("false");
  }

  lemma ReadNumber(t: Token, r: Str)
    requires Ends(r)
    ensures ReadValue(Print(Num(t)) + r) == Got(Num(t), r)
  {
    var s := t + r;
    assert s[0] == t[0];
    RunOfToken(t, r);
    assert s[..|t|] == t && s[|t|..] == r;
  }

  lemma ReadText(t: Str, r: Str)
    ensures ReadValue(Print(Text(t)) + r) == Got(Text(t), r)
  {
    QuoteSplits(t, r);
    ReadEscaped(t, r);
  }

  /** A printed value starts with a character that closes nothing. */
  lemma PrintStarts(v: Value)
    ensures Print(v) != [] && Print(v)[0] != 93 && Print(v)[0] != 125
  {
  }

  lemma {:induction false} PrintReadsBack(v: Value, r: Str)
    requires Ends(r)
    ensures ReadValue(Print(v) + r) == Got(v, r)
    decreases v, 1
  {
    match v
    case Null => ReadWord(v, r);
    case Bool(_) => ReadWord(v, r);
    case Num(t) => ReadNumber(t, r);
    case Text(t) => ReadText(t, r);
    case Arr(items) => ArrReadsBack(items, r);
    case Obj(props) => ObjReadsBack(props, r);
  }

  lemma OpensWith(u: CodeUnit, body: Str, r: Str)
    ensures (([u] + body) + r)[0] == u && (([u] + body) + r)[1..] == body + r
  {
    Assoc([u], body, r);
  }

  lemma {:induction false} ArrReadsBack(items: seq<Value>, r: Str)
    ensures ReadValue(Print(Arr(items)) + r) == Got(Arr(items), r)
    decreases items, 2
  {
    var body := if items == [] then [93] else Print(items[0]) + PrintItems(items[1..]);
    var s := Print(Arr(items)) + r;
    OpensWith(91, body, r);
    if items == [] {
      assert s == [91, 93] + r;
      EmptyArray(r);
    } else {
      PrintStarts(items[0]);
      assert s[1] == Print(items[0])[0];
      ItemsReadBack(items, r);
      OpenArray(s, items, r);
    }
  }

  lemma EmptyArray(r: Str)
    ensures ReadValue([91, 93] + r) == Got(Arr([]), r)
  {
    var s := [91, 93] + r;
    assert s[0] == 91 && s[1] == 93 && s[2..] == r;
  }

  lemma OpenArray(s: Str, items: seq<Value>, r: Str)
    requires |s| > 1 && s[1] != 93 && ReadItems(s[1..]) == Got(items, r)
    ensures ReadArray(s) == Got(Arr(items), r)
  {
  }

  lemma {:induction false} ItemsReadBack(items: seq<Value>, r: Str)
    requires items != []
    ensures ReadItems((Print(items[0]) + PrintItems(items[1..])) + r) == Got(items, r)
    decreases items, 1
  {
    var v, more := items[0], items[1..];
    Assoc(Print(v), PrintItems(more), r);
    if more == [] {
      PrintReadsBack(v, [93] + r);
      assert ([93] + r)[1..] == r && items == [v];
    } else {
      var tail := Print(more[0]) + PrintItems(more[1..]);
      OpensWith(44, tail, r);
      PrintReadsBack(v, ([44] + tail) + r);
      ItemsReadBack(more, r);
      assert items == [v] + more;
    }
  }

  lemma {:induction false} PropReadsBack(p: Prop, r: Str)
    requires Ends(r)
    ensures ReadProp(PrintProp(p) + r) == Got(p, r)
    decreases p, 0
  {
    var tail := ([58] + Print(p.value)) + r;
    Assoc(Quote(p.key), [58] + Print(p.value), r);
    QuoteSplits(p.key, tail);
    ReadEscaped(p.key, tail);
    OpensWith(58, Print(p.value), r);
    PrintReadsBack(p.value, r);
  }

  lemma {:induction false} ObjReadsBack(props: seq<Prop>, r: Str)
    ensures ReadValue(Print(Obj(props)) + r) == Got(Obj(props), r)
    decreases props, 2
  {
    var body := if props == [] then [125] else PrintProp(props[0]) + PrintProps(props[1..]);
    var s := Print(Obj(props)) + r;
    OpensWith(123, body, r);
    if props == [] {
      assert s == [123, 125] + r;
      EmptyObject(r);
    } else {
      assert s[1] == PrintProp(props[0])[0] == 34;
      PropsReadBack(props, r);
      OpenObject(s, props, r);
    }
  }

  lemma EmptyObject(r: Str)
    ensures ReadValue([123, 125] + r) == Got(Obj([]), r)
  {
    var s := [123, 125] + r;
    assert s[0] == 123 && s[1] == 125 && s[2..] == r;
  }

  lemma OpenObject(s: Str, props: seq<Prop>, r: Str)
    requires |s| > 1 && s[1] != 125 && ReadProps(s[1..]) == Got(props, r)
    ensures ReadObject(s) == Got(Obj(props), r)
  {
  }

  lemma {:induction false} PropsReadBack(props: seq<Prop>, r: Str)
    requires props != []
    ensures ReadProps((PrintProp(props[0]) + PrintProps(props[1..])) + r) == Got(props, r)
    decreases props, 1
  {
    var p, more := props[0], props[1..];
    Assoc(PrintProp(p), PrintProps(more), r);
    if more == [] {
      PropReadsBack(p, [125] + r);
      LastProp(PrintProp(p) + ([125] + r), p, r);
      assert props == [p];
    } else {
      var tail := PrintProp(more[0]) + PrintProps(more[1..]);
      OpensWith(44, tail, r);
      PropReadsBack(p, ([44] + tail) + r);
      PropsReadBack(more, r);
      NextProp(PrintProp(p) + (([44] + tail) + r), p, ([44] + tail) + r, more, r);
      assert props == [p] + more;
    }
  }

  lemma LastProp(s: Str, p: Prop, r: Str)
    requires ReadProp(s) == Got(p, [125] + r)
    ensures ReadProps(s) == Got([p], r)
  {
    assert ([125] + r)[1..] == r;
  }

  lemma NextProp(s: Str, p: Prop, rest: Str, more: seq<Prop>, r: Str)
    requires ReadProp(s) == Got(p, rest) && rest != [] && rest[0] == 44 && ReadProps(rest[1..]) == Got(more, r)
    ensures ReadProps(s) == Got([p] + more, r)
  {
  }

  /** JSON.stringify prints JSON: a reader of the grammar gets the value back, and nothing is left over. */
  lemma PrintRoundTrip(v: Value)
    ensures ReadValue(Print(v)) == Got(v, [])
  {
    PrintReadsBack(v, []);
    assert Print(v) + [] == Print(v);
  }

  /** ... so it is injective on ordered trees. */
  lemma PrintInjective(v: Value, w: Value)
    requires Print(v) == Print(w)
    ensures v == w
  {
    PrintRoundTrip(v);
    PrintRoundTrip(w);
  }

  // ----- the escapes, spelled -----

  const HEX_DIGITS := "0123456789abcdef"

  lemma HexSpelled(d: nat)
    requires d < 16
    ensures Hex(d) == HEX_DIGITS[d] as int
  {
  }

  lemma UnicodeSpelled(u: CodeUnit)
    ensures UnicodeEscape(u) ==
            Units(['\\', 'u', HEX_DIGITS[u / 4096], HEX_DIGITS[u / 256 % 16], HEX_DIGITS[u / 16 % 16], HEX_DIGITS[u % 16]])
  {
    HexSpelled(u / 4096);
    HexSpelled(u / 256 % 16);
    HexSpelled(u / 16 % 16);
    HexSpelled(u % 16);
  }

  lemma OneAtom(u: CodeUnit)
    ensures EscapeAll([u]) == FirstAtom([u]).printed
  {
    assert [u][1..] == [] && EscapeAll([]) == [];
    assert EscapeAll([u]) == FirstAtom([u]).printed + [];
  }

  /** The two-character escapes. */
  const SHORT_ESCAPES: map<int, string> :=
    map[8 := "\\b", 9 := "\\t", 10 := "\\n", 12 := "\\f", 13 := "\\r", 34 := "\\\"", 92 := "\\\\"]

  /** Of the texts that read back as a character, QuoteJSONString prints the short escape, else four lower-case digits, else itself. */
  lemma EscapesSpelled(u: CodeUnit)
    ensures EscapeAll([u]) ==
            if u in SHORT_ESCAPES then Units(SHORT_ESCAPES[u])
            else if u < 32 || 0xD800 <= u < 0xE000
            then Units(['\\', 'u', HEX_DIGITS[u / 4096], HEX_DIGITS[u / 256 % 16], HEX_DIGITS[u / 16 % 16], HEX_DIGITS[u % 16]])
            else [u]
  {
    OneAtom(u);
    if u in SHORT_ESCAPES {
      ShortSpelled(u);
    } else if u < 32 || 0xD800 <= u < 0xE000 {
      UnicodeSpelled(u);
    }
  }

  lemma ShortSpelled(u: CodeUnit)
    requires u in SHORT_ESCAPES
    ensures u in {8, 9, 10, 12, 13, 34, 92} && Units(SHORT_ESCAPES[u]) == [92, Short(u)]
  {
  }
}
