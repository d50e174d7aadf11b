/**
 The JSON grammar of RFC 8259 as a parser, and documents with free white space
 whose text the parser reads back.
 */
module JsonText {
  import opened Seqs
  import Decimal

  /** A JSON value. A number is kept as the text that spells it. */
  datatype Json =
    | Null
    | Boolean(b: bool)
    | Number(lexeme: string)
    | String(s: string)
    | Array(items: seq<Json>)
    | Object(members: seq<(string, Json)>)

  // ----- White space (section 2)

  predicate IsBlank(c: char) { c == ' ' || c == '\t' || c == '\n' || c == '\r' }

  type Blank = s: string | forall i :: 0 <= i < |s| ==> IsBlank(s[i])

  function Skip(s: string): (r: string)
    ensures |r| <= |s| && (r == [] || !IsBlank(r[0]))
  {
    if s != [] && IsBlank(s[0]) then Skip(s[1..]) else s
  }

  predicate StartsWith(s: string, c: char) { s != [] && s[0] == c }

  // ----- Numbers (section 6)

  predicate IsDigit(c: char) { '0' <= c <= '9' }

  /** The number of leading digits. */
  function Digits(s: string): (n: nat)
    ensures n <= |s| && (n < |s| ==> !IsDigit(s[n]))
  {
    if s != [] && IsDigit(s[0]) then 1 + Digits(s[1..]) else 0
  }

  /** The length of the integer part, if there is one; no leading zeros. */
  function IntegerPart(s: string): (r: Option<nat>)
    ensures r.Some? ==> 0 < r.value <= |s|
  {
    var sign := if StartsWith(s, '-') then 1 else 0;
    var digits := s[sign..];
    if StartsWith(digits, '0') then Some(sign + 1)
    else if Digits(digits) > 0 then Some(sign + Digits(digits))
    else None
  }

  /** The length of the fraction, which may be empty. */
  function Fraction(s: string): (r: Option<nat>)
    ensures r.Some? ==> r.value <= |s|
  {
    if !StartsWith(s, '.') then Some(0)
    else if Digits(s[1..]) > 0 then Some(1 + Digits(s[1..]))
    else None
  }

  /** The length of the exponent, which may be empty. */
  function Exponent(s: string): (r: Option<nat>)
    ensures r.Some? ==> r.value <= |s|
  {
    if !StartsWith(s, 'e') && !StartsWith(s, 'E') then Some(0)
    else
      var sign := if StartsWith(s[1..], '-') || StartsWith(s[1..], '+') then 1 else 0;
      var n := Digits(s[1 + sign..]);
      if n > 0 then Some(1 + sign + n) else None
  }

  function ParseNumber(s: string): (r: Option<(Json, string)>)
    ensures r.Some? ==> |r.value.1| < |s|
  {
    var i := IntegerPart(s);
    if i.None? then None
    else
      var f := Fraction(s[i.value..]);
      if f.None? then None
      else
        var e := Exponent(s[i.value + f.value..]);
        if e.None? then None
        else
          var n := i.value + f.value + e.value;
          Some((Number(s[..n]), s[n..]))
  }

  // ----- Strings (section 7)

  function HexValue(c: char): (r: Option<nat>)
    ensures r.Some? ==> r.value < 16
  {
    if IsDigit(c) then Some(c as int - '0' as int)
    else if 'a' <= c <= 'f' then Some(c as int - 'a' as int + 10)
    else if 'A' <= c <= 'F' then Some(c as int - 'A' as int + 10)
    else None
  }

  /** The value of four hexadecimal digits. */
  function Unit(s: string): (r: Option<nat>)
    ensures r.Some? ==> |s| >= 4 && r.value < 0x10000
  {
    if |s| < 4 then None
    else
      var a, b, c, d := HexValue(s[0]), HexValue(s[1]), HexValue(s[2]), HexValue(s[3]);
      if a.None? || b.None? || c.None? || d.None? then None
      else Some(4096 * a.value + 256 * b.value + 16 * c.value + d.value)
  }

  /** A character given by one code unit or by a surrogate pair. */
  function ParseUnicode(s: string): (r: Option<(char, string)>)
    ensures r.Some? ==> |r.value.1| < |s|
  {
    var u := Unit(s);
    if u.None? then None
    else if u.value < 0xD800 || 0xE000 <= u.value then Some((u.value as char, s[4..]))
    else if u.value >= 0xDC00 || !StartsWith(s[4..], '\\') || !StartsWith(s[5..], 'u') then None
    else
      var low := Unit(s[6..]);
      if low.None? || low.value < 0xDC00 || 0xE000 <= low.value then None
      else Some(((0x10000 + (u.value - 0xD800) * 0x400 + (low.value - 0xDC00)) as char, s[10..]))
  }

  /** What follows a backslash. */
  function ParseEscape(s: string): (r: Option<(char, string)>)
    ensures r.Some? ==> |r.value.1| < |s|
  {
    if s == [] then None
    else if s[0] == '"' || s[0] == '\\' || s[0] == '/' then Some((s[0], s[1..]))
    else if s[0] == 'b' then Some((8 as char, s[1..]))
    else if s[0] == 'f' then Some((12 as char, s[1..]))
    else if s[0] == 'n' then Some(('\n', s[1..]))
    else if s[0] == 'r' then Some(('\r', s[1..]))
    else if s[0] == 't' then Some(('\t', s[1..]))
    else if s[0] == 'u' then ParseUnicode(s[1..])
    else None
  }

  /** The rest of a string whose opening quote was read. */
  function ParseChars(s: string): (r: Option<(string, string)>)
    ensures r.Some? ==> |r.value.1| < |s|
    decreases |s|
  {
    if s == [] || s[0] < ' ' then None
    else if s[0] == '"' then Some(([], s[1..]))
    else
      var first := if s[0] == '\\' then ParseEscape(s[1..]) else Some((s[0], s[1..]));
      if first.None? then None
      else
        var more := ParseChars(first.value.1);
        if more.None? then None else Some(([first.value.0] + more.value.0, more.value.1))
  }

  function ParseString(s: string): (r: Option<(string, string)>)
    ensures r.Some? ==> |r.value.1| < |s|
  {
    if StartsWith(s, '"') then ParseChars(s[1..]) else None
  }

  // ----- Values (sections 3 to 5)

  function ParseWord(s: string, word: string, value: Json): (r: Option<(Json, string)>)
    requires word != []
    ensures r.Some? ==> |r.value.1| < |s|
  {
    if word <= s then Some((value, s[|word|..])) else None
  }

  function ParseValue(s: string): (r: Option<(Json, string)>)
    ensures r.Some? ==> |r.value.1| < |s|
    decreases |s|, 0
  {
    if s == [] then None
    else if s[0] == '"' then
      var r := ParseString(s);
      if r.None? then None else Some((String(r.value.0), r.value.1))
    else if s[0] == '{' then
      var t := Skip(s[1..]);
      if StartsWith(t, '}') then Some((Object([]), t[1..]))
      else
        var r := ParseMembers(t);
        if r.None? then None else Some((Object(r.value.0), r.value.1))
    else if s[0] == '[' then
      var t := Skip(s[1..]);
      if StartsWith(t, ']') then Some((Array([]), t[1..]))
      else
        var r := ParseItems(t);
        if r.None? then None else Some((Array(r.value.0), r.value.1))
    else if s[0] == 't' then ParseWord(s, "true", Boolean(true))
    else if s[0] == 'f' then ParseWord(s, "false", Boolean(false))
    else if s[0] == 'n' then ParseWord(s, "null", Null)
    else ParseNumber(s)
  }

  /** A name, a colon and a value. */
  function ParseMember(s: string): (r: Option<((string, Json), string)>)
    ensures r.Some? ==> |r.value.1| < |s|
    decreases |s|, 1
  {
    var name := ParseString(s);
    if name.None? then None
    else
      var t := Skip(name.value.1);
      if !StartsWith(t, ':') then None
      else
        var value := ParseValue(Skip(t[1..]));
        if value.None? then None else Some(((name.value.0, value.value.0), value.value.1))
  }

  /** One or more members and the closing brace. */
  function ParseMembers(s: string): (r: Option<(seq<(string, Json)>, string)>)
    ensures r.Some? ==> |r.value.1| < |s|
    decreases |s|, 2
  {
    var first := ParseMember(s);
    if first.None? then None
    else
      var t := Skip(first.value.1);
      if StartsWith(t, '}') then Some(([first.value.0], t[1..]))
      else if !StartsWith(t, ',') then None
      else
        var more := ParseMembers(Skip(t[1..]));
        if more.None? then None else Some(([first.value.0] + more.value.0, more.value.1))
  }

  /** One or more values and the closing bracket. */
  function ParseItems(s: string): (r: Option<(seq<Json>, string)>)
    ensures r.Some? ==> |r.value.1| < |s|
    decreases |s|, 2
  {
    var first := ParseValue(s);
    if first.None? then None
    else
      var t := Skip(first.value.1);
      if StartsWith(t, ']') then Some(([first.value.0], t[1..]))
      else if !StartsWith(t, ',') then None
      else
        var more := ParseItems(Skip(t[1..]));
        if more.None? then None else Some(([first.value.0] + more.value.0, more.value.1))
  }

  /** The value that a whole text spells. */
  function Parse(s: string): Option<Json> {
    var r := ParseValue(Skip(s));
    if r.None? || Skip(r.value.1) != [] then None else Some(r.value.0)
  }

  // ----- Writing strings and integers

  function Hex(d: nat): char
    requires d < 16
  {
    if d < 10 then ('0' as int + d) as char else ('a' as int + d - 10) as char
  }

  predicate IsAsciiControl(c: char) { c < ' ' || c as int == 127 }

  predicate NeedsEscape(c: char) { IsAsciiControl(c) || c == '"' || c == '\\' }

  function EscapeChar(c: char): string {
    if c == '\n' then "\\n"
    else if c == '\r' then "\\r"
    else if c == '\t' then "\\t"
    else if c == '"' then "\\\""
    else if c == '\\' then "\\\\"
    else if IsAsciiControl(c) then "\\u00" + [Hex(c as int / 16), Hex(c as int % 16)]
    else [c]
  }

  function Escape(s: string): string {
    if s == [] then [] else EscapeChar(s[0]) + Escape(s[1..])
  }

  function Quoted(s: string): string { "\"" + Escape(s) + "\"" }

  function Numeral(n: nat): (r: string)
    ensures r != [] && forall i :: 0 <= i < |r| ==> IsDigit(r[i])
    ensures r[0] == '0' ==> |r| == 1
  {
    var ds := Decimal.Digits(n);
    seq(|ds|, i requires 0 <= i < |ds| => ('0' as int + ds[i]) as char)
  }

  function IntText(v: int): string {
    if v < 0 then "-" + Numeral(-v) else Numeral(v)
  }

  /** The integer that a number without fraction and exponent stands for. */
  function IntValue(lexeme: string): int {
    if StartsWith(lexeme, '-') then -NatValue(lexeme[1..]) else NatValue(lexeme)
  }

  function NatValue(s: string): int {
    if s == [] then 0 else 10 * NatValue(s[..|s| - 1]) + (s[|s| - 1] as int - '0' as int)
  }

  // ----- Documents

  /** A value together with the white space that is used to write it. */
  datatype Doc =
    | Num(v: int)
    | Truth(b: bool)
    | Str(s: string)
    | List(start: Blank, docs: seq<Doc>, between: Blank, end: Blank)
    | Record(start: Blank, entries: seq<Entry>, between: Blank, end: Blank)

  datatype Entry = Entry(name: string, doc: Doc)

  function Text(d: Doc): string
    decreases d, 0
  {
    match d
    case Num(v) => IntText(v)
    case Truth(b) => if b then "true" else "false"
    case Str(s) => Quoted(s)
    case List(start, docs, between, end) => "[" + start + TextItems(docs, between) + end + "]"
    case Record(start, entries, between, end) => "{" + start + TextEntries(entries, between) + end + "}"
  }

  function TextItems(docs: seq<Doc>, between: Blank): string
    decreases docs, 1
  {
    if docs == [] then []
    else if |docs| == 1 then Text(docs[0])
    else Text(docs[0]) + "," + between + TextItems(docs[1..], between)
  }

  function TextEntry(e: Entry): string
    decreases e, 1
  {
    Quoted(e.name) + ": " + Text(e.doc)
  }

  function TextEntries(entries: seq<Entry>, between: Blank): string
    decreases entries, 2
  {
    if entries == [] then []
    else if |entries| == 1 then TextEntry(entries[0])
    else TextEntry(entries[0]) + "," + between + TextEntries(entries[1..], between)
  }

  /** The value without its layout. */
  function Tree(d: Doc): Json
    decreases d, 0
  {
    match d
    case Num(v) => Number(IntText(v))
    case Truth(b) => Boolean(b)
    case Str(s) => String(s)
    case List(_, docs, _, _) => Array(TreeItems(docs))
    case Record(_, entries, _, _) => Object(TreeEntries(entries))
  }

  function TreeItems(docs: seq<Doc>): seq<Json>
    decreases docs, 1
  {
    if docs == [] then [] else [Tree(docs[0])] + TreeItems(docs[1..])
  }

  function TreeEntry(e: Entry): (string, Json)
    decreases e, 1
  {
    (e.name, Tree(e.doc))
  }

  function TreeEntries(entries: seq<Entry>): seq<(string, Json)>
    decreases entries, 2
  {
    if entries == [] then [] else [TreeEntry(entries[0])] + TreeEntries(entries[1..])
  }

  // ----- Reading back what was written

  lemma {:induction false} SkipBlank(w: Blank, t: string)
    requires t == [] || !IsBlank(t[0])
    ensures Skip(w + t) == t
    decreases |w|
  {
    if w == [] {
      assert w + t == t;
    } else {
      var v: Blank := w[1..];
      assert (w + t)[1..] == v + t;
      SkipBlank(v, t);
    }
  }

  lemma SkipNothing(t: string)
    requires t == [] || !IsBlank(t[0])
    ensures Skip(t) == t
  {}

  lemma {:induction false} DigitsOf(ds: string, rest: string)
    requires forall i :: 0 <= i < |ds| ==> IsDigit(ds[i])
    requires rest == [] || !IsDigit(rest[0])
    ensures Digits(ds + rest) == |ds|
    decreases |ds|
  {
    if ds == [] {
      assert ds + rest == rest;
    } else {
      assert (ds + rest)[1..] == ds[1..] + rest;
      DigitsOf(ds[1..], rest);
    }
  }

  /** The end of the text, or what may follow a value inside another one. */
  predicate Ends(rest: string) {
    rest == [] || IsBlank(rest[0]) || rest[0] == ',' || rest[0] == ']' || rest[0] == '}'
  }

  lemma IntegerPartOfNumeral(ds: string, rest: string)
    requires ds != [] && (ds[0] == '0' ==> |ds| == 1)
    requires forall i :: 0 <= i < |ds| ==> IsDigit(ds[i])
    requires Ends(rest)
    ensures IntegerPart(ds + rest) == Some(|ds|)
    ensures IntegerPart("-" + ds + rest) == Some(1 + |ds|)
  {
    DigitsOf(ds, rest);
    hide Digits;
    assert (ds + rest)[0..] == ds + rest;
    assert ("-" + ds + rest)[1..] == ds + rest;
  }

  lemma IntegerPartOf(v: int, rest: string)
    requires Ends(rest)
    ensures IntegerPart(IntText(v) + rest) == Some(|IntText(v)|)
  {
    hide Numeral, IntegerPart;
    IntegerPartOfNumeral(Numeral(if v < 0 then -v else v), rest);
  }

  lemma ParseInt(v: int, rest: string)
    requires Ends(rest)
    ensures ParseNumber(IntText(v) + rest) == Some((Number(IntText(v)), rest))
  {
    IntegerPartOf(v, rest);
    var text := IntText(v);
    var s := text + rest;
    hide IntText, IntegerPart;
    assert s[|text|..] == rest && s[..|text|] == text;
  }

  /** The text of an integer is the text of no other integer. */
  lemma {:induction false} NatValueOfNumeral(n: nat)
    ensures NatValue(Numeral(n)) == n
    decreases n
  {
    var s := Numeral(n);
    if n >= 10 {
      NatValueOfNumeral(n / 10);
      assert Decimal.Digits(n) == Decimal.Digits(n / 10) + [n % 10];
      assert s[..|s| - 1] == Numeral(n / 10);
    } else {
      assert s[..0] == [];
    }
  }

  lemma ValueOfIntText(v: int)
    ensures IntValue(IntText(v)) == v
  {
    hide Numeral, NatValue;
    if v < 0 {
      NatValueOfNumeral(-v);
      assert IntText(v)[1..] == Numeral(-v);
    } else {
      NatValueOfNumeral(v);
    }
  }

  // ----- Strings

  function ParseFirst(s: string): Option<(char, string)>
    requires s != []
  {
    if s[0] == '\\' then ParseEscape(s[1..]) else Some((s[0], s[1..]))
  }

  lemma HexOf(d: nat)
    requires d < 16
    ensures HexValue(Hex(d)) == Some(d)
  {}

  lemma ParseControl(c: char, t: string)
    requires IsAsciiControl(c)
    ensures ParseUnicode("00" + [Hex(c as int / 16), Hex(c as int % 16)] + t) == Some((c, t))
  {
    var s := "00" + [Hex(c as int / 16), Hex(c as int % 16)] + t;
    HexOf(c as int / 16);
    HexOf(c as int % 16);
    assert s[4..] == t;
    assert Unit(s) == Some(c as int);
  }

  lemma ParseEscapedChar(c: char, t: string)
    ensures
      var s := EscapeChar(c) + t;
      s[0] >= ' ' && s[0] != '"' && ParseFirst(s) == Some((c, t))
  {
    var s := EscapeChar(c) + t;
    if |EscapeChar(c)| == 2 {
      assert s[1..][1..] == t;
    } else if IsAsciiControl(c) {
      ParseControl(c, t);
      assert s[1..][1..] == "00" + [Hex(c as int / 16), Hex(c as int % 16)] + t;
    } else {
      assert s[1..] == t;
    }
  }

  lemma {:induction false} ParseEscaped(s: string, rest: string)
    ensures ParseChars(Escape(s) + "\"" + rest) == Some((s, rest))
    decreases |s|
  {
    hide EscapeChar, ParseEscape;
    var text := Escape(s) + "\"" + rest;
    if s == [] {
      assert text[1..] == rest;
    } else {
      var t := Escape(s[1..]) + "\"" + rest;
      assert text == EscapeChar(s[0]) + t;
      ParseEscapedChar(s[0], t);
      ParseEscaped(s[1..], rest);
      assert [s[0]] + s[1..] == s;
    }
  }

  /** Unescaping inverts escaping. */
  lemma ParseQuoted(s: string, rest: string)
    ensures ParseString(Quoted(s) + rest) == Some((s, rest))
  {
    ParseEscaped(s, rest);
    assert (Quoted(s) + rest)[1..] == Escape(s) + "\"" + rest;
  }

  /** A string without characters to escape is left as it is. */
  lemma {:induction false} EscapePlain(s: string)
    requires forall i :: 0 <= i < |s| ==> !NeedsEscape(s[i])
    ensures Escape(s) == s
    decreases |s|
  {
    if s != [] {
      EscapePlain(s[1..]);
    }
  }

  // ----- Documents

  /** The text of a value starts with neither white space nor a closing bracket. */
  lemma FirstOfText(d: Doc)
    ensures Text(d) != [] && !IsBlank(Text(d)[0]) && Text(d)[0] != ']'
  {}

  lemma {:induction false} ParseDoc(d: Doc, rest: string)
    requires Ends(rest)
    ensures ParseValue(Text(d) + rest) == Some((Tree(d), rest))
    decreases d, 0
  {
    hide ParseItems, ParseMembers, ParseNumber, Skip;
    match d
    case Num(v) =>
      ParseInt(v, rest);
    case Truth(b) =>
      assert Text(d) <= Text(d) + rest && (Text(d) + rest)[|Text(d)|..] == rest;
    case Str(t) =>
      ParseQuoted(t, rest);
    case List(start, docs, between, end) =>
      ParseList(d, rest);
    case Record(start, entries, between, end) =>
      ParseRecord(d, rest);
  }

  /** What an opening bracket or brace leads to. */
  lemma Opened(s: string, t: string)
    requires Skip(s) == t
    ensures StartsWith(t, ']') ==> ParseValue("[" + s) == Some((Array([]), t[1..]))
    ensures !StartsWith(t, ']') && ParseItems(t).Some? ==>
              ParseValue("[" + s) == Some((Array(ParseItems(t).value.0), ParseItems(t).value.1))
    ensures StartsWith(t, '}') ==> ParseValue("{" + s) == Some((Object([]), t[1..]))
    ensures !StartsWith(t, '}') && ParseMembers(t).Some? ==>
              ParseValue("{" + s) == Some((Object(ParseMembers(t).value.0), ParseMembers(t).value.1))
  {
    hide ParseItems, ParseMembers, ParseNumber, ParseString, ParseWord, Skip;
    assert ("[" + s)[1..] == s && ("{" + s)[1..] == s;
  }

  lemma EmptyText(between: Blank)
    ensures TextItems([], between) == [] && TreeItems([]) == []
    ensures TextEntries([], between) == [] && TreeEntries([]) == []
  {}

  lemma FirstOfItems(docs: seq<Doc>, between: Blank)
    requires docs != []
    ensures var s := TextItems(docs, between); s != [] && !IsBlank(s[0]) && s[0] != ']'
  {
    FirstOfText(docs[0]);
    hide Text;
  }

  lemma {:induction false} ParseList(d: Doc, rest: string)
    requires Ends(rest) && d.List?
    ensures ParseValue(Text(d) + rest) == Some((Tree(d), rest))
    decreases d.docs, 5
  {
    hide TextItems, TreeItems, ParseItems, ParseValue, Skip;
    var items := TextItems(d.docs, d.between);
    var tail := items + d.end + "]" + rest;
    assert Text(d) + rest == "[" + (d.start + tail);
    if d.docs == [] {
      EmptyText(d.between);
      var w: Blank := d.start + d.end;
      assert d.start + tail == w + ("]" + rest);
      SkipBlank(w, "]" + rest);
      Opened(d.start + tail, "]" + rest);
      assert ("]" + rest)[1..] == rest;
    } else {
      FirstOfItems(d.docs, d.between);
      SkipBlank(d.start, tail);
      Opened(d.start + tail, tail);
      ParseItemsOf(d.docs, d.between, d.end, rest);
    }
  }

  lemma {:induction false} ParseItemsOf(docs: seq<Doc>, between: Blank, end: Blank, rest: string)
    requires docs != []
    ensures ParseItems(TextItems(docs, between) + end + "]" + rest) == Some((TreeItems(docs), rest))
    decreases docs, 1
  {
    hide ParseValue, Text, Tree, Skip;
    var s := TextItems(docs, between) + end + "]" + rest;
    if |docs| == 1 {
      var after := end + "]" + rest;
      assert s == Text(docs[0]) + after;
      ParseDoc(docs[0], after);
      SkipBlank(end, "]" + rest);
      assert after == end + ("]" + rest);
      assert docs[1..] == [] && TreeItems(docs) == [Tree(docs[0])];
      assert ("]" + rest)[1..] == rest;
      assert ParseItems(s) == Some(([Tree(docs[0])], rest));
    } else {
      var more := TextItems(docs[1..], between) + end + "]" + rest;
      var after := "," + between + more;
      assert s == Text(docs[0]) + after;
      ParseDoc(docs[0], after);
      FirstOfText(docs[1]);
      SkipBlank(between, more);
      SkipNothing(after);
      assert after[1..] == between + more;
      ParseItemsOf(docs[1..], between, end, rest);
    }
  }

  lemma {:induction false} ParseRecord(d: Doc, rest: string)
    requires Ends(rest) && d.Record?
    ensures ParseValue(Text(d) + rest) == Some((Tree(d), rest))
    decreases d.entries, 5
  {
    hide TextEntries, TreeEntries, ParseMembers, ParseValue, Skip;
    var items := TextEntries(d.entries, d.between);
    var tail := items + d.end + "}" + rest;
    assert Text(d) + rest == "{" + (d.start + tail);
    if d.entries == [] {
      EmptyText(d.between);
      var w: Blank := d.start + d.end;
      assert d.start + tail == w + ("}" + rest);
      SkipBlank(w, "}" + rest);
      Opened(d.start + tail, "}" + rest);
      assert ("}" + rest)[1..] == rest;
    } else {
      FirstOfEntries(d.entries, d.between);
      SkipBlank(d.start, tail);
      Opened(d.start + tail, tail);
      ParseEntriesOf(d.entries, d.between, d.end, rest);
    }
  }

  lemma FirstOfEntries(entries: seq<Entry>, between: Blank)
    requires entries != []
    ensures var s := TextEntries(entries, between); s != [] && s[0] == '"'
  {
    hide Text, Escape;
    assert TextEntry(entries[0])[0] == '"';
  }

  lemma {:induction false} ParseEntry(e: Entry, rest: string)
    requires Ends(rest)
    ensures ParseMember(TextEntry(e) + rest) == Some((TreeEntry(e), rest))
    decreases e, 1
  {
    hide ParseString, ParseValue, Text, Tree, Quoted;
    var tail := Text(e.doc) + rest;
    ParseQuoted(e.name, ": " + tail);
    assert TextEntry(e) + rest == Quoted(e.name) + (": " + tail);
    FirstOfText(e.doc);
    SkipBlank(" ", tail);
    assert (": " + tail)[1..] == " " + tail;
    ParseDoc(e.doc, rest);
  }

  lemma LastMember(s: string, m: (string, Json), after: string, rest: string)
    requires ParseMember(s) == Some((m, after)) && Skip(after) == "}" + rest
    ensures ParseMembers(s) == Some(([m], rest))
  {
    hide ParseMember, Skip;
    assert ("}" + rest)[1..] == rest;
  }

  lemma MoreMembers(s: string, m: (string, Json), after: string, next: string, more: seq<(string, Json)>, rest: string)
    requires ParseMember(s) == Some((m, after)) && StartsWith(after, ',')
    requires Skip(after[1..]) == next && ParseMembers(next) == Some((more, rest))
    ensures ParseMembers(s) == Some(([m] + more, rest))
  {
    SkipNothing(after);
    hide ParseMember, Skip;
  }

  lemma {:induction false} ParseEntriesOf(entries: seq<Entry>, between: Blank, end: Blank, rest: string)
    requires entries != []
    ensures ParseMembers(TextEntries(entries, between) + end + "}" + rest) == Some((TreeEntries(entries), rest))
    decreases entries, 2
  {
    hide ParseMember, ParseMembers, TextEntry, TreeEntry, Skip;
    var s := TextEntries(entries, between) + end + "}" + rest;
    if |entries| == 1 {
      var after := end + ("}" + rest);
      assert s == TextEntry(entries[0]) + after;
      ParseEntry(entries[0], after);
      SkipBlank(end, "}" + rest);
      assert entries[1..] == [] && TreeEntries(entries) == [TreeEntry(entries[0])];
      LastMember(s, TreeEntry(entries[0]), after, rest);
    } else {
      var more := TextEntries(entries[1..], between) + end + "}" + rest;
      var after := "," + (between + more);
      assert s == TextEntry(entries[0]) + after;
      ParseEntry(entries[0], after);
      FirstOfEntries(entries[1..], between);
      SkipBlank(between, more);
      assert after[1..] == between + more;
      ParseEntriesOf(entries[1..], between, end, rest);
      MoreMembers(s, TreeEntry(entries[0]), after, more, TreeEntries(entries[1..]), rest);
    }
  }

  /** Every document is read back as the value that it lays out. */
  lemma ParseText(d: Doc)
    ensures Parse(Text(d)) == Some(Tree(d))
  {
    FirstOfText(d);
    ParseDoc(d, []);
    assert Text(d) + [] == Text(d);
  }
}
