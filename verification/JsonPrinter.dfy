/** Protocol buffer messages printed as indented JSON. */
module JsonPrinter {
  import opened Bytes
  import opened Seqs
  import opened JsonText
  import Base64

  // ----- Messages

  type I64 = v: int | -0x8000_0000_0000_0000 <= v < 0x8000_0000_0000_0000
  type U64 = v: int | 0 <= v < 0x1_0000_0000_0000_0000
  type U16 = v: int | 0 <= v < 0x1_0000

  predicate IsNameChar(c: char) { 'a' <= c <= 'z' || 'A' <= c <= 'Z' || IsDigit(c) || c == '_' }

  /** The names of fields and enum values are identifiers. */
  type Name = s: string | s != [] && forall i :: 0 <= i < |s| ==> IsNameChar(s[i]) witness "a"

  /** The keys of one map have one type. */
  datatype Key = BoolKey(b: bool) | IntKey(v: int) | TextKey(s: string)

  datatype Pair<+T> = Pair(key: Key, value: T)

  /** Values without floating point numbers. */
  datatype Value =
    | Signed(v: I64)
    | Unsigned(u: U64)
    | Flag(b: bool)
    | Words(s: string)
    | Blob(bytes: seq<Byte>)
    | Enumerator(name: Option<Name>, number: I64)
    | Message(fields: seq<Field>)

  datatype Field = Field(name: Name, timestamp: bool, content: Content)

  /** A field that may be absent, a list, or a map in some order of iteration. */
  datatype Content = Single(value: Option<Value>) | Repeated(items: seq<Value>) | Mapping(pairs: seq<Pair<Value>>)

  predicate IsEmpty(c: Content) {
    match c
    case Single(value) => value.None?
    case Repeated(items) => items == []
    case Mapping(pairs) => pairs == []
  }

  /** The cast of a `u64` to an `i64`. */
  function AsI64(u: U64): I64 { if u < 0x8000_0000_0000_0000 then u else u - 0x1_0000_0000_0000_0000 }

  // ----- The order of the entries of a map

  predicate LessText(a: string, b: string) {
    b != [] && (a == [] || a[0] < b[0] || (a[0] == b[0] && LessText(a[1..], b[1..])))
  }

  predicate Less(a: Key, b: Key) {
    match (a, b)
    case (BoolKey(x), BoolKey(y)) => !x && y
    case (IntKey(x), IntKey(y)) => x < y
    case (TextKey(x), TextKey(y)) => LessText(x, y)
    case _ => a.BoolKey? || (a.IntKey? && b.TextKey?)
  }

  function Insert<T>(p: Pair<T>, s: seq<Pair<T>>): seq<Pair<T>> {
    if s == [] || !Less(s[0].key, p.key) then [p] + s else [s[0]] + Insert(p, s[1..])
  }

  /** Stable sorting by key. */
  function Sort<T>(s: seq<Pair<T>>): seq<Pair<T>> {
    if s == [] then [] else Insert(s[0], Sort(s[1..]))
  }

  // ----- What a message denotes

  /** The alphabet of section 4 of RFC 4648. */
  function Standard(): string { seq(64, v requires 0 <= v < 64 => StandardChar(v)) }

  function StandardChar(v: nat): char
    requires v < 64
  {
    if v < 26 then ('A' as int + v) as char
    else if v < 52 then ('a' as int + v - 26) as char
    else if v < 62 then ('0' as int + v - 52) as char
    else if v == 62 then '+'
    else '/'
  }

  function Base64Text(bytes: seq<Byte>): string {
    StandardIsAlphabet();
    Base64.EncodePadded(Standard(), bytes)
  }

  lemma StandardIsAlphabet()
    ensures Base64.IsAlphabet(Standard())
  {}

  function KeyText(k: Key): string {
    match k
    case BoolKey(b) => if b then "true" else "false"
    case IntKey(v) => IntText(v)
    case TextKey(s) => s
  }

  function DenoteInt(v: int, timestamp: bool): Json {
    var n := Number(IntText(v));
    if timestamp then Object([("encoding", String("timestamp")), ("value", n)]) else n
  }

  function Denote(v: Value, timestamp: bool): Json
    decreases v, 0
  {
    match v
    case Signed(n) => DenoteInt(n, timestamp)
    case Unsigned(u) => DenoteInt(AsI64(u), timestamp)
    case Flag(b) => Boolean(b)
    case Words(s) => String(s)
    case Blob(bytes) => Object([("encoding", String("base64")), ("value", String(Base64Text(bytes)))])
    case Enumerator(name, number) => if name.Some? then String(name.value) else Number(IntText(number))
    case Message(fields) => Object(DenoteFields(fields))
  }

  /** The fields that are present, in their order. */
  function DenoteFields(fields: seq<Field>): seq<(string, Json)>
    decreases fields, 2
  {
    if fields == [] then []
    else (if IsEmpty(fields[0].content) then [] else [DenoteField(fields[0])]) + DenoteFields(fields[1..])
  }

  function DenoteField(f: Field): (string, Json)
    requires !IsEmpty(f.content)
    decreases f, 1
  {
    (f.name, DenoteContent(f.content, f.timestamp))
  }

  function DenoteContent(c: Content, timestamp: bool): Json
    requires !IsEmpty(c)
    decreases c, 1
  {
    match c
    case Single(value) => Denote(value.value, timestamp)
    case Repeated(items) => Array(DenoteItems(items, timestamp))
    case Mapping(pairs) => Object(Members(Sort(DenotePairs(pairs, timestamp))))
  }

  function DenoteItems(items: seq<Value>, timestamp: bool): seq<Json>
    decreases items, 1
  {
    if items == [] then [] else [Denote(items[0], timestamp)] + DenoteItems(items[1..], timestamp)
  }

  function DenotePair(p: Pair<Value>, timestamp: bool): Pair<Json>
    decreases p, 1
  {
    Pair(p.key, Denote(p.value, timestamp))
  }

  function DenotePairs(pairs: seq<Pair<Value>>, timestamp: bool): (r: seq<Pair<Json>>)
    ensures |r| == |pairs|
    decreases pairs, 2
  {
    if pairs == [] then [] else [DenotePair(pairs[0], timestamp)] + DenotePairs(pairs[1..], timestamp)
  }

  function Members(pairs: seq<Pair<Json>>): seq<(string, Json)> {
    if pairs == [] then [] else [(KeyText(pairs[0].key), pairs[0].value)] + Members(pairs[1..])
  }

  // ----- How it is laid out

  const INDENTATION := 4

  /** Sums and differences of a `u16`. */
  function Deeper(indent: U16): U16 { (indent + INDENTATION) % 0x1_0000 }

  function Shallower(indent: U16): U16 { (indent - INDENTATION) % 0x1_0000 }

  function Spaces(n: nat): Blank { seq(n, _ => ' ') }

  function Newline(indent: U16): Blank { "\n" + Spaces(indent) }

  function LayoutInt(v: int, timestamp: bool): Doc {
    if timestamp then Record(" ", [Entry("encoding", Str("timestamp")), Entry("value", Num(v))], " ", " ")
    else Num(v)
  }

  function Layout(v: Value, timestamp: bool, indent: U16): Doc
    decreases v, 0
  {
    match v
    case Signed(n) => LayoutInt(n, timestamp)
    case Unsigned(u) => LayoutInt(AsI64(u), timestamp)
    case Flag(b) => Truth(b)
    case Words(s) => Str(s)
    case Blob(bytes) =>
      Record(" ", [Entry("encoding", Str("base64")), Entry("value", Str(Base64Text(bytes)))], " ", "")
    case Enumerator(name, number) => if name.Some? then Str(name.value) else Num(number)
    case Message(fields) => LayoutMessage(fields, indent)
  }

  function LayoutMessage(fields: seq<Field>, indent: U16): Doc
    decreases fields, 3
  {
    var deep := Deeper(indent);
    Record(Newline(deep), LayoutFields(fields, deep), Newline(deep), Newline(indent))
  }

  function LayoutFields(fields: seq<Field>, indent: U16): seq<Entry>
    decreases fields, 2
  {
    if fields == [] then []
    else (if IsEmpty(fields[0].content) then [] else [LayoutField(fields[0], indent)])
         + LayoutFields(fields[1..], indent)
  }

  function LayoutField(f: Field, indent: U16): Entry
    requires !IsEmpty(f.content)
    decreases f, 1
  {
    Entry(f.name, LayoutContent(f.content, f.timestamp, indent))
  }

  function LayoutContent(c: Content, timestamp: bool, indent: U16): Doc
    requires !IsEmpty(c)
    decreases c, 1
  {
    var deep := Deeper(indent);
    match c
    case Single(value) => Layout(value.value, timestamp, indent)
    case Repeated(items) => List(Newline(deep), LayoutItems(items, timestamp, deep), Newline(deep), Newline(indent))
    case Mapping(pairs) =>
      Record(Newline(deep), Entries(Sort(LayoutPairs(pairs, timestamp, deep))), Newline(deep), Newline(indent))
  }

  function LayoutItems(items: seq<Value>, timestamp: bool, indent: U16): seq<Doc>
    decreases items, 1
  {
    if items == [] then [] else [Layout(items[0], timestamp, indent)] + LayoutItems(items[1..], timestamp, indent)
  }

  function LayoutPair(p: Pair<Value>, timestamp: bool, indent: U16): Pair<Doc>
    decreases p, 1
  {
    Pair(p.key, Layout(p.value, timestamp, indent))
  }

  function LayoutPairs(pairs: seq<Pair<Value>>, timestamp: bool, indent: U16): (r: seq<Pair<Doc>>)
    ensures |r| == |pairs|
    decreases pairs, 2
  {
    if pairs == [] then []
    else [LayoutPair(pairs[0], timestamp, indent)] + LayoutPairs(pairs[1..], timestamp, indent)
  }

  function Entries(pairs: seq<Pair<Doc>>): seq<Entry> {
    if pairs == [] then [] else [Entry(KeyText(pairs[0].key), pairs[0].value)] + Entries(pairs[1..])
  }

  // ----- Every text is read back as what the message denotes

  lemma {:induction false} InsertTogether<T, U>(
      p: Pair<T>, s: seq<Pair<T>>, q: Pair<U>, t: seq<Pair<U>>, r: (T, U) -> bool)
    requires p.key == q.key && r(p.value, q.value) && Together(s, t, r)
    ensures Together(Insert(p, s), Insert(q, t), r)
    decreases |s|
  {
    if s != [] && Less(s[0].key, p.key) {
      InsertTogether(p, s[1..], q, t[1..], r);
    }
  }

  /** The same keys, and values that are related. */
  ghost predicate Together<T, U>(s: seq<Pair<T>>, t: seq<Pair<U>>, r: (T, U) -> bool) {
    |s| == |t| && forall i :: 0 <= i < |s| ==> s[i].key == t[i].key && r(s[i].value, t[i].value)
  }

  /** Sorting looks at the keys only. */
  lemma {:induction false} SortTogether<T, U>(s: seq<Pair<T>>, t: seq<Pair<U>>, r: (T, U) -> bool)
    requires Together(s, t, r)
    ensures Together(Sort(s), Sort(t), r)
    decreases |s|
  {
    if s != [] {
      SortTogether(s[1..], t[1..], r);
      InsertTogether(s[0], Sort(s[1..]), t[0], Sort(t[1..]), r);
    }
  }

  lemma {:induction false} TreeOfEntries(docs: seq<Pair<Doc>>, trees: seq<Pair<Json>>)
    requires Together(docs, trees, (d, j) => Tree(d) == j)
    ensures TreeEntries(Entries(docs)) == Members(trees)
    decreases |docs|
  {
    if docs != [] {
      hide KeyText, Tree;
      TreeOfEntries(docs[1..], trees[1..]);
      assert Entries(docs)[1..] == Entries(docs[1..]);
    }
  }

  lemma {:induction false} TreeOfLayout(v: Value, timestamp: bool, indent: U16)
    ensures Tree(Layout(v, timestamp, indent)) == Denote(v, timestamp)
    decreases v, 0
  {
    match v
    case Message(fields) => TreeOfFields(fields, Deeper(indent));
    case Signed(n) => TreeOfInt(n, timestamp);
    case Unsigned(u) => TreeOfInt(AsI64(u), timestamp);
    case Blob(bytes) => TreeOfTwo("base64", Str(Base64Text(bytes)));
    case _ =>
  }

  lemma TreeOfTwo(encoding: string, value: Doc)
    ensures TreeEntries([Entry("encoding", Str(encoding)), Entry("value", value)])
         == [("encoding", String(encoding)), ("value", Tree(value))]
  {
    var entries := [Entry("encoding", Str(encoding)), Entry("value", value)];
    var last := entries[1..];
    assert last == [Entry("value", value)] && last[1..] == [];
    assert TreeEntries(last) == [TreeEntry(last[0])] + TreeEntries([]);
    assert TreeEntries(entries) == [TreeEntry(entries[0])] + TreeEntries(last);
  }

  lemma TreeOfInt(v: int, timestamp: bool)
    ensures Tree(LayoutInt(v, timestamp)) == DenoteInt(v, timestamp)
  {
    TreeOfTwo("timestamp", Num(v));
  }

  lemma {:induction false} TreeOfFields(fields: seq<Field>, indent: U16)
    ensures TreeEntries(LayoutFields(fields, indent)) == DenoteFields(fields)
    decreases fields, 2
  {
    if fields != [] {
      TreeOfFields(fields[1..], indent);
      if !IsEmpty(fields[0].content) {
        TreeOfField(fields[0], indent);
        assert LayoutFields(fields, indent)[1..] == LayoutFields(fields[1..], indent);
      } else {
        assert LayoutFields(fields, indent) == LayoutFields(fields[1..], indent);
      }
    }
  }

  lemma {:induction false} TreeOfField(f: Field, indent: U16)
    requires !IsEmpty(f.content)
    ensures TreeEntry(LayoutField(f, indent)) == DenoteField(f)
    decreases f, 1
  {
    TreeOfContent(f.content, f.timestamp, indent);
  }

  lemma {:induction false} TreeOfContent(c: Content, timestamp: bool, indent: U16)
    requires !IsEmpty(c)
    ensures Tree(LayoutContent(c, timestamp, indent)) == DenoteContent(c, timestamp)
    decreases c, 1
  {
    match c
    case Single(value) => TreeOfLayout(value.value, timestamp, indent);
    case Repeated(items) => TreeOfItems(items, timestamp, Deeper(indent));
    case Mapping(pairs) =>
      var docs, trees := LayoutPairs(pairs, timestamp, Deeper(indent)), DenotePairs(pairs, timestamp);
      TreeOfPairs(pairs, timestamp, Deeper(indent));
      SortTogether(docs, trees, (d, j) => Tree(d) == j);
      TreeOfEntries(Sort(docs), Sort(trees));
  }

  lemma {:induction false} TreeOfItems(items: seq<Value>, timestamp: bool, indent: U16)
    ensures TreeItems(LayoutItems(items, timestamp, indent)) == DenoteItems(items, timestamp)
    decreases items, 1
  {
    if items != [] {
      TreeOfLayout(items[0], timestamp, indent);
      TreeOfItems(items[1..], timestamp, indent);
      assert LayoutItems(items, timestamp, indent)[1..] == LayoutItems(items[1..], timestamp, indent);
    }
  }

  lemma {:induction false} TreeOfPair(p: Pair<Value>, timestamp: bool, indent: U16)
    ensures Tree(LayoutPair(p, timestamp, indent).value) == DenotePair(p, timestamp).value
    decreases p, 1
  {
    TreeOfLayout(p.value, timestamp, indent);
  }

  lemma {:induction false} TreeOfPairs(pairs: seq<Pair<Value>>, timestamp: bool, indent: U16)
    ensures Together(LayoutPairs(pairs, timestamp, indent), DenotePairs(pairs, timestamp), (d, j) => Tree(d) == j)
    decreases pairs, 2
  {
    if pairs != [] {
      TreeOfPair(pairs[0], timestamp, indent);
      TreeOfPairs(pairs[1..], timestamp, indent);
    }
  }

  /** The printed text is JSON, and reading it gives what the message denotes. */
  lemma PrintedIsReadBack(fields: seq<Field>, indent: U16)
    ensures Parse(Text(LayoutMessage(fields, indent))) == Some(Denote(Message(fields), false))
  {
    TreeOfLayout(Message(fields), false, indent);
    ParseText(LayoutMessage(fields, indent));
  }

  /** The number printed for a `u64` is its value exactly when it fits an `i64`, also in a timestamp. */
  lemma UnsignedIsKept(u: U64)
    ensures IntValue(Denote(Unsigned(u), false).lexeme) == u <==> u < 0x8000_0000_0000_0000
    ensures Denote(Unsigned(u), true).members[1] == ("value", Denote(Unsigned(u), false))
  {
    ValueOfIntText(AsI64(u));
  }

  lemma LargestUnsigned()
    ensures Denote(Unsigned(0xFFFF_FFFF_FFFF_FFFF), false) == Number("-1")
  {
    assert Numeral(1) == "1";
  }

  // ----- The order in which a map is iterated does not matter

  lemma {:induction false} LessTextIsOrder(a: string, b: string, c: string)
    ensures !LessText(a, a)
    ensures LessText(a, b) || a == b || LessText(b, a)
    ensures LessText(a, b) && LessText(b, c) ==> LessText(a, c)
    decreases |a|
  {
    if a != [] {
      var t: string := if b == [] then [] else b[1..];
      var u: string := if c == [] then [] else c[1..];
      LessTextIsOrder(a[1..], t, u);
      if b != [] && a[0] == b[0] && a[1..] == t {
        assert a == [a[0]] + a[1..] && b == [b[0]] + t;
      }
    }
  }

  lemma LessIsOrder(a: Key, b: Key, c: Key)
    ensures !Less(a, a)
    ensures Less(a, b) || a == b || Less(b, a)
    ensures Less(a, b) && Less(b, c) ==> Less(a, c)
  {
    if a.TextKey? {
      LessTextIsOrder(a.s, if b.TextKey? then b.s else "", if c.TextKey? then c.s else "");
    }
  }

  ghost predicate Distinct<T>(s: seq<Pair<T>>) {
    forall i, j :: 0 <= i < j < |s| ==> s[i].key != s[j].key
  }

  /** The key of every later entry is larger. */
  ghost predicate Ascending<T>(s: seq<Pair<T>>) {
    forall i, j :: 0 <= i < j < |s| ==> Less(s[i].key, s[j].key)
  }

  lemma {:induction false} InsertKeeps<T(!new)>(p: Pair<T>, s: seq<Pair<T>>)
    ensures forall x :: x in Insert(p, s) <==> x == p || x in s
    decreases |s|
  {
    if s != [] && Less(s[0].key, p.key) {
      InsertKeeps(p, s[1..]);
      assert s == [s[0]] + s[1..];
    }
  }

  /** Sorting neither adds nor drops an entry. */
  lemma {:induction false} SortKeeps<T(!new)>(s: seq<Pair<T>>)
    ensures forall x :: x in Sort(s) <==> x in s
    decreases |s|
  {
    if s != [] {
      SortKeeps(s[1..]);
      InsertKeeps(s[0], Sort(s[1..]));
      assert s == [s[0]] + s[1..];
    }
  }

  lemma {:induction false} InsertSorts<T(!new)>(p: Pair<T>, s: seq<Pair<T>>)
    requires Ascending(s) && forall x :: x in s ==> x.key != p.key
    ensures Ascending(Insert(p, s))
    decreases |s|
  {
    if s == [] {
    } else if Less(s[0].key, p.key) {
      var t := Insert(p, s[1..]);
      InsertSorts(p, s[1..]);
      InsertKeeps(p, s[1..]);
      forall j | 0 <= j < |t| ensures Less(s[0].key, t[j].key) {
        hide Less;
        assert t[j] in t;
        if t[j] != p {
          var k := IndexOf(s[1..], t[j]);
          assert s[k + 1] == t[j];
        }
      }
    } else {
      LessIsOrder(s[0].key, p.key, p.key);
      forall j | 0 <= j < |s| ensures Less(p.key, s[j].key) {
        LessIsOrder(p.key, s[0].key, s[j].key);
      }
    }
  }

  lemma {:induction false} SortSorts<T(!new)>(s: seq<Pair<T>>)
    requires Distinct(s)
    ensures Ascending(Sort(s))
    decreases |s|
  {
    if s != [] {
      SortSorts(s[1..]);
      SortKeeps(s[1..]);
      forall x | x in Sort(s[1..]) ensures x.key != s[0].key {
        var k := IndexOf(s[1..], x);
        assert s[k + 1] == x;
      }
      InsertSorts(s[0], Sort(s[1..]));
    }
  }

  /** Only one ascending sequence has the given entries. */
  lemma {:induction false} AscendingIsUnique<T(!new)>(s: seq<Pair<T>>, t: seq<Pair<T>>)
    requires Ascending(s) && Ascending(t) && forall x :: x in s <==> x in t
    ensures s == t
    decreases |s|
  {
    if s == [] {
      if t != [] { FirstIn(t); }
    } else {
      FirstIn(s);
      FirstIn(t);
      SameFirst(s, t);
      forall x ensures x in s[1..] <==> x in t[1..] {
        AfterFirst(s, x);
        AfterFirst(t, x);
      }
      AscendingIsUnique(s[1..], t[1..]);
      assert s == [s[0]] + s[1..] && t == [t[0]] + t[1..];
    }
  }

  lemma FirstIn<T>(s: seq<T>)
    requires s != []
    ensures s[0] in s
  {}

  lemma SameFirst<T>(s: seq<Pair<T>>, t: seq<Pair<T>>)
    requires s != [] && t != [] && Ascending(s) && Ascending(t) && s[0] in t && t[0] in s
    ensures s[0] == t[0]
  {
    LessIsOrder(s[0].key, t[0].key, s[0].key);
  }

  lemma AfterFirst<T>(s: seq<Pair<T>>, x: Pair<T>)
    requires s != [] && Ascending(s)
    ensures x in s[1..] <==> x in s && x != s[0]
  {
    assert s == [s[0]] + s[1..];
    LessIsOrder(s[0].key, s[0].key, s[0].key);
  }

  /** Equal messages, except that maps may be iterated in another order. */
  ghost predicate Alike(v: Value, w: Value)
    decreases v, 0
  {
    match v
    case Message(fields) => w.Message? && AlikeFields(fields, w.fields)
    case _ => v == w
  }

  ghost predicate AlikeFields(fs: seq<Field>, gs: seq<Field>)
    decreases fs, 2
  {
    if fs == [] then gs == []
    else gs != [] && AlikeField(fs[0], gs[0]) && AlikeFields(fs[1..], gs[1..])
  }

  ghost predicate AlikeField(f: Field, g: Field)
    decreases f, 5
  {
    f.name == g.name && f.timestamp == g.timestamp && AlikeContent(f.content, g.content)
  }

  ghost predicate AlikeContent(c: Content, d: Content)
    decreases c, 4
  {
    match (c, d)
    case (Single(v), Single(w)) => if v.None? || w.None? then v == w else Alike(v.value, w.value)
    case (Repeated(vs), Repeated(ws)) => AlikeItems(vs, ws)
    case (Mapping(ps), Mapping(qs)) => AlikePairs(ps, qs)
    case _ => false
  }

  /** The same keys in any order, each with one value. */
  ghost predicate AlikePairs(ps: seq<Pair<Value>>, qs: seq<Pair<Value>>)
    decreases ps, 3
  {
    && Distinct(ps) && Distinct(qs) && |ps| == |qs|
    && (forall i :: 0 <= i < |ps| ==> InSecond(ps[i], qs))
    && (forall j :: 0 <= j < |qs| ==> InFirst(ps, qs[j]))
  }

  ghost predicate InSecond(p: Pair<Value>, qs: seq<Pair<Value>>)
    decreases p, 2
  {
    exists j :: 0 <= j < |qs| && AlikePair(p, qs[j])
  }

  ghost predicate InFirst(ps: seq<Pair<Value>>, q: Pair<Value>)
    decreases ps, 2
  {
    exists i :: 0 <= i < |ps| && AlikePair(ps[i], q)
  }

  ghost predicate AlikeItems(vs: seq<Value>, ws: seq<Value>)
    decreases vs, 1
  {
    if vs == [] then ws == []
    else ws != [] && Alike(vs[0], ws[0]) && AlikeItems(vs[1..], ws[1..])
  }

  ghost predicate AlikePair(p: Pair<Value>, q: Pair<Value>)
    decreases p, 1
  {
    p.key == q.key && Alike(p.value, q.value)
  }

  /** The output does not depend on the order in which maps are iterated. */
  lemma {:induction false} OrderDoesNotMatter(v: Value, w: Value, timestamp: bool, indent: U16)
    requires Alike(v, w)
    ensures Layout(v, timestamp, indent) == Layout(w, timestamp, indent)
    decreases v, 0
  {
    match v
    case Message(fields) => FieldsAlike(fields, w.fields, Deeper(indent));
    case _ =>
  }

  lemma {:induction false} FieldsAlike(fs: seq<Field>, gs: seq<Field>, indent: U16)
    requires AlikeFields(fs, gs)
    ensures LayoutFields(fs, indent) == LayoutFields(gs, indent)
    decreases fs, 2
  {
    if fs != [] {
      FieldAlike(fs[0], gs[0], indent);
      FieldsAlike(fs[1..], gs[1..], indent);
    }
  }

  lemma {:induction false} FieldAlike(f: Field, g: Field, indent: U16)
    requires AlikeField(f, g)
    ensures IsEmpty(f.content) == IsEmpty(g.content)
    ensures !IsEmpty(f.content) ==> LayoutField(f, indent) == LayoutField(g, indent)
    decreases f, 1
  {
    ContentAlike(f.content, g.content, f.timestamp, indent);
  }

  lemma {:induction false} ContentAlike(c: Content, d: Content, timestamp: bool, indent: U16)
    requires AlikeContent(c, d)
    ensures IsEmpty(c) == IsEmpty(d)
    ensures !IsEmpty(c) ==> LayoutContent(c, timestamp, indent) == LayoutContent(d, timestamp, indent)
    decreases c, 1
  {
    match c
    case Single(v) =>
      if v.Some? { OrderDoesNotMatter(v.value, d.value.value, timestamp, indent); }
    case Repeated(vs) => ItemsAlike(vs, d.items, timestamp, Deeper(indent));
    case Mapping(ps) => PairsAlike(ps, d.pairs, timestamp, Deeper(indent));
  }

  lemma {:induction false} ItemsAlike(vs: seq<Value>, ws: seq<Value>, timestamp: bool, indent: U16)
    requires AlikeItems(vs, ws)
    ensures LayoutItems(vs, timestamp, indent) == LayoutItems(ws, timestamp, indent)
    decreases vs, 1
  {
    if vs != [] {
      OrderDoesNotMatter(vs[0], ws[0], timestamp, indent);
      ItemsAlike(vs[1..], ws[1..], timestamp, indent);
    }
  }

  lemma {:induction false} LayoutPairAt(ps: seq<Pair<Value>>, timestamp: bool, indent: U16, i: nat)
    requires i < |ps|
    ensures LayoutPairs(ps, timestamp, indent)[i] == LayoutPair(ps[i], timestamp, indent)
    decreases |ps|
  {
    if i > 0 {
      LayoutPairAt(ps[1..], timestamp, indent, i - 1);
    }
  }

  lemma LayoutIsDistinct(ps: seq<Pair<Value>>, timestamp: bool, indent: U16)
    requires Distinct(ps)
    ensures Distinct(LayoutPairs(ps, timestamp, indent))
  {
    forall i | 0 <= i < |ps| ensures LayoutPairs(ps, timestamp, indent)[i].key == ps[i].key {
      LayoutPairAt(ps, timestamp, indent, i);
    }
  }

  lemma {:induction false} PairAlike(p: Pair<Value>, q: Pair<Value>, timestamp: bool, indent: U16)
    requires AlikePair(p, q)
    ensures LayoutPair(p, timestamp, indent) == LayoutPair(q, timestamp, indent)
    decreases p, 1
  {
    OrderDoesNotMatter(p.value, q.value, timestamp, indent);
  }

  lemma {:induction false} PairsAlike(ps: seq<Pair<Value>>, qs: seq<Pair<Value>>, timestamp: bool, indent: U16)
    requires AlikePairs(ps, qs)
    ensures Sort(LayoutPairs(ps, timestamp, indent)) == Sort(LayoutPairs(qs, timestamp, indent))
    decreases ps, 4
  {
    hide AlikePair, InFirst, InSecond, LayoutPair, LayoutPairs, Distinct, Sort;
    var s, t := LayoutPairs(ps, timestamp, indent), LayoutPairs(qs, timestamp, indent);
    forall i | 0 <= i < |ps| ensures s[i] in t {
      var j := SecondIndex(ps[i], qs);
      PairAlikeAt(ps, qs, i, j, timestamp, indent);
    }
    forall j | 0 <= j < |qs| ensures t[j] in s {
      var i := FirstIndex(ps, qs[j]);
      PairAlikeAt(ps, qs, i, j, timestamp, indent);
    }
    LayoutIsDistinct(ps, timestamp, indent);
    LayoutIsDistinct(qs, timestamp, indent);
    SameEntriesSortAlike(s, t);
  }

  lemma SecondIndex(p: Pair<Value>, qs: seq<Pair<Value>>) returns (j: nat)
    requires InSecond(p, qs)
    ensures j < |qs| && AlikePair(p, qs[j])
  {
    j :| j < |qs| && AlikePair(p, qs[j]);
  }

  lemma FirstIndex(ps: seq<Pair<Value>>, q: Pair<Value>) returns (i: nat)
    requires InFirst(ps, q)
    ensures i < |ps| && AlikePair(ps[i], q)
  {
    i :| i < |ps| && AlikePair(ps[i], q);
  }

  lemma {:induction false} PairAlikeAt(
      ps: seq<Pair<Value>>, qs: seq<Pair<Value>>, i: nat, j: nat, timestamp: bool, indent: U16)
    requires i < |ps| && j < |qs| && AlikePair(ps[i], qs[j])
    ensures LayoutPairs(ps, timestamp, indent)[i] == LayoutPairs(qs, timestamp, indent)[j]
    decreases ps, 2
  {
    PairAlike(ps[i], qs[j], timestamp, indent);
    LayoutPairAt(ps, timestamp, indent, i);
    LayoutPairAt(qs, timestamp, indent, j);
  }

  lemma SameEntriesSortAlike<T(!new)>(s: seq<Pair<T>>, t: seq<Pair<T>>)
    requires Distinct(s) && Distinct(t)
    requires (forall i :: 0 <= i < |s| ==> s[i] in t) && (forall j :: 0 <= j < |t| ==> t[j] in s)
    ensures Sort(s) == Sort(t)
  {
    SortSorts(s);
    SortSorts(t);
    SortKeeps(s);
    SortKeeps(t);
    AscendingIsUnique(Sort(s), Sort(t));
  }

  /** Two keys of one map never become the same name. */
  lemma KeysStayDistinct(a: Key, b: Key)
    requires a.BoolKey? == b.BoolKey? && a.IntKey? == b.IntKey?
    ensures KeyText(a) == KeyText(b) <==> a == b
  {
    if a.IntKey? {
      ValueOfIntText(a.v);
      ValueOfIntText(b.v);
    }
  }

  // ----- The serializer

  /** The first field from `i` on that is present, or the end. */
  method NextPresent(fields: seq<Field>, i: nat) returns (j: nat)
    requires i <= |fields|
    ensures i <= j <= |fields| && (j < |fields| ==> !IsEmpty(fields[j].content))
    ensures forall k :: i <= k < j ==> IsEmpty(fields[k].content)
  {
    j := i;
    while j < |fields| && IsEmpty(fields[j].content)
      invariant i <= j <= |fields|
      invariant forall k :: i <= k < j ==> IsEmpty(fields[k].content)
    {
      j := j + 1;
    }
  }

  lemma {:induction false} SkipAbsent(fields: seq<Field>, i: nat, j: nat, indent: U16)
    requires i <= j <= |fields| && forall k :: i <= k < j ==> IsEmpty(fields[k].content)
    ensures LayoutFields(fields[i..], indent) == LayoutFields(fields[j..], indent)
    decreases j - i
  {
    if i < j {
      SkipAbsent(fields, i + 1, j, indent);
      assert fields[i..][1..] == fields[i + 1..];
      assert LayoutFields(fields[i..], indent) == [] + LayoutFields(fields[i + 1..], indent);
    }
  }

  /** The text of the fields from `i` on, when `j` is the next one that is present. */
  lemma TextFromField(fields: seq<Field>, i: nat, j: nat, indent: U16, between: Blank)
    requires i < j <= |fields| && !IsEmpty(fields[i].content)
    requires j < |fields| ==> !IsEmpty(fields[j].content)
    requires forall k :: i < k < j ==> IsEmpty(fields[k].content)
    ensures
      TextEntries(LayoutFields(fields[i..], indent), between)
      == TextEntry(LayoutField(fields[i], indent))
         + if j == |fields| then [] else "," + between + TextEntries(LayoutFields(fields[j..], indent), between)
  {
    hide TextEntry, LayoutField;
    SkipAbsent(fields, i + 1, j, indent);
    assert fields[i..][1..] == fields[i + 1..];
    var rest := LayoutFields(fields[j..], indent);
    var all := LayoutFields(fields[i..], indent);
    assert all == [LayoutField(fields[i], indent)] + rest && all[1..] == rest;
    assert rest == [] <==> j == |fields|;
  }

  lemma TextFromEntry(entries: seq<Entry>, i: nat, between: Blank)
    requires i < |entries|
    ensures
      TextEntries(entries[i..], between)
      == TextEntry(entries[i])
         + if i + 1 == |entries| then [] else "," + between + TextEntries(entries[i + 1..], between)
  {
    hide TextEntry;
    assert entries[i..][1..] == entries[i + 1..];
  }

  lemma TextFromItem(items: seq<Value>, timestamp: bool, indent: U16, i: nat, between: Blank)
    requires i < |items|
    ensures
      TextItems(LayoutItems(items[i..], timestamp, indent), between)
      == Text(Layout(items[i], timestamp, indent))
         + if i + 1 == |items| then []
           else "," + between + TextItems(LayoutItems(items[i + 1..], timestamp, indent), between)
  {
    hide Text, Layout;
    assert items[i..][1..] == items[i + 1..];
    var all := LayoutItems(items[i..], timestamp, indent);
    assert all[1..] == LayoutItems(items[i + 1..], timestamp, indent);
  }

  /** What the sorted entries of a map are written as. */
  lemma SortedEntries(pairs: seq<Pair<Value>>, timestamp: bool, indent: U16)
    ensures
      var sorted, entries := Sort(pairs), Entries(Sort(LayoutPairs(pairs, timestamp, indent)));
      && |sorted| == |pairs| == |entries|
      && forall i :: 0 <= i < |sorted| ==>
           entries[i] == Entry(KeyText(sorted[i].key), Layout(sorted[i].value, timestamp, indent))
  {
    hide KeyText, Layout;
    var docs := LayoutPairs(pairs, timestamp, indent);
    var r := (v: Value, d: Doc) => d == Layout(v, timestamp, indent);
    forall i | 0 <= i < |pairs| ensures docs[i].key == pairs[i].key && r(pairs[i].value, docs[i].value) {
      LayoutPairAt(pairs, timestamp, indent, i);
    }
    SortTogether(pairs, docs, r);
    SortLength(pairs);
    EntriesAt(Sort(docs));
  }

  lemma {:induction false} InsertLength<T>(p: Pair<T>, s: seq<Pair<T>>)
    ensures |Insert(p, s)| == 1 + |s|
    decreases |s|
  {
    if s != [] && Less(s[0].key, p.key) {
      InsertLength(p, s[1..]);
    }
  }

  lemma {:induction false} SortLength<T>(s: seq<Pair<T>>)
    ensures |Sort(s)| == |s|
    decreases |s|
  {
    if s != [] {
      SortLength(s[1..]);
      InsertLength(s[0], Sort(s[1..]));
    }
  }

  lemma {:induction false} EntriesAt(pairs: seq<Pair<Doc>>)
    ensures |Entries(pairs)| == |pairs|
    ensures forall i :: 0 <= i < |pairs| ==> Entries(pairs)[i] == Entry(KeyText(pairs[i].key), pairs[i].value)
    decreases |pairs|
  {
    if pairs != [] {
      EntriesAt(pairs[1..]);
    }
  }

  lemma {:induction false} NamesArePlain(name: Name)
    ensures Escape(name) == name
  {
    EscapePlain(name);
  }

  lemma Base64IsPlain(bytes: seq<Byte>)
    ensures Escape(Base64Text(bytes)) == Base64Text(bytes)
  {
    var text := Base64Text(bytes);
    forall i | 0 <= i < |text| ensures !NeedsEscape(text[i]) {
      StandardIsAlphabet();
      if i < |Base64.Encode(Standard(), bytes)| {
        assert text[i] == Standard()[Base64.Sextets(bytes)[i]];
      } else {
        assert text[i] == '=';
      }
    }
    EscapePlain(text);
  }

  lemma Glue(o: string, a: string, b: string, c: string, d: string, e: string)
    ensures o + a + b + c + d + e == o + (a + b + c + d + e)
  {}

  class Serializer {
    var indent: U16
    var output: string

    constructor ()
      ensures indent == 0 && output == []
    {
      indent, output := 0, [];
    }

    method NewLine()
      modifies this`output
      ensures output == old(output) + Newline(indent)
    {
      output := output + "\n";
      for i := 0 to indent
        invariant output == old(output) + "\n" + Spaces(i)
      {
        assert Spaces(i + 1) == Spaces(i) + " ";
        output := output + " ";
      }
    }

    /** Strings without a character to escape are returned as they are. */
    static method EscapeText(s: string) returns (r: string)
      ensures r == Escape(s)
    {
      if forall i :: 0 <= i < |s| ==> !NeedsEscape(s[i]) {
        EscapePlain(s);
        return s;
      }
      r := [];
      for i := 0 to |s|
        invariant r + Escape(s[i..]) == Escape(s)
      {
        assert s[i..][1..] == s[i + 1..];
        assert r + (EscapeChar(s[i]) + Escape(s[i + 1..])) == r + EscapeChar(s[i]) + Escape(s[i + 1..]);
        r := r + EscapeChar(s[i]);
      }
      assert r + [] == r;
    }

    method WriteInteger(v: int, timestamp: bool)
      modifies this`output
      ensures output == old(output) + Text(LayoutInt(v, timestamp))
    {
      if timestamp {
        TextOfTimestamp(v);
        hide Text, LayoutInt;
        output := output + ("{ \"encoding\": \"" + "timestamp" + "\", \"value\": " + IntText(v) + " " + "}");
      } else {
        output := output + IntText(v);
      }
    }

    method WriteBlob(bytes: seq<Byte>, ghost timestamp: bool)
      modifies this`output
      ensures output == old(output) + Text(Layout(Blob(bytes), timestamp, indent))
    {
      TextOfBlob(bytes, timestamp, indent);
      hide Text, Layout;
      output := output
        + ("{ \"encoding\": \"" + "base64" + "\", \"value\": " + ("\"" + Base64Text(bytes) + "\"") + "" + "}");
    }

    method WriteValue(v: Value, timestamp: bool)
      modifies this
      ensures indent == old(indent)
      ensures output == old(output) + Text(Layout(v, timestamp, indent))
      decreases v, 0
    {
      match v
      case Signed(n) => WriteInteger(n, timestamp);
      case Unsigned(u) => WriteInteger(AsI64(u), timestamp);
      case Flag(b) => output := output + if b then "true" else "false";
      case Words(s) =>
        var text := EscapeText(s);
        output := output + ("\"" + text + "\"");
      case Blob(bytes) =>
        WriteBlob(bytes, timestamp);
      case Enumerator(name, number) =>
        if name.Some? {
          NamesArePlain(name.value);
          output := output + ("\"" + name.value + "\"");
        } else {
          output := output + IntText(number);
        }
      case Message(fields) => WriteMsg(fields);
    }

    method WriteMsg(fields: seq<Field>)
      modifies this
      ensures indent == old(indent)
      ensures output == old(output) + Text(LayoutMessage(fields, indent))
      decreases fields, 3
    {
      hide TextEntries, TextEntry, LayoutFields, LayoutField, Newline, LayoutContent;
      output := output + "{";
      indent := Deeper(indent);
      NewLine();
      ghost var deep, between, begun := indent, Newline(indent), output;
      ghost var text := TextEntries(LayoutFields(fields, deep), between);
      assert begun + text == old(output) + "{" + between + text;
      var i := NextPresent(fields, 0);
      SkipAbsent(fields, 0, i, deep);
      assert fields[0..] == fields;
      while i < |fields|
        invariant i <= |fields| && (i < |fields| ==> !IsEmpty(fields[i].content))
        invariant indent == deep
        invariant output + TextEntries(LayoutFields(fields[i..], deep), between) == begun + text
      {
        ghost var before := output;
        WriteField(fields[i]);
        var j := NextPresent(fields, i + 1);
        TextFromField(fields, i, j, deep, between);
        ghost var entry := TextEntry(LayoutField(fields[i], deep));
        if j < |fields| {
          output := output + ",";
          NewLine();
          ghost var rest := TextEntries(LayoutFields(fields[j..], deep), between);
          assert before + (entry + ("," + between + rest)) == before + entry + "," + between + rest;
        } else {
          NoMoreFields(deep, between);
          assert fields[j..] == [];
          assert before + (entry + []) == before + entry + [];
        }
        i := j;
      }
      NoMoreFields(deep, between);
      assert fields[i..] == [] && output + [] == output;
      indent := Shallower(indent);
      NewLine();
      output := output + "}";
      Glue(old(output), "{", between, text, Newline(indent), "}");
    }

    method WriteField(f: Field)
      requires !IsEmpty(f.content)
      modifies this
      ensures indent == old(indent)
      ensures output == old(output) + TextEntry(LayoutField(f, indent))
      decreases f, 1
    {
      NamesArePlain(f.name);
      hide Text, LayoutContent, Escape;
      output := output + "\"" + f.name + "\": ";
      WriteContent(f.content, f.timestamp);
      GlueName(old(output), f.name, Text(LayoutContent(f.content, f.timestamp, indent)));
    }

    method WriteContent(c: Content, timestamp: bool)
      requires !IsEmpty(c)
      modifies this
      ensures indent == old(indent)
      ensures output == old(output) + Text(LayoutContent(c, timestamp, indent))
      decreases c, 3
    {
      match c
      case Single(value) => WriteValue(value.value, timestamp);
      case Repeated(items) => WriteItems(items, timestamp);
      case Mapping(pairs) => WriteMap(pairs, timestamp);
    }

    method WriteItems(items: seq<Value>, timestamp: bool)
      requires items != []
      modifies this
      ensures indent == old(indent)
      ensures output == old(output) + Text(LayoutContent(Repeated(items), timestamp, indent))
      decreases items, 1
    {
      hide TextItems, LayoutItems, Newline, Layout, Text, LayoutContent;
      TextOfItems(items, timestamp, indent);
      output := output + "[";
      indent := Deeper(indent);
      NewLine();
      ghost var deep, between, begun := indent, Newline(indent), output;
      ghost var text := TextItems(LayoutItems(items, timestamp, deep), between);
      assert items[0..] == items;
      for i := 0 to |items|
        invariant indent == deep
        invariant output + TextItems(LayoutItems(items[i..], timestamp, deep), between) == begun + text
      {
        ghost var before := output;
        TextFromItem(items, timestamp, deep, i, between);
        ghost var item := Text(Layout(items[i], timestamp, deep));
        WriteValue(items[i], timestamp);
        if i + 1 < |items| {
          output := output + ",";
          NewLine();
          ghost var rest := TextItems(LayoutItems(items[i + 1..], timestamp, deep), between);
          assert before + (item + ("," + between + rest)) == before + item + "," + between + rest;
        } else {
          NoMoreItems(timestamp, deep, between);
          assert items[i + 1..] == [];
          assert before + (item + []) == before + item + [];
        }
      }
      NoMoreItems(timestamp, deep, between);
      assert items[|items|..] == [] && output + [] == output;
      indent := Shallower(indent);
      NewLine();
      output := output + "]";
      Glue(old(output), "[", between, text, Newline(indent), "]");
    }

    method WriteMap(pairs: seq<Pair<Value>>, timestamp: bool)
      requires pairs != []
      modifies this
      ensures indent == old(indent)
      ensures output == old(output) + Text(LayoutContent(Mapping(pairs), timestamp, indent))
      decreases pairs, 2
    {
      hide TextEntries, TextEntry, LayoutPairs, Newline, Entries, Sort, Text, LayoutContent, KeyText, Layout;
      TextOfMap(pairs, timestamp, indent);
      output := output + "{";
      indent := Deeper(indent);
      NewLine();
      ghost var deep, between, begun := indent, Newline(indent), output;
      ghost var end := Newline(old(indent));
      var sorted := Sort(pairs);
      ghost var entries := Entries(Sort(LayoutPairs(pairs, timestamp, deep)));
      SortedEntries(pairs, timestamp, deep);
      SortKeeps(pairs);
      ghost var text := TextEntries(entries, between);
      assert entries[0..] == entries;
      for i := 0 to |sorted|
        invariant i < |sorted| ==>
          indent == deep && output + TextEntries(entries[i..], between) + end == begun + text + end
        invariant i == |sorted| ==> indent == old(indent) && output == begun + text + end
      {
        ghost var before := output;
        TextFromEntry(entries, i, between);
        ghost var entry := TextEntry(entries[i]);
        assert sorted[i] in pairs;
        WritePair(sorted[i], timestamp);
        if i + 1 < |sorted| {
          output := output + ",";
          NewLine();
          ghost var rest := TextEntries(entries[i + 1..], between);
          assert before + (entry + ("," + between + rest)) == before + entry + "," + between + rest;
        } else {
          indent := Shallower(indent);
          NewLine();
          assert before + (entry + []) + end == before + entry + end;
        }
      }
      output := output + "}";
      Glue(old(output), "{", between, text, end, "}");
    }

    method WritePair(p: Pair<Value>, timestamp: bool)
      modifies this
      ensures indent == old(indent)
      ensures output == old(output) + TextEntry(Entry(KeyText(p.key), Layout(p.value, timestamp, indent)))
      decreases p, 1
    {
      hide Text, Layout, Escape, KeyText;
      var key := EscapeText(KeyText(p.key));
      output := output + "\"" + key + "\": ";
      WriteValue(p.value, timestamp);
      GlueName(old(output), key, Text(Layout(p.value, timestamp, indent)));
    }

    /** What is printed is JSON that denotes the message. */
    method Serialize(fields: seq<Field>)
      requires indent == 0 && output == []
      modifies this
      ensures indent == 0 && output == Text(LayoutMessage(fields, 0))
      ensures Parse(output) == Some(Denote(Message(fields), false))
    {
      hide Parse, Denote, LayoutMessage, Text;
      WriteMsg(fields);
      PrintedIsReadBack(fields, 0);
      assert output == Text(LayoutMessage(fields, 0));
    }
  }

  lemma NoMoreFields(indent: U16, between: Blank)
    ensures TextEntries(LayoutFields([], indent), between) == []
  {}

  lemma NoMoreItems(timestamp: bool, indent: U16, between: Blank)
    ensures TextItems(LayoutItems([], timestamp, indent), between) == []
  {}

  lemma PlainName(s: string)
    requires forall i :: 0 <= i < |s| ==> IsNameChar(s[i])
    ensures Escape(s) == s && Quoted(s) == "\"" + s + "\""
  {
    EscapePlain(s);
  }

  lemma QuotedEncoding()
    ensures Quoted("encoding") == "\"encoding\""
  {
    hide Escape, Quoted;
    PlainName("encoding");
    assert "\"" + "encoding" + "\"" == "\"encoding\"";
  }

  lemma QuotedValue()
    ensures Quoted("value") == "\"value\""
  {
    hide Escape, Quoted;
    PlainName("value");
    assert "\"" + "value" + "\"" == "\"value\"";
  }

  lemma GlueEncoding(q: string, e: string)
    requires q == "\"encoding\""
    ensures q + ": " + ("\"" + e + "\"") == "\"encoding\": \"" + e + "\""
  {
    assert q + ": " + "\"" == "\"encoding\": \"";
  }

  lemma EntryOfEncoding(encoding: string)
    requires Escape(encoding) == encoding
    ensures TextEntry(Entry("encoding", Str(encoding))) == "\"encoding\": \"" + encoding + "\""
  {
    hide Escape;
    QuotedEncoding();
    GlueEncoding(Quoted("encoding"), encoding);
  }

  lemma EntryOfValue(value: Doc)
    ensures TextEntry(Entry("value", value)) == "\"value\": " + Text(value)
  {
    hide Escape, Text, Quoted;
    QuotedValue();
    assert "\"value\"" + ": " == "\"value\": ";
  }

  lemma TextOfEntries(first: Entry, last: Entry, end: Blank)
    ensures Text(Record(" ", [first, last], " ", end)) == "{ " + TextEntry(first) + ", " + TextEntry(last) + end + "}"
  {
    hide TextEntry;
    assert [first, last][1..] == [last];
    assert TextEntries([first, last], " ") == TextEntry(first) + "," + " " + TextEntry(last);
  }

  lemma GlueEntries(e: string, v: string)
    ensures "{ " + ("\"encoding\": \"" + e + "\"") + ", " + ("\"value\": " + v)
         == "{ \"encoding\": \"" + e + "\", \"value\": " + v
  {
    assert "{ " + "\"encoding\": \"" == "{ \"encoding\": \"";
    assert "\"" + ", " + "\"value\": " == "\", \"value\": ";
  }

  lemma TextOfTwo(encoding: string, value: Doc, end: Blank)
    requires Escape(encoding) == encoding
    ensures Text(Record(" ", [Entry("encoding", Str(encoding)), Entry("value", value)], " ", end))
         == "{ \"encoding\": \"" + encoding + "\", \"value\": " + Text(value) + end + "}"
  {
    EntryOfEncoding(encoding);
    EntryOfValue(value);
    TextOfEntries(Entry("encoding", Str(encoding)), Entry("value", value), end);
    GlueEntries(encoding, Text(value));
  }

  lemma TextOfTimestamp(v: int)
    ensures Text(LayoutInt(v, true))
         == "{ \"encoding\": \"" + "timestamp" + "\", \"value\": " + IntText(v) + " " + "}"
  {
    hide Escape, Quoted;
    PlainName("timestamp");
    TextOfTwo("timestamp", Num(v), " ");
  }

  lemma TextOfBlob(bytes: seq<Byte>, timestamp: bool, indent: U16)
    ensures Text(Layout(Blob(bytes), timestamp, indent))
         == "{ \"encoding\": \"" + "base64" + "\", \"value\": " + ("\"" + Base64Text(bytes) + "\"") + "" + "}"
  {
    hide Escape, Base64Text;
    PlainName("base64");
    Base64IsPlain(bytes);
    TextOfTwo("base64", Str(Base64Text(bytes)), "");
  }

  lemma TextOfItems(items: seq<Value>, timestamp: bool, indent: U16)
    requires items != []
    ensures
      var deep := Deeper(indent);
      var between := Newline(deep);
      Text(LayoutContent(Repeated(items), timestamp, indent))
      == "[" + between + TextItems(LayoutItems(items, timestamp, deep), between) + Newline(indent) + "]"
  {
    hide TextItems, LayoutItems;
  }

  lemma TextOfMap(pairs: seq<Pair<Value>>, timestamp: bool, indent: U16)
    requires pairs != []
    ensures
      var deep := Deeper(indent);
      var between := Newline(deep);
      Text(LayoutContent(Mapping(pairs), timestamp, indent))
      == "{" + between + TextEntries(Entries(Sort(LayoutPairs(pairs, timestamp, deep))),
          between) + Newline(indent) + "}"
  {
    hide TextEntries, Entries, Sort, LayoutPairs;
  }

  lemma GlueName(o: string, name: string, text: string)
    ensures o + "\"" + name + "\": " + text == o + ("\"" + name + "\"" + ": " + text)
  {
    assert "\"" + ": " == "\": ";
  }
}
