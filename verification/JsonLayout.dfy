/**
 What the printed JSON looks like, in literal terms: the order of the entries of
 a map, the columns of nested values, the alphabet, the keys and the fields.
 */
module JsonLayout {
  import opened Bytes
  import opened Seqs
  import opened JsonText
  import opened JsonPrinter
  import Base64

  // ----- The order of the entries of a map

  /** A proper prefix, or the smaller character at the first difference; `k` is where they part. */
  predicate PartsAt(a: string, b: string, k: nat) {
    && k <= |a| && k < |b| && a[..k] == b[..k]
    && (k == |a| || a[k] < b[k])
  }

  lemma {:induction false} LessTextParts(a: string, b: string) returns (k: nat)
    requires LessText(a, b)
    ensures PartsAt(a, b, k)
    decreases |a|
  {
    if a == [] || a[0] < b[0] {
      k := 0;
    } else {
      var rest := LessTextParts(a[1..], b[1..]);
      k := rest + 1;
      assert a[..k] == [a[0]] + a[1..][..rest] && b[..k] == [b[0]] + b[1..][..rest];
    }
  }

  ghost predicate ComesBefore(a: Key, b: Key) {
    match a
    case BoolKey(x) => !x && b == BoolKey(true)
    case IntKey(v) => b.IntKey? && v < b.v
    case TextKey(s) => b.TextKey? && exists k :: PartsAt(s, b.s, k)
  }

  predicate SameType(a: Key, b: Key) { a.BoolKey? == b.BoolKey? && a.IntKey? == b.IntKey? }

  predicate OneType<T>(s: seq<Pair<T>>) {
    forall i, j :: 0 <= i < |s| && 0 <= j < |s| ==> SameType(s[i].key, s[j].key)
  }

  /** Of any two entries of a map, the one with the smaller key is printed first. */
  lemma SortedByKey<T(!new)>(s: seq<Pair<T>>, i: nat, j: nat)
    requires Distinct(s) && OneType(s) && i < j < |s|
    ensures |Sort(s)| == |s| && ComesBefore(Sort(s)[i].key, Sort(s)[j].key)
  {
    SortLength(s);
    SortSorts(s);
    SortKeeps(s);
    var a, b := Sort(s)[i], Sort(s)[j];
    assert a in Sort(s) && b in Sort(s);
    var m := IndexOf(s, a);
    var n := IndexOf(s, b);
    assert SameType(s[m].key, s[n].key);
    assert Less(a.key, b.key);
    if a.key.TextKey? {
      var k := LessTextParts(a.key.s, b.key.s);
    }
  }

  /** The members of a printed map are its entries, sorted by key. */
  lemma MembersAreSorted(pairs: seq<Pair<Value>>, timestamp: bool, i: nat, j: nat)
    requires Distinct(pairs) && OneType(pairs) && i < j < |pairs|
    ensures
      var sorted, members := Sort(pairs), Members(Sort(DenotePairs(pairs, timestamp)));
      && |sorted| == |members| == |pairs| && ComesBefore(sorted[i].key, sorted[j].key)
      && members[i] == (KeyText(sorted[i].key), Denote(sorted[i].value, timestamp))
      && members[j] == (KeyText(sorted[j].key), Denote(sorted[j].value, timestamp))
  {
    hide KeyText, Denote, ComesBefore;
    SortedByKey(pairs, i, j);
    var trees := DenotePairs(pairs, timestamp);
    var r := (v: Value, t: Json) => t == Denote(v, timestamp);
    forall k | 0 <= k < |pairs| ensures trees[k].key == pairs[k].key && r(pairs[k].value, trees[k].value) {
      DenotedAt(pairs, timestamp, k);
    }
    SortTogether(pairs, trees, r);
    MembersAt(Sort(trees));
  }

  lemma {:induction false} DenotedAt(pairs: seq<Pair<Value>>, timestamp: bool, k: nat)
    requires k < |pairs|
    ensures DenotePairs(pairs, timestamp)[k] == Pair(pairs[k].key, Denote(pairs[k].value, timestamp))
    decreases |pairs|
  {
    if k > 0 {
      DenotedAt(pairs[1..], timestamp, k - 1);
    }
  }

  lemma {:induction false} MembersAt(pairs: seq<Pair<Json>>)
    ensures |Members(pairs)| == |pairs|
    ensures forall i :: 0 <= i < |pairs| ==> Members(pairs)[i] == (KeyText(pairs[i].key), pairs[i].value)
    decreases |pairs|
  {
    if pairs != [] {
      MembersAt(pairs[1..]);
    }
  }

  // ----- Keys, integers, bytes

  /** A key is printed as its value: read as a decimal numeral, as `true` or `false`, or as it stands. */
  lemma KeysReadBack(k: Key)
    ensures k.IntKey? ==> IntValue(KeyText(k)) == k.v
    ensures KeyText(BoolKey(true)) == "true" && KeyText(BoolKey(false)) == "false"
    ensures k.TextKey? ==> KeyText(k) == k.s
  {
    if k.IntKey? {
      ValueOfIntText(k.v);
    }
  }

  /** What is printed for a `u64`: its value, or 2^64 less if it does not fit an `i64`. */
  lemma UnsignedValue(u: U64)
    ensures IntValue(Denote(Unsigned(u), false).lexeme) ==
            if u <= 0x7FFF_FFFF_FFFF_FFFF then u else u - 0x1_0000_0000_0000_0000
  {
    ValueOfIntText(AsI64(u));
  }

  lemma Capitals(v: nat)
    requires v < 26
    ensures Standard()[v] == "ABCDEFGHIJKLMNOPQRSTUVWXYZ"[v]
  {}

  lemma SmallLetters(v: nat)
    requires v < 26
    ensures Standard()[26 + v] == "abcdefghijklmnopqrstuvwxyz"[v]
  {}

  lemma LastTwelve(v: nat)
    requires v < 12
    ensures Standard()[52 + v] == "0123456789+/"[v]
  {}

  /** Table 1 of RFC 4648. */
  lemma AlphabetIsStandard()
    ensures Standard() ==
            "ABCDEFGHIJKLMNOPQRSTUVWXYZ" + "abcdefghijklmnopqrstuvwxyz" + "0123456789+/"
  {
    var table := "ABCDEFGHIJKLMNOPQRSTUVWXYZ" + "abcdefghijklmnopqrstuvwxyz" + "0123456789+/";
    StandardIsAlphabet();
    hide Standard;
    forall v | 0 <= v < 64 ensures Standard()[v] == table[v] {
      if v < 26 { Capitals(v); } else if v < 52 { SmallLetters(v - 26); } else { LastTwelve(v - 52); }
    }
  }

  /** Bytes are printed in groups of four characters, with one `=` for each character that is missing. */
  lemma PaddedToGroups(bytes: seq<Byte>)
    ensures
      var text, n := Base64Text(bytes), (4 * |bytes| + 2) / 3;
      && |text| == 4 * ((|bytes| + 2) / 3) && n <= |text|
      && (forall i :: 0 <= i < n ==> text[i] == Standard()[Base64.SextetAt(bytes, i)])
      && (forall i :: n <= i < |text| ==> text[i] == '=')
  {
    StandardIsAlphabet();
    Base64.SextetsAt(bytes);
    hide Standard;
    assert |bytes| == |bytes| / 3 * 3 + |bytes| % 3;
  }

  /** What characters are written as: two characters, a code in hexadecimal digits, or themselves. */
  lemma EscapedExactly(c: char)
    ensures EscapeChar('\n') == "\\n" && EscapeChar('\r') == "\\r" && EscapeChar('\t') == "\\t"
    ensures EscapeChar('"') == "\\\"" && EscapeChar('\\') == "\\\\"
    ensures
      var hex, n := "0123456789abcdef", c as int;
      c !in {'\n', '\r', '\t', '"', '\\'} ==>
        EscapeChar(c) == if n < 32 || n == 127 then "\\u00" + [hex[n / 16], hex[n % 16]] else [c]
  {
    var n := c as int;
    if n < 32 || n == 127 {
      HexDigits(n / 16);
      HexDigits(n % 16);
    }
  }

  lemma HexDigits(d: nat)
    requires d < 16
    ensures Hex(d) == "0123456789abcdef"[d]
  {}

  // ----- Fields

  /** What one field contributes: nothing if it is absent or empty. */
  function Contribution(f: Field): seq<(string, Json)> {
    match f.content
    case Single(None) => []
    case Single(Some(v)) => [(f.name, Denote(v, f.timestamp))]
    case Repeated(items) => if |items| == 0 then [] else [(f.name, Array(DenoteItems(items, f.timestamp)))]
    case Mapping(pairs) =>
      if |pairs| == 0 then [] else [(f.name, Object(Members(Sort(DenotePairs(pairs, f.timestamp)))))]
  }

  lemma OneContribution(f: Field)
    ensures Contribution(f) == if IsEmpty(f.content) then [] else [DenoteField(f)]
  {
    hide Denote, DenoteItems;
  }

  /** The members of a printed message are those of its fields, one after the other. */
  lemma {:induction false} FieldsContribute(fields: seq<Field>)
    ensures DenoteFields(fields) == FlatMap(Contribution, fields)
    decreases |fields|
  {
    if fields != [] {
      OneContribution(fields[0]);
      hide Contribution, DenoteField, IsEmpty;
      FieldsContribute(fields[1..]);
    }
  }

  /** The items of a printed list are those of the field, in order. */
  lemma {:induction false} ItemsDenoted(items: seq<Value>, timestamp: bool)
    ensures |DenoteItems(items, timestamp)| == |items|
    ensures forall i :: 0 <= i < |items| ==> DenoteItems(items, timestamp)[i] == Denote(items[i], timestamp)
    decreases |items|
  {
    if items != [] {
      hide Denote;
      ItemsDenoted(items[1..], timestamp);
    }
  }

  // ----- Columns

  /** The margin of `k` levels. */
  function Margin(k: nat): string { if k == 0 then "" else "    " + Margin(k - 1) }

  function Row(k: nat): string { "\n" + Margin(k) }

  /** The object for bytes and timestamps stays on one line. */
  predicate IsInline(d: Doc) {
    d.Record? && d.start == d.between == " " && |d.entries| == 2 && d.entries[0].name == "encoding"
  }

  /** Each item and member has a line of its own, four columns to the right of the closing bracket. */
  predicate Tidy(d: Doc, k: nat)
    decreases d, 0
  {
    match d
    case List(start, docs, between, end) =>
      start == between == Row(k + 1) && end == Row(k) && TidyItems(docs, k + 1)
    case Record(start, entries, between, end) =>
      IsInline(d) || (start == between == Row(k + 1) && end == Row(k) && TidyEntries(entries, k + 1))
    case _ => true
  }

  predicate TidyItems(docs: seq<Doc>, k: nat)
    decreases docs, 1
  {
    docs == [] || (Tidy(docs[0], k) && TidyItems(docs[1..], k))
  }

  predicate TidyEntries(entries: seq<Entry>, k: nat)
    decreases entries, 1
  {
    entries == [] || (TidyEntry(entries[0], k) && TidyEntries(entries[1..], k))
  }

  predicate TidyEntry(e: Entry, k: nat)
    decreases e, 1
  {
    Tidy(e.doc, k)
  }

  const LAST_LEVEL := 16383

  /** No value lies deeper than the columns that a `u16` can count. */
  predicate Reachable(v: Value, k: nat)
    decreases v, 0
  {
    k <= LAST_LEVEL && (v.Message? ==> k < LAST_LEVEL && ReachableFields(v.fields, k + 1))
  }

  predicate ReachableFields(fields: seq<Field>, k: nat)
    decreases fields, 2
  {
    fields == [] || (ReachableField(fields[0], k) && ReachableFields(fields[1..], k))
  }

  predicate ReachableField(f: Field, k: nat)
    decreases f, 1
  {
    match f.content
    case Single(value) => value.Some? ==> Reachable(value.value, k)
    case Repeated(items) => k < LAST_LEVEL && ReachableItems(items, k + 1)
    case Mapping(pairs) => k < LAST_LEVEL && ReachablePairs(pairs, k + 1)
  }

  predicate ReachableItems(items: seq<Value>, k: nat)
    decreases items, 1
  {
    items == [] || (Reachable(items[0], k) && ReachableItems(items[1..], k))
  }

  predicate ReachablePairs(pairs: seq<Pair<Value>>, k: nat)
    decreases pairs, 2
  {
    pairs == [] || (ReachablePair(pairs[0], k) && ReachablePairs(pairs[1..], k))
  }

  predicate ReachablePair(p: Pair<Value>, k: nat)
    decreases p, 1
  {
    Reachable(p.value, k)
  }

  lemma {:induction false} MarginIsSpaces(k: nat)
    ensures Margin(k) == Spaces(4 * k)
  {
    if k > 0 {
      MarginIsSpaces(k - 1);
      assert Spaces(4 * k) == "    " + Spaces(4 * (k - 1));
    }
  }

  lemma RowIsNewline(k: nat)
    requires k <= LAST_LEVEL
    ensures Newline(4 * k) == Row(k) && (k < LAST_LEVEL ==> Deeper(4 * k) == 4 * (k + 1))
  {
    MarginIsSpaces(k);
  }

  /** Whatever is printed, each nested member or item stands four columns further to the right. */
  lemma {:induction false} LayoutIsTidy(v: Value, timestamp: bool, k: nat)
    requires Reachable(v, k)
    ensures Tidy(Layout(v, timestamp, 4 * k), k)
    decreases v, 0
  {
    if v.Message? {
      RowIsNewline(k);
      RowIsNewline(k + 1);
      FieldsAreTidy(v.fields, k + 1);
    }
  }

  lemma {:induction false} FieldsAreTidy(fields: seq<Field>, k: nat)
    requires ReachableFields(fields, k) && k <= LAST_LEVEL
    ensures TidyEntries(LayoutFields(fields, 4 * k), k)
    decreases fields, 2
  {
    if fields != [] {
      FieldsAreTidy(fields[1..], k);
      var rest := LayoutFields(fields[1..], 4 * k);
      if !IsEmpty(fields[0].content) {
        FieldIsTidy(fields[0], k);
        assert LayoutFields(fields, 4 * k)[1..] == rest;
      } else {
        assert LayoutFields(fields, 4 * k) == rest;
      }
    }
  }

  lemma {:induction false} FieldIsTidy(f: Field, k: nat)
    requires ReachableField(f, k) && k <= LAST_LEVEL && !IsEmpty(f.content)
    ensures TidyEntry(LayoutField(f, 4 * k), k)
    decreases f, 1
  {
    hide Row, Newline, Deeper, Layout, LayoutItems, LayoutPairs, Sort, Entries, TidyItems, TidyEntries;
    RowIsNewline(k);
    match f.content
    case Single(value) => LayoutIsTidy(value.value, f.timestamp, k);
    case Repeated(items) =>
      RowIsNewline(k + 1);
      ItemsAreTidy(items, f.timestamp, k + 1);
    case Mapping(pairs) =>
      RowIsNewline(k + 1);
      PairsAreTidy(pairs, f.timestamp, k + 1);
      SortedIsTidy(LayoutPairs(pairs, f.timestamp, 4 * (k + 1)), k + 1);
  }

  lemma {:induction false} ItemsAreTidy(items: seq<Value>, timestamp: bool, k: nat)
    requires ReachableItems(items, k) && k <= LAST_LEVEL
    ensures TidyItems(LayoutItems(items, timestamp, 4 * k), k)
    decreases items, 1
  {
    if items != [] {
      LayoutIsTidy(items[0], timestamp, k);
      ItemsAreTidy(items[1..], timestamp, k);
      assert LayoutItems(items, timestamp, 4 * k)[1..] == LayoutItems(items[1..], timestamp, 4 * k);
    }
  }

  predicate TidyPairs(docs: seq<Pair<Doc>>, k: nat) { forall i :: 0 <= i < |docs| ==> Tidy(docs[i].value, k) }

  lemma {:induction false} PairsAreTidy(pairs: seq<Pair<Value>>, timestamp: bool, k: nat)
    requires ReachablePairs(pairs, k) && k <= LAST_LEVEL
    ensures TidyPairs(LayoutPairs(pairs, timestamp, 4 * k), k)
    decreases pairs, 2
  {
    if pairs != [] {
      PairIsTidy(pairs[0], timestamp, k);
      hide Tidy, Layout;
      PairsAreTidy(pairs[1..], timestamp, k);
    }
  }

  lemma {:induction false} PairIsTidy(p: Pair<Value>, timestamp: bool, k: nat)
    requires ReachablePair(p, k) && k <= LAST_LEVEL
    ensures Tidy(LayoutPair(p, timestamp, 4 * k).value, k)
    decreases p, 1
  {
    LayoutIsTidy(p.value, timestamp, k);
  }

  lemma SortedIsTidy(docs: seq<Pair<Doc>>, k: nat)
    requires TidyPairs(docs, k)
    ensures TidyEntries(Entries(Sort(docs)), k)
  {
    SortKeeps(docs);
    forall i | 0 <= i < |Sort(docs)| ensures Tidy(Sort(docs)[i].value, k) {
      assert Sort(docs)[i] in Sort(docs);
    }
    EntriesAreTidy(Sort(docs), k);
  }

  lemma {:induction false} EntriesAreTidy(docs: seq<Pair<Doc>>, k: nat)
    requires TidyPairs(docs, k)
    ensures TidyEntries(Entries(docs), k)
    decreases |docs|
  {
    if docs != [] {
      hide Tidy;
      EntriesAreTidy(docs[1..], k);
      assert Entries(docs)[1..] == Entries(docs[1..]);
    }
  }

  // ----- Punctuation

  lemma TwoItems(a: Doc, b: Doc, row: Blank)
    ensures TextItems([a, b], row) == Text(a) + "," + row + Text(b)
  {
    hide Text;
    assert [a, b][1..] == [b];
  }

  lemma TwoMembers(a: Doc, b: Doc, m: string, n: string, row: Blank)
    ensures TextEntries([Entry(m, a), Entry(n, b)], row) ==
            "\"" + Escape(m) + "\": " + Text(a) + "," + row + "\"" + Escape(n) + "\": " + Text(b)
  {
    hide Text, Escape;
    var entries := [Entry(m, a), Entry(n, b)];
    assert entries[1..] == [entries[1]];
    assert TextEntries(entries, row) == TextEntry(entries[0]) + "," + row + TextEntry(entries[1]);
    Named(entries[0]);
    Named(entries[1]);
  }

  lemma Named(e: Entry)
    ensures TextEntry(e) == "\"" + Escape(e.name) + "\": " + Text(e.doc)
  {
    hide Text, Escape;
    assert "\"" + Escape(e.name) + "\"" + ": " == "\"" + Escape(e.name) + "\": ";
  }

  /** Commas stand right behind items and members, a colon and a space behind names. */
  lemma Punctuated(a: Doc, b: Doc, m: string, n: string, row: Blank, last: Blank)
    ensures Text(List(row, [a, b], row, last)) == "[" + row + (Text(a) + "," + row + Text(b)) + last + "]"
    ensures Text(Record(row, [Entry(m, a), Entry(n, b)], row, last)) ==
            "{" + row + ("\"" + Escape(m) + "\": " + Text(a) + "," + row + "\"" + Escape(n) + "\": " + Text(b)) + last
            + "}"
  {
    hide Escape, TextItems, TextEntries;
    TwoItems(a, b, row);
    TwoMembers(a, b, m, n, row);
  }
}
