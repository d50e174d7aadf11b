/**
 The tokens that flow through the formatter, their categories, and the two
 projections that say what "the program" is:

 - `Essence` keeps the text tokens and the lines of the comments;
 - `Skeleton` keeps the text tokens and the Begin/End tokens of the grammar rules.

 Each character of a token's text stands for one byte of the source.
 */
module Tokens {
  import opened Seqs

  datatype Kind =
    | SourceFile | ImportStmt | IncludeStmt | RuleDecl | RuleMods | RuleTags
    | MetaBlk | MetaDef | PatternsBlk | PatternDef | PatternMod | ConditionBlk
    | BooleanExpr | WithExpr | WithDecl | HexPattern | HexJump
    | OtherKind(id: nat)

  datatype Token =
    | NoToken
    | Begin(kind: Kind)
    | End(kind: Kind)
    | Indentation(delta: int)
    | BlockBegin
    | BlockEnd
    | AlignmentBlockBegin
    | AlignmentBlockEnd
    | AlignmentMarker
    | Whitespace
    | Tab
    | Comment(text: string)
    | BlockComment(lines: seq<string>)
    | HeadComment(lines: seq<string>)
    | TailComment(lines: seq<string>)
    | InlineComment(lines: seq<string>)
    | Newline
    | Identifier(text: string)
    | Keyword(text: string)
    | Punctuation(text: string)
    | Literal(text: string)
    | LGrouping(text: string)
    | RGrouping(text: string)

  /** The base categories. A category of the source, a bitmask, is a set of these. */
  datatype Base =
    | CNone | CBegin | CEnd | CBlockBegin | CBlockEnd
    | CAlignmentBlockBegin | CAlignmentBlockEnd | CAlignmentMarker
    | CIndentation | CWhitespace | CComment | CNewline
    | CPunctuation | CIdentifier | CKeyword | CLiteral | CLGrouping | CRGrouping

  type Category = set<Base>

  const NONE: Category := {CNone}
  const COMMENT: Category := {CComment}
  const NEWLINE: Category := {CNewline}
  const CONTROL: Category :=
    {CBegin, CEnd, CIndentation, CBlockBegin, CBlockEnd, CAlignmentBlockBegin, CAlignmentBlockEnd}
  const TEXT: Category := {CKeyword, CPunctuation, CLGrouping, CRGrouping, CIdentifier, CLiteral}

  const ASTERISK := Punctuation("*")
  const COLON := Punctuation(":")
  const COMMA := Punctuation(",")
  const DOT := Punctuation(".")
  const EQUAL := Punctuation("=")
  const HYPHEN := Punctuation("-")
  const LBRACE := Punctuation("{")
  const RBRACE := Punctuation("}")
  const LPAREN := LGrouping("(")
  const RPAREN := RGrouping(")")

  function CategoryOf(t: Token): Base {
    match t
    case NoToken => CNone
    case Begin(_) => CBegin
    case End(_) => CEnd
    case Indentation(_) => CIndentation
    case BlockBegin => CBlockBegin
    case BlockEnd => CBlockEnd
    case AlignmentBlockBegin => CAlignmentBlockBegin
    case AlignmentBlockEnd => CAlignmentBlockEnd
    case AlignmentMarker => CAlignmentMarker
    case Whitespace => CWhitespace
    case Tab => CWhitespace
    case Comment(_) => CComment
    case BlockComment(_) => CComment
    case HeadComment(_) => CComment
    case TailComment(_) => CComment
    case InlineComment(_) => CComment
    case Newline => CNewline
    case Identifier(_) => CIdentifier
    case Keyword(_) => CKeyword
    case Punctuation(_) => CPunctuation
    case Literal(_) => CLiteral
    case LGrouping(_) => CLGrouping
    case RGrouping(_) => CRGrouping
  }

  predicate Is(t: Token, c: Category) {
    CategoryOf(t) in c
  }

  /** The bytes a token stands for; control tokens and processed comments give none. */
  function AsBytes(t: Token): string {
    match t
    case Whitespace => " "
    case Tab => "\t"
    case Newline => "\n"
    case Comment(s) => s
    case Identifier(s) => s
    case Keyword(s) => s
    case Punctuation(s) => s
    case Literal(s) => s
    case LGrouping(s) => s
    case RGrouping(s) => s
    case _ => ""
  }

  predicate IsBlank(t: Token) { t.Whitespace? || t.Tab? }

  predicate IsSpacing(t: Token) { IsBlank(t) || t.Newline? }

  /** Spacing and changes of the indentation level. */
  predicate IsPlain(t: Token) { IsSpacing(t) || t.Indentation? }

  /** What delimits alignment blocks and the positions to align. */
  predicate IsMark(t: Token) {
    t.AlignmentBlockBegin? || t.AlignmentBlockEnd? || t.AlignmentMarker?
  }

  // ----- Comment lines

  /** Length of the leading run of spaces and tabs. */
  function BlankPrefix(s: string): (n: nat)
    ensures n <= |s|
  {
    if s != [] && (s[0] == ' ' || s[0] == '\t') then 1 + BlankPrefix(s[1..]) else 0
  }

  /** A line without its leading spaces and tabs, which formatting may change. */
  function TrimLeft(s: string): string {
    s[BlankPrefix(s)..]
  }

  /** Index of the first line feed, or the length if there is none. */
  function LineEnd(s: string): (n: nat)
    ensures n <= |s|
    ensures n < |s| ==> s[n] == '\n'
  {
    if s == [] || s[0] == '\n' then 0 else 1 + LineEnd(s[1..])
  }

  /**
   The lines of a text without their terminators, which are "\n" or "\r\n".
   The empty text has no lines and a final terminator starts no new line.
   */
  function Lines(s: string): seq<string>
    decreases |s|
  {
    if s == [] then []
    else
      var n := LineEnd(s);
      if n == |s| then [s]
      else
        [if n > 0 && s[n - 1] == '\r' then s[..n - 1] else s[..n]] + Lines(s[n + 1..])
  }

  lemma LinesNonEmpty(s: string)
    ensures s != [] ==> Lines(s) != []
  {}

  // ----- What a stream of tokens says

  datatype Item = Text(t: Token) | Line(s: string)

  function LineItems(lines: seq<string>): (r: seq<Item>)
    ensures |r| == |lines|
    ensures forall i :: 0 <= i < |lines| ==> r[i] == Line(TrimLeft(lines[i]))
  {
    seq(|lines|, i requires 0 <= i < |lines| => Line(TrimLeft(lines[i])))
  }

  function Items(t: Token): seq<Item> {
    match t
    case Comment(s) => LineItems(Lines(s))
    case BlockComment(lines) => LineItems(lines)
    case HeadComment(lines) => LineItems(lines)
    case TailComment(lines) => LineItems(lines)
    case InlineComment(lines) => LineItems(lines)
    case _ => if Is(t, TEXT) then [Text(t)] else []
  }

  function Bone(t: Token): seq<Token> {
    if Is(t, TEXT) || t.Begin? || t.End? then [t] else []
  }

  /** Alignment marks, and the placeholder that no stream contains. */
  function Marks(t: Token): seq<Token> {
    if IsMark(t) || t.NoToken? then [t] else []
  }

  /** The text tokens and the comment lines, in order. */
  function Essence(ts: seq<Token>): seq<Item> {
    FlatMap(Items, ts)
  }

  /** The text tokens and the grammar rule delimiters, in order. */
  function Skeleton(ts: seq<Token>): seq<Token> {
    FlatMap(Bone, ts)
  }

  // ----- Nesting of grammar rules

  /** The stack of open rules after `ts`: Begin pushes and End pops, if it can. */
  function Open(stack: seq<Kind>, ts: seq<Token>): seq<Kind>
    decreases |ts|
  {
    if ts == [] then stack else Open(OpenOne(stack, ts[0]), ts[1..])
  }

  function OpenOne(stack: seq<Kind>, t: Token): seq<Kind> {
    match t
    case Begin(k) => stack + [k]
    case End(_) => if stack == [] then stack else stack[..|stack| - 1]
    case _ => stack
  }

  /** Each End closes the innermost open rule. */
  predicate Nested(stack: seq<Kind>, ts: seq<Token>)
    decreases |ts|
  {
    ts == [] || (Closes(stack, ts[0]) && Nested(OpenOne(stack, ts[0]), ts[1..]))
  }

  predicate Closes(stack: seq<Kind>, t: Token) {
    t.End? ==> stack != [] && stack[|stack| - 1] == t.kind
  }

  lemma {:induction false} OpenConcat(stack: seq<Kind>, a: seq<Token>, b: seq<Token>)
    ensures Open(stack, a + b) == Open(Open(stack, a), b)
    ensures Nested(stack, a + b) <==> Nested(stack, a) && Nested(Open(stack, a), b)
    decreases |a|
  {
    if a == [] {
      assert a + b == b;
    } else {
      assert (a + b)[0] == a[0] && (a + b)[1..] == a[1..] + b;
      OpenConcat(OpenOne(stack, a[0]), a[1..], b);
    }
  }

  /** Only the skeleton matters for the nesting of a stream. */
  lemma {:induction false} NestingOfSkeleton(stack: seq<Kind>, ts: seq<Token>)
    ensures Open(stack, Skeleton(ts)) == Open(stack, ts)
    ensures Nested(stack, Skeleton(ts)) <==> Nested(stack, ts)
    decreases |ts|
  {
    if ts != [] {
      NestingOfSkeleton(OpenOne(stack, ts[0]), ts[1..]);
      var b := Bone(ts[0]);
      assert Skeleton(ts) == b + Skeleton(ts[1..]);
      OpenConcat(stack, b, Skeleton(ts[1..]));
      if b != [] {
        assert b[1..] == [];
        assert Open(stack, b) == OpenOne(stack, ts[0]);
      }
    }
  }
}
