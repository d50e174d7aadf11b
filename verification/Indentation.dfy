/** Indentation tokens become spaces or tabs after each newline. */
module AddingIndentation {
  import opened Seqs
  import opened Tokens

  datatype Style = Spaces(n: nat) | Tabs

  /** The blanks that start a line at a given level; negative levels give none. */
  function Margin(style: Style, level: int): seq<Token> {
    if level <= 0 then []
    else match style
      case Spaces(n) => Repeat(Whitespace, level * n)
      case Tabs => Repeat(Tab, level)
  }

  /** As many spaces as the level times the width, or a tab for each level. */
  lemma MarginExactly(n: nat, level: int)
    requires level >= 0
    ensures |Margin(Spaces(n), level)| == n * level && forall t :: t in Margin(Spaces(n), level) ==> t == Whitespace
    ensures |Margin(Tabs, level)| == level && forall t :: t in Margin(Tabs, level) ==> t == Tab
  {
    assert level * n == n * level;
  }

  lemma NoMargin(style: Style, level: int)
    requires level <= 0
    ensures Margin(style, level) == []
  {}

  function Indent(style: Style, level: int, ts: seq<Token>): seq<Token>
    decreases |ts|
  {
    if ts == [] then []
    else if ts[0].Indentation? then Indent(style, level + ts[0].delta, ts[1..])
    else if ts[0].Newline? then [Newline] + Margin(style, level) + Indent(style, level, ts[1..])
    else [ts[0]] + Indent(style, level, ts[1..])
  }

  /** The level reached after `ts`. */
  function Level(ts: seq<Token>): int {
    if ts == [] then 0 else (if ts[0].Indentation? then ts[0].delta else 0) + Level(ts[1..])
  }

  /** What follows any prefix is indented at the level reached by that prefix. */
  lemma {:induction false} IndentConcat(style: Style, level: int, a: seq<Token>, b: seq<Token>)
    ensures Indent(style, level, a + b) == Indent(style, level, a) + Indent(style, level + Level(a), b)
    decreases |a|
  {
    if a == [] {
      assert a + b == b && Indent(style, level, a) == [];
    } else {
      assert (a + b)[0] == a[0] && (a + b)[1..] == a[1..] + b;
      IndentConcat(style, if a[0].Indentation? then level + a[0].delta else level, a[1..], b);
    }
  }

  /** Each newline is followed by the margin of the level at which it stands. */
  lemma IndentAtNewline(style: Style, a: seq<Token>, b: seq<Token>)
    ensures Indent(style, 0, a + [Newline] + b) ==
            Indent(style, 0, a) + [Newline] + Margin(style, Level(a)) + Indent(style, Level(a), b)
  {
    hide Margin, Level;
    Assoc(a, [Newline], b);
    IndentConcat(style, 0, a, [Newline] + b);
    assert ([Newline] + b)[1..] == b;
    var rest := Indent(style, Level(a), b);
    assert Indent(style, Level(a), [Newline] + b) == [Newline] + Margin(style, Level(a)) + rest;
    hide Indent;
    Assoc4(Indent(style, 0, a), [Newline], Margin(style, Level(a)), rest);
  }

  lemma {:induction false} IndentPreserves<X>(f: Token -> seq<X>, style: Style, level: int, ts: seq<Token>)
    requires f(Whitespace) == [] && f(Tab) == []
    requires forall t: Token :: t.Indentation? ==> f(t) == []
    ensures FlatMap(f, Indent(style, level, ts)) == FlatMap(f, ts)
    decreases |ts|
  {
    if ts != [] {
      var t, rest := ts[0], ts[1..];
      if t.Indentation? {
        IndentPreserves(f, style, level + t.delta, rest);
      } else {
        IndentPreserves(f, style, level, rest);
        var line := if t.Newline? then [Newline] + Margin(style, level) else [t];
        FlatMapNothing(f, Margin(style, level));
        FlatMapConcat(f, line, Indent(style, level, rest));
        FlatMapOne(f, t);
        if t.Newline? {
          FlatMapConcat(f, [Newline], Margin(style, level));
        }
      }
    }
  }

  class AddIndentation {
    const style: Style
    var input: seq<Token>
    var indentLevel: int
    var outputBuffer: seq<Token>

    /** Everything that the iterator will still return. */
    ghost function Remaining(): seq<Token>
      reads this
    {
      outputBuffer + Indent(style, indentLevel, input)
    }

    constructor (input: seq<Token>, style: Style)
      ensures this.style == style && Remaining() == Indent(style, 0, input)
    {
      this.input := input;
      this.style := style;
      indentLevel, outputBuffer := 0, [];
    }

    method Next() returns (r: Option<Token>)
      modifies this
      ensures r.Some? ==> old(Remaining()) == [r.value] + Remaining()
      ensures r.None? ==> old(Remaining()) == [] && Remaining() == []
    {
      if outputBuffer != [] {
        r := PopOutput();
        return;
      }
      while input != []
        invariant outputBuffer == [] && Remaining() == old(Remaining())
        decreases |input|
      {
        var token := input[0];
        input := input[1..];
        if token.Indentation? {
          indentLevel := indentLevel + token.delta;
        } else if token.Newline? {
          outputBuffer := outputBuffer + [Newline];
          PushMargin();
          r := PopOutput();
          return;
        } else {
          outputBuffer := outputBuffer + [token];
          r := PopOutput();
          return;
        }
      }
      r := None;
    }

    method PushMargin()
      modifies this`outputBuffer
      ensures outputBuffer == old(outputBuffer) + Margin(style, indentLevel)
    {
      var i := 0;
      while i < indentLevel
        invariant 0 <= i && (indentLevel <= 0 ==> i == 0) && (indentLevel > 0 ==> i <= indentLevel)
        invariant outputBuffer == old(outputBuffer) + Margin(style, i)
      {
        MarginGrows(style, i);
        match style {
          case Spaces(n) =>
            ghost var before := outputBuffer;
            for j := 0 to n
              invariant outputBuffer == before + Repeat(Whitespace, j)
            {
              assert Repeat(Whitespace, j + 1) == Repeat(Whitespace, j) + [Whitespace];
              outputBuffer := outputBuffer + [Whitespace];
            }
          case Tabs =>
            outputBuffer := outputBuffer + [Tab];
        }
        i := i + 1;
      }
    }

    method PopOutput() returns (r: Option<Token>)
      requires outputBuffer != []
      modifies this`outputBuffer
      ensures r.Some? && old(Remaining()) == [r.value] + Remaining()
    {
      r := Some(outputBuffer[0]);
      assert outputBuffer == [outputBuffer[0]] + outputBuffer[1..];
      outputBuffer := outputBuffer[1..];
    }
  }

  lemma MarginGrows(style: Style, level: nat)
    ensures Margin(style, level + 1) ==
            Margin(style, level) + if style.Tabs? then [Tab] else Repeat(Whitespace, style.n)
  {
    if style.Spaces? {
      assert (level + 1) * style.n == level * style.n + style.n;
    }
  }
}
