/**
 * What of a run block the shell reads as comment, quotes, substitutions and line continuations carried
 * from line to line, and exactly when the exact reading removes nothing else.
 */
module WorkflowShell {
  import opened WorkflowLines

  // ----- the shell -----

  /**
   * `atWord`: a '#' here would start a comment. `dollar`: an unescaped '$' stands just before. An escape
   * keeps both for a continued line.
   */
  datatype Lex =
    | Command(atWord: bool, dollar: bool)
    | Escaped(atWord: bool, dollar: bool)
    | InSingle
    | InAnsi
    | InAnsiEscaped
    | InDouble(dollar: bool)
    | InDoubleEscaped(dollar: bool)
    | InComment

  /** A command opened by a backtick or a parenthesis, inside a double quote or not. */
  datatype Frame = Frame(ticks: bool, quoted: bool)

  datatype Shell = Shell(lex: Lex, open: seq<Frame>)

  const START := Shell(Command(true, false), [])

  /** The characters behind which the shell starts a word, as far as the exact reading goes by them. */
  predicate EndsWord(c: char) { c == ' ' || c == '\t' || c == ';' || c == '&' || c == '|' || c == '(' }

  function LexNext(l: Lex, c: char): Lex {
    match l
    case Command(atWord, dollar) =>
      if c == '#' && atWord then InComment
      else if c == '\\' then Escaped(atWord, dollar)
      else if c == '"' then InDouble(false)
      else if c == '\'' then (if dollar then InAnsi else InSingle)
      else Command(c == '\n' || EndsWord(c), c == '$' && !dollar)
    case Escaped(atWord, dollar) => if c == '\n' then Command(atWord, dollar) else Command(false, false)
    case InSingle => if c == '\'' then Command(false, false) else InSingle
    case InAnsi => if c == '\\' then InAnsiEscaped else if c == '\'' then Command(false, false) else InAnsi
    case InAnsiEscaped => InAnsi
    case InDouble(dollar) =>
      if c == '\\' then InDoubleEscaped(dollar)
      else if c == '"' then Command(false, false)
      else InDouble(c == '$' && !dollar)
    case InDoubleEscaped(dollar) => InDouble(c == '\n' && dollar)
    case InComment => if c == '\n' then Command(true, false) else InComment
  }

  predicate IsEscape(l: Lex) { l.Escaped? || l.InAnsiEscaped? || l.InDoubleEscaped? }

  predicate HasTicks(open: seq<Frame>) { open != [] && (open[|open| - 1].ticks || HasTicks(open[..|open| - 1])) }

  /** What the end of a command leads back to. */
  function Back(f: Frame): Lex { if f.quoted then InDouble(false) else Command(false, false) }

  /** Back to where the innermost backtick was opened. */
  function CloseTicks(open: seq<Frame>): Shell {
    if open == [] then START
    else if open[|open| - 1].ticks then Shell(Back(open[|open| - 1]), open[..|open| - 1])
    else CloseTicks(open[..|open| - 1])
  }

  /** A new command inside the present one, or inside a double quote. */
  function Opened(s: Shell, ticks: bool): Shell {
    Shell(Command(true, false), s.open + [Frame(ticks, s.lex.InDouble?)])
  }

  /**
   * An unescaped backtick ends the substitution it belongs to wherever it stands, in a comment as well;
   * a parenthesis, or in a double quote a "$(", opens a command that its ')' closes.
   */
  function ShellNext(s: Shell, c: char): Shell {
    if c == '`' && HasTicks(s.open) && !IsEscape(s.lex) then CloseTicks(s.open)
    else if c == '`' && (s.lex.Command? || s.lex.InDouble?) then Opened(s, true)
    else if c == '(' && (s.lex.Command? || s.lex == InDouble(true)) then Opened(s, false)
    else if c == ')' && s.lex.Command? && s.open != [] && !s.open[|s.open| - 1].ticks then
      Shell(Back(s.open[|s.open| - 1]), s.open[..|s.open| - 1])
    else Shell(LexNext(s.lex, c), s.open)
  }

  function ShellAt(s: Shell, text: string, i: nat): Shell
    requires i <= |text|
  {
    if i == 0 then s else ShellNext(ShellAt(s, text, i - 1), text[i - 1])
  }

  predicate IsComment(s: Shell, text: string, i: nat)
    requires i < |text|
  {
    ShellAt(s, text, i + 1).lex.InComment?
  }

  /** The first k characters without their comments. */
  function ReadTo(s: Shell, text: string, k: nat): string
    requires k <= |text|
  {
    if k == 0 then ""
    else if IsComment(s, text, k - 1) then ReadTo(s, text, k - 1)
    else ReadTo(s, text, k - 1) + [text[k - 1]]
  }

  /** The text as the shell reads it, without its comments. */
  function ShellReading(s: Shell, text: string): string { ReadTo(s, text, |text|) }

  lemma {:induction false} ShellAtPrefix(s: Shell, text: string, k: nat, i: nat)
    requires i <= k <= |text|
    ensures ShellAt(s, text[..k], i) == ShellAt(s, text, i)
  {
    if i > 0 { ShellAtPrefix(s, text, k, i - 1); }
  }

  lemma {:induction false} ReadToPrefix(s: Shell, text: string, k: nat, i: nat)
    requires i <= k <= |text|
    ensures ReadTo(s, text[..k], i) == ReadTo(s, text, i)
  {
    if i > 0 {
      ReadToPrefix(s, text, k, i - 1);
      ShellAtPrefix(s, text, k, i);
    }
  }

  /** The reading of a text from position k on, in the state it is in there. */
  lemma {:induction false} ReadsOn(s: Shell, text: string, k: nat, at: Shell, b: string, i: nat)
    requires k <= |text| && at == ShellAt(s, text, k) && b == text[k..] && i <= |b|
    ensures ShellAt(s, text, k + i) == ShellAt(at, b, i)
    ensures ReadTo(s, text, k + i) == ReadTo(s, text, k) + ReadTo(at, b, i)
  {
    if i > 0 {
      ReadsOn(s, text, k, at, b, i - 1);
      assert b[i - 1] == text[k + i - 1];
    }
  }

  lemma ShellReadsOn(s: Shell, a: string, b: string)
    ensures ShellAt(s, a + b, |a + b|) == ShellAt(ShellAt(s, a, |a|), b, |b|)
    ensures ShellReading(s, a + b) == ShellReading(s, a) + ShellReading(ShellAt(s, a, |a|), b)
  {
    var text := a + b;
    assert text[..|a|] == a && text[|a|..] == b;
    ShellAtPrefix(s, text, |a|, |a|);
    ReadToPrefix(s, text, |a|, |a|);
    ReadsOn(s, text, |a|, ShellAt(s, a, |a|), b, |b|);
  }

  lemma {:induction false} ReadingGrows(s: Shell, text: string, a: nat, b: nat)
    requires a <= b <= |text|
    ensures |ReadTo(s, text, a)| <= |ReadTo(s, text, b)|
  {
    if a < b { ReadingGrows(s, text, a, b - 1); }
  }

  lemma {:induction false} SkipsComment(s: Shell, text: string, d: nat, e: nat)
    requires d <= e <= |text| && forall i :: d <= i < e ==> IsComment(s, text, i)
    ensures ReadTo(s, text, e) == ReadTo(s, text, d)
  {
    if d < e { SkipsComment(s, text, d, e - 1); }
  }

  lemma {:induction false} ReadsAll(s: Shell, text: string, k: nat)
    requires k <= |text| && forall i :: 0 <= i < k ==> !IsComment(s, text, i)
    ensures ReadTo(s, text, k) == text[..k]
  {
    if k > 0 {
      ReadsAll(s, text, k - 1);
      assert text[..k] == text[..k - 1] + [text[k - 1]];
    }
  }

  // ----- line by line -----

  /** The state behind the newline that ends the line. */
  function NextLine(s: Shell, line: string): Shell { ShellNext(ShellAt(s, line, |line|), '\n') }

  function ShellLines(s: Shell, lines: seq<string>): seq<string>
    decreases |lines|
  {
    if lines == [] then [] else [ShellReading(s, lines[0])] + ShellLines(NextLine(s, lines[0]), lines[1..])
  }

  lemma NewlineIsKept(s: Shell)
    ensures ShellNext(s, '\n') == Shell(LexNext(s.lex, '\n'), s.open) && !ShellNext(s, '\n').lex.InComment?
  {
  }

  lemma ReadsNewline(s: Shell)
    ensures ShellAt(s, "\n", 1) == ShellNext(s, '\n')
    ensures ShellReading(s, "\n") == "\n"
  {
    NewlineIsKept(s);
    assert ShellAt(s, "\n", 0) == s && ReadTo(s, "\n", 0) == "";
  }

  /** The shell's reading of joined lines is its reading of each, in the state the one before leaves. */
  lemma {:induction false} ShellReadsLines(s: Shell, lines: seq<string>)
    requires lines != []
    ensures |ShellLines(s, lines)| == |lines|
    ensures ShellReading(s, Join(lines)) == Join(ShellLines(s, lines))
    decreases |lines|
  {
    var line := lines[0];
    if |lines| == 1 {
      assert ShellLines(s, lines) == [ShellReading(s, line)];
    } else {
      var rest := Join(lines[1..]);
      ShellReadsLines(NextLine(s, line), lines[1..]);
      ShellReadsOn(s, line + "\n", rest);
      ShellReadsOn(s, line, "\n");
      ReadsNewline(ShellAt(s, line, |line|));
    }
  }

  lemma {:induction false} ReadingIsOneLine(s: Shell, line: string, k: nat)
    requires OneLine(line) && k <= |line|
    ensures OneLine(ReadTo(s, line, k))
  {
    if k > 0 { ReadingIsOneLine(s, line, k - 1); }
  }

  lemma {:induction false} ReadingsAreLines(s: Shell, lines: seq<string>)
    requires OneLineEach(lines)
    ensures OneLineEach(ShellLines(s, lines))
    decreases |lines|
  {
    if lines != [] {
      assert OneLine(lines[0]);
      ReadingIsOneLine(s, lines[0], |lines[0]|);
      ReadingsAreLines(NextLine(s, lines[0]), lines[1..]);
    }
  }

  // ----- the comment that ends a line -----

  /** The start of the comment that reaches position k, k itself when none does. */
  function Reaching(s: Shell, line: string, k: nat): (c: nat)
    requires k <= |line|
    ensures c <= k
  {
    if k > 0 && IsComment(s, line, k - 1) then Reaching(s, line, k - 1) else k
  }

  /** Where the comment that runs to the line's end starts, the line's end when there is none. */
  function LastComment(s: Shell, line: string): (c: nat)
    ensures c <= |line|
  {
    Reaching(s, line, |line|)
  }

  lemma {:induction false} ReachingIs(s: Shell, line: string, k: nat)
    requires k <= |line|
    ensures forall i :: Reaching(s, line, k) <= i < k ==> IsComment(s, line, i)
    ensures Reaching(s, line, k) > 0 ==> !IsComment(s, line, Reaching(s, line, k) - 1)
  {
    if k > 0 && IsComment(s, line, k - 1) { ReachingIs(s, line, k - 1); }
  }

  // ----- the kinds of '#' the exact reading takes for a comment -----

  function ModeOf(l: Lex): Mode {
    match l
    case Command(_, _) => Bare
    case Escaped(_, _) => BareEscape
    case InSingle => Single
    case InAnsi => Single
    case InAnsiEscaped => Single
    case InDouble(_) => Double
    case InDoubleEscaped(_) => DoubleEscape
    case InComment => Bare
  }

  /** From the line's start to position i the scan of the line by itself is in the shell's mode. */
  predicate Together(s: Shell, line: string, i: nat)
    requires i <= |line|
  {
    && !ShellAt(s, line, i).lex.InComment?
    && ModeAt(line, i) == ModeOf(ShellAt(s, line, i).lex)
    && (i > 0 ==> Together(s, line, i - 1))
  }

  /** A '#' behind a separator that is itself escaped. */
  predicate BehindEscaped(line: string, i: nat)
    requires i < |line|
  {
    line[i] == '#' && i > 0 && EndsWord(line[i - 1]) && ModeAt(line, i - 1) == BareEscape
  }

  /** A '#' at the start of a line that continues a word. */
  predicate ContinuesWord(s: Shell, line: string, i: nat)
    requires i < |line|
  {
    line[i] == '#' && i == 0 && s.lex.Command? && !s.lex.atWord
  }

  /** A '#' behind a separator that starts a comment to the shell as well. */
  predicate StartsComment(s: Shell, line: string, i: nat)
    requires i < |line|
  {
    && line[i] == '#' && (i == 0 || EndsWord(line[i - 1]))
    && ShellAt(s, line, i).lex.Command? && ShellAt(s, line, i).lex.atWord
  }

  /**
   * A '#' the exact reading cuts at. As long as the scan is in the shell's mode it stands behind an escaped
   * separator, continues a word over the line's start, or starts a comment, which a backtick may end; once
   * the two have parted, it stands open in the line read by itself.
   */
  predicate CutAt(s: Shell, line: string, i: nat)
    requires i < |line|
  {
    if Together(s, line, i) then BehindEscaped(line, i) || ContinuesWord(s, line, i) || StartsComment(s, line, i)
    else Opens(line, Exact, i)
  }

  lemma CutAtIffOpens(s: Shell, line: string, i: nat)
    requires OneLine(line) && i < |line|
    ensures Opens(line, Exact, i) <==> CutAt(s, line, i)
  {
    if Together(s, line, i) && i > 0 && line[i] == '#' {
      assert Together(s, line, i - 1);
      assert ShellAt(s, line, i) == ShellNext(ShellAt(s, line, i - 1), line[i - 1]);
      assert line[i - 1] != '\n';
    }
  }

  /** No command is open inside a double quote. */
  predicate NoneQuoted(open: seq<Frame>) { forall i :: 0 <= i < |open| ==> !open[i].ticks && !open[i].quoted }

  /**
   * In a line without '$' and backticks, from a command not inside a quote, the scan is in the shell's mode
   * up to the first comment.
   */
  lemma {:induction false} TogetherUntilComment(s: Shell, line: string, i: nat)
    requires s.lex.Command? && !s.lex.dollar && NoneQuoted(s.open) && '$' !in line && '`' !in line && OneLine(line)
    requires i <= |line| && forall j :: 0 <= j < i ==> !IsComment(s, line, j)
    ensures Together(s, line, i) && NoneQuoted(ShellAt(s, line, i).open)
    ensures var l := ShellAt(s, line, i).lex; !l.InAnsi? && !l.InAnsiEscaped? && l != InDouble(true)
    ensures var l := ShellAt(s, line, i).lex; (l.Command? || l.Escaped?) ==> !l.dollar
    ensures var l := ShellAt(s, line, i).lex; l != InDoubleEscaped(true)
  {
    if i > 0 {
      TogetherUntilComment(s, line, i - 1);
      assert !IsComment(s, line, i - 1);
      var c := line[i - 1];
      assert c != '$' && c != '`' && c != '\n';
      ModeStep(ShellAt(s, line, i - 1), c);
    }
  }

  lemma ModeStep(s: Shell, c: char)
    requires !s.lex.InComment? && !s.lex.InAnsi? && !s.lex.InAnsiEscaped? && s.lex != InDouble(true) && s.lex != InDoubleEscaped(true)
    requires (s.lex.Command? || s.lex.Escaped? ==> !s.lex.dollar) && NoneQuoted(s.open)
    requires c != '$' && c != '`' && c != '\n'
    ensures var n := ShellNext(s, c);
      && (n.lex.InComment? || ModeOf(n.lex) == Next(ModeOf(s.lex), c)) && NoneQuoted(n.open)
      && !n.lex.InAnsi? && !n.lex.InAnsiEscaped? && n.lex != InDouble(true) && n.lex != InDoubleEscaped(true)
      && (n.lex.Command? || n.lex.Escaped? ==> !n.lex.dollar)
  {
  }

  /** Nothing in front of the comment that ends the line is cut at. */
  predicate NoneCutWrongly(s: Shell, line: string) {
    forall i :: 0 <= i < LastComment(s, line) ==> !CutAt(s, line, i)
  }

  lemma CutsBehindIff(s: Shell, line: string)
    requires OneLine(line)
    ensures LastComment(s, line) <= FirstFrom(line, Exact, 0) <==> NoneCutWrongly(s, line)
    ensures LastComment(s, line) == FirstFrom(line, Exact, 0) <==>
      NoneCutWrongly(s, line) && (LastComment(s, line) == |line| || CutAt(s, line, LastComment(s, line)))
  {
    var c, first := LastComment(s, line), FirstFrom(line, Exact, 0);
    FirstFromIsFirst(line, Exact, 0);
    forall i | 0 <= i < |line| ensures Opens(line, Exact, i) <==> CutAt(s, line, i) { CutAtIffOpens(s, line, i); }
    if first < c { assert CutAt(s, line, first); }
  }

  // ----- the cut line runs the same -----

  lemma {:induction false} ClosedIsCode(open: seq<Frame>)
    ensures CloseTicks(open).lex.Command? || CloseTicks(open).lex.InDouble?
  {
    if open != [] && !open[|open| - 1].ticks { ClosedIsCode(open[..|open| - 1]); }
  }

  /** On one line a comment is left by the backtick of the substitution around it, and by nothing else. */
  lemma CommentStep(s: Shell, c: char)
    requires s.lex.InComment? && c != '\n'
    ensures ShellNext(s, c).lex.InComment? ==> ShellNext(s, c) == s
    ensures !ShellNext(s, c).lex.InComment? ==> c == '`'
  {
    ClosedIsCode(s.open);
  }

  /** A comment is entered at a '#' where a word could start. */
  lemma EntersComment(s: Shell, c: char)
    requires !s.lex.InComment? && ShellNext(s, c).lex.InComment?
    ensures c == '#' && s.lex.Command? && s.lex.atWord && ShellNext(s, c) == Shell(InComment, s.open)
  {
    ClosedIsCode(s.open);
  }

  lemma {:induction false} StaysInComment(s: Shell, line: string, from: nat, i: nat)
    requires OneLine(line) && from < i <= |line| && forall j :: from <= j < i ==> IsComment(s, line, j)
    ensures ShellAt(s, line, i) == ShellAt(s, line, from + 1)
  {
    if i > from + 1 {
      StaysInComment(s, line, from, i - 1);
      assert IsComment(s, line, i - 2) && IsComment(s, line, i - 1);
      CommentStep(ShellAt(s, line, i - 1), line[i - 1]);
    }
  }

  /** Cutting a comment off changes nothing for the next line. */
  lemma SameNextLine(s: Shell, line: string, f: nat)
    requires OneLine(line) && f <= |line| && forall j :: f <= j < |line| ==> IsComment(s, line, j)
    ensures NextLine(s, line[..f]) == NextLine(s, line)
  {
    ShellAtPrefix(s, line, f, f);
    if f < |line| {
      var at := ShellAt(s, line, f);
      StaysInComment(s, line, f, |line|);
      assert IsComment(s, line, f);
      if at.lex.InComment? { CommentStep(at, line[f]); } else { EntersComment(at, line[f]); }
      NewlineIsKept(at);
      NewlineIsKept(ShellAt(s, line, |line|));
    }
  }

  lemma AllCommentFrom(s: Shell, line: string, f: nat)
    requires f <= |line|
    ensures (forall i :: f <= i < |line| ==> IsComment(s, line, i)) <==> LastComment(s, line) <= f
  {
    var c := LastComment(s, line);
    ReachingIs(s, line, |line|);
    if f < c { assert !IsComment(s, line, c - 1); }
  }

  lemma RestReadsNothingIff(s: Shell, line: string, f: nat)
    requires f <= |line|
    ensures ShellReading(s, line[..f]) == ShellReading(s, line) <==> LastComment(s, line) <= f
  {
    var c := LastComment(s, line);
    ReadToPrefix(s, line, f, f);
    ReachingIs(s, line, |line|);
    if c <= f {
      SkipsComment(s, line, f, |line|);
    } else {
      ReadingGrows(s, line, f, c - 1);
      ReadingGrows(s, line, c, |line|);
    }
  }

  /**
   * The shell reads a line the same once it is cut if and only if nothing in front of the comment that ends
   * it is cut at; and then it comes to the next line in the same state.
   */
  lemma LineKeptIff(s: Shell, line: string)
    requires OneLine(line)
    ensures ShellReading(s, Cut(line, Exact)) == ShellReading(s, line) <==> NoneCutWrongly(s, line)
    ensures NoneCutWrongly(s, line) ==> NextLine(s, Cut(line, Exact)) == NextLine(s, line)
  {
    var f := FirstFrom(line, Exact, 0);
    CutsBehindIff(s, line);
    RestReadsNothingIff(s, line, f);
    AllCommentFrom(s, line, f);
    if NoneCutWrongly(s, line) { SameNextLine(s, line, f); }
  }

  /** Line after line, each in the state the one before leaves. */
  predicate NothingCutWrongly(s: Shell, lines: seq<string>)
    decreases |lines|
  {
    lines != [] ==> NoneCutWrongly(s, lines[0]) && NothingCutWrongly(NextLine(s, lines[0]), lines[1..])
  }

  lemma {:induction false} CutLinesRunSameIff(s: Shell, lines: seq<string>)
    requires OneLineEach(lines)
    ensures ShellLines(s, CutAll(lines, Exact)) == ShellLines(s, lines) <==> NothingCutWrongly(s, lines)
    decreases |lines|
  {
    if lines != [] {
      var cuts := CutAll(lines, Exact);
      assert OneLine(lines[0]);
      LineKeptIff(s, lines[0]);
      CutLinesRunSameIff(NextLine(s, lines[0]), lines[1..]);
      assert cuts[1..] == CutAll(lines[1..], Exact);
      assert ShellLines(s, cuts)[0] == ShellReading(s, Cut(lines[0], Exact));
      assert ShellLines(s, cuts)[1..] == ShellLines(NextLine(s, Cut(lines[0], Exact)), cuts[1..]);
      assert ShellLines(s, lines)[0] == ShellReading(s, lines[0]);
      assert ShellLines(s, lines)[1..] == ShellLines(NextLine(s, lines[0]), lines[1..]);
      assert ShellLines(s, cuts) == [ShellLines(s, cuts)[0]] + ShellLines(s, cuts)[1..];
      assert ShellLines(s, lines) == [ShellLines(s, lines)[0]] + ShellLines(s, lines)[1..];
    }
  }

  // ----- whole texts -----

  lemma {:induction false} JoinSplit(text: string)
    ensures Join(Split(text)) == text
  {
    if text != "" {
      var rest := Split(text[1..]);
      JoinSplit(text[1..]);
      assert text == [text[0]] + text[1..];
      if text[0] == '\n' {
        assert ([""] + rest)[1..] == rest;
      } else {
        JoinPrepend(text[0], rest);
      }
    }
  }

  lemma JoinPrepend(c: char, rest: seq<string>)
    requires rest != []
    ensures Join([[c] + rest[0]] + rest[1..]) == [c] + Join(rest)
  {
    assert ([[c] + rest[0]] + rest[1..])[1..] == rest[1..];
  }

  /** The lines of the shell's reading of a text. */
  lemma LinesOfShell(text: string)
    ensures Split(ShellReading(START, text)) == ShellLines(START, Split(text))
  {
    SplitIntoLines(text);
    JoinSplit(text);
    ShellReadsLines(START, Split(text));
    ReadingsAreLines(START, Split(text));
    SplitJoin(ShellLines(START, Split(text)));
  }

  lemma SameLinesSameText(a: string, b: string)
    ensures Split(a) == Split(b) <==> a == b
  {
    JoinSplit(a);
    JoinSplit(b);
  }

  /** The shell reads the exact reading of the text as it reads the text. */
  predicate RunsSame(text: string) { ShellReading(START, ExecutableLines(text, Exact)) == ShellReading(START, text) }

  /**
   * Nothing the shell runs is cut if and only if no line is cut at a '#' in front of the comment that ends
   * it: one behind an escaped separator, one that continues a word over the line's start, one whose comment
   * a backtick ends, or, where a quote or substitution has parted the scan from the shell, one that stands
   * open in the line by itself.
   */
  lemma NothingRunIsCutIff(text: string)
    ensures RunsSame(text) <==> NothingCutWrongly(START, Split(text))
  {
    var exact := ExecutableLines(text, Exact);
    SplitIntoLines(text);
    LinesOfReading(text, Exact);
    LinesOfShell(text);
    LinesOfShell(exact);
    SameLinesSameText(ShellReading(START, exact), ShellReading(START, text));
    CutLinesRunSameIff(START, Split(text));
  }

  // ----- when the exact reading is the shell's -----

  /** No comment inside a backtick substitution ends on the line. */
  predicate NoneEnds(s: Shell, line: string) { forall i :: 0 <= i < LastComment(s, line) ==> !IsComment(s, line, i) }

  /** The exact reading sees the comment that ends the line. */
  predicate CommentSeen(s: Shell, line: string) {
    var c := LastComment(s, line);
    c == |line| || CutAt(s, line, c)
  }

  /** The first comment of the line, and the first character behind it, when it ends. */
  lemma {:induction false} FirstEnded(s: Shell, line: string, upto: nat) returns (d: nat)
    requires upto < |line| && IsComment(s, line, upto)
    ensures d <= upto && IsComment(s, line, d) && forall i :: 0 <= i < d ==> !IsComment(s, line, i)
  {
    if i :| 0 <= i < upto && IsComment(s, line, i) { d := FirstEnded(s, line, i); } else { d := upto; }
  }

  lemma {:induction false} FirstBehind(s: Shell, line: string, d: nat, upto: nat) returns (e: nat)
    requires d < upto < |line| && IsComment(s, line, d) && !IsComment(s, line, upto)
    ensures d < e <= upto && !IsComment(s, line, e) && forall i :: d <= i < e ==> IsComment(s, line, i)
    decreases upto
  {
    if i :| d < i < upto && !IsComment(s, line, i) { e := FirstBehind(s, line, d, i); } else { e := upto; }
  }

  /** A comment that ends on the line starts with a '#' and ends before a backtick. */
  lemma EndedByTicks(s: Shell, line: string, d: nat, e: nat)
    requires OneLine(line) && !s.lex.InComment? && d < e < |line| && !IsComment(s, line, e)
    requires IsComment(s, line, d) && (d > 0 ==> !IsComment(s, line, d - 1)) && IsComment(s, line, e - 1)
    ensures line[d] == '#' && line[e] == '`'
  {
    EntersComment(ShellAt(s, line, d), line[d]);
    CommentStep(ShellAt(s, line, e), line[e]);
  }

  /** What is read from such a line: all before the comment, then the backtick. */
  lemma ReadsAround(s: Shell, line: string, d: nat, e: nat)
    requires d < e < |line| && !IsComment(s, line, e)
    requires forall i :: 0 <= i < d ==> !IsComment(s, line, i)
    requires forall i :: d <= i < e ==> IsComment(s, line, i)
    ensures |ShellReading(s, line)| > d && ShellReading(s, line)[d] == line[e]
  {
    ReadsAll(s, line, d);
    SkipsComment(s, line, d, e);
    assert ReadTo(s, line, e + 1) == line[..d] + [line[e]];
    ReadToExtends(s, line, e + 1, |line|);
  }

  lemma {:induction false} ReadToExtends(s: Shell, line: string, a: nat, b: nat)
    requires a <= b <= |line|
    ensures ReadTo(s, line, a) <= ReadTo(s, line, b)
  {
    if a < b { ReadToExtends(s, line, a, b - 1); }
  }

  lemma ReadsTicksAt(s: Shell, line: string) returns (d: nat)
    requires OneLine(line) && !s.lex.InComment? && !NoneEnds(s, line)
    ensures d < |line| && line[d] == '#' && d < |ShellReading(s, line)| && ShellReading(s, line)[d] == '`'
  {
    var c := LastComment(s, line);
    ReachingIs(s, line, |line|);
    var i :| 0 <= i < c && IsComment(s, line, i);
    d := FirstEnded(s, line, i);
    var e := FirstBehind(s, line, d, c - 1);
    ReadsAround(s, line, d, e);
    EndedByTicks(s, line, d, e);
  }

  /** With a comment that ends on it, no start of the line is what the shell reads of it. */
  lemma EndedIsNoPrefix(s: Shell, line: string, f: nat)
    requires OneLine(line) && !s.lex.InComment? && f <= |line| && !NoneEnds(s, line)
    ensures line[..f] != ShellReading(s, line)
  {
    var d := ReadsTicksAt(s, line);
    assert f > d ==> line[..f][d] == '#';
  }

  lemma ReadsUpToComment(s: Shell, line: string)
    requires NoneEnds(s, line)
    ensures ShellReading(s, line) == line[..LastComment(s, line)]
  {
    ReachingIs(s, line, |line|);
    SkipsComment(s, line, LastComment(s, line), |line|);
    ReadsAll(s, line, LastComment(s, line));
  }

  /** A line's cut is the shell's reading of it if and only if it is cut at the comment that ends it, and no comment ends before. */
  lemma LineReadAsShellIff(s: Shell, line: string)
    requires OneLine(line) && !s.lex.InComment?
    ensures Cut(line, Exact) == ShellReading(s, line) <==>
      NoneCutWrongly(s, line) && CommentSeen(s, line) && NoneEnds(s, line)
  {
    var c, f := LastComment(s, line), FirstFrom(line, Exact, 0);
    CutsBehindIff(s, line);
    if NoneEnds(s, line) {
      ReadsUpToComment(s, line);
      assert |line[..c]| == c && |line[..f]| == f;
    } else {
      EndedIsNoPrefix(s, line, f);
    }
  }

  predicate EachReadAsShell(s: Shell, lines: seq<string>)
    decreases |lines|
  {
    lines != [] ==>
      && NoneCutWrongly(s, lines[0]) && CommentSeen(s, lines[0]) && NoneEnds(s, lines[0])
      && EachReadAsShell(NextLine(s, lines[0]), lines[1..])
  }

  lemma {:induction false} CutsAreShellsIff(s: Shell, lines: seq<string>)
    requires OneLineEach(lines) && !s.lex.InComment?
    ensures CutAll(lines, Exact) == ShellLines(s, lines) <==> EachReadAsShell(s, lines)
    decreases |lines|
  {
    if lines != [] {
      var cuts, shell := CutAll(lines, Exact), ShellLines(s, lines);
      assert OneLine(lines[0]);
      NewlineIsKept(ShellAt(s, lines[0], |lines[0]|));
      LineReadAsShellIff(s, lines[0]);
      CutsAreShellsIff(NextLine(s, lines[0]), lines[1..]);
      assert cuts[1..] == CutAll(lines[1..], Exact);
      assert shell[1..] == ShellLines(NextLine(s, lines[0]), lines[1..]);
      assert cuts == [cuts[0]] + cuts[1..] && shell == [shell[0]] + shell[1..];
    }
  }

  /** The exact reading of a text is the shell's if and only if each of its lines is read as the shell shell it. */
  lemma ExactReadingIsShellsIff(text: string)
    ensures ExecutableLines(text, Exact) == ShellReading(START, text) <==> EachReadAsShell(START, Split(text))
  {
    SplitIntoLines(text);
    LinesOfReading(text, Exact);
    LinesOfShell(text);
    SameLinesSameText(ExecutableLines(text, Exact), ShellReading(START, text));
    CutsAreShellsIff(START, Split(text));
  }

  // ----- the failing texts -----

  /** Cut at i although something at or behind i runs. */
  lemma HidesWhatRuns(s: Shell, line: string, i: nat, j: nat)
    requires OneLine(line) && i <= j < |line| && Opens(line, Exact, i) && !IsComment(s, line, j)
    ensures !NoneCutWrongly(s, line)
  {
    CutAtIffOpens(s, line, i);
    ReachingIs(s, line, |line|);
  }

  lemma OneLineHides(line: string, i: nat, j: nat)
    requires OneLine(line) && i <= j < |line| && Opens(line, Exact, i) && !IsComment(START, line, j)
    ensures !RunsSame(line)
  {
    SplitLine(line);
    HidesWhatRuns(START, line, i, j);
    NothingRunIsCutIff(line);
  }

  lemma SecondLineHides(first: string, second: string)
    requires OneLine(first) && OneLine(second) && second != "" && second[0] == '#'
    requires !IsComment(NextLine(START, first), second, 0)
    ensures !RunsSame(first + "\n" + second)
  {
    SplitBehind(first, second);
    SplitLine(second);
    HidesWhatRuns(NextLine(START, first), second, 0, 0);
    assert [first, second][1..] == [second];
    NothingRunIsCutIff(first + "\n" + second);
  }

  /** The states the shell goes through on the first characters of a line. */
  lemma {:induction false} Walk(s: Shell, head: string, tail: string, i: nat)
    requires i <= |head|
    ensures ShellAt(s, head + tail, i) == ShellAt(s, head, i)
    ensures ModeAt(head + tail, i) == ModeAt(head, i)
  {
    assert (head + tail)[..|head|] == head;
    ShellAtPrefix(s, head + tail, |head|, i);
    ModeOfPrefix(head + tail, |head|, i);
  }

  /** A '#' behind an escaped blank is part of a word, and the line is cut at it, whatever follows. */
  lemma EscapedSeparatorHides(tail: string)
    requires OneLine(tail)
    ensures !RunsSame("\\ #" + tail)
  {
    var head := "\\ #";
    assert ModeAt(head, 0) == Bare && ModeAt(head, 1) == BareEscape && ModeAt(head, 2) == Bare;
    assert ShellAt(START, head, 0) == START;
    assert ShellAt(START, head, 1).lex == Escaped(true, false);
    assert ShellAt(START, head, 2).lex == Command(false, false);
    Walk(START, head, tail, 2);
    Walk(START, head, tail, 3);
    OneLineHides(head + tail, 2, 2);
  }

  /** So is the first '#' of a line that a backslash joins to a word. */
  lemma ContinuedWordHides(tail: string)
    requires OneLine(tail)
    ensures !RunsSame("a\\" + "\n" + ("#" + tail))
  {
    var first := "a\\";
    assert ShellAt(START, first, 0) == START;
    assert ShellAt(START, first, 1).lex == Command(false, false);
    assert ShellAt(START, first, 2) == Shell(Escaped(false, false), []);
    var s := NextLine(START, first);
    assert s == Shell(Command(false, false), []);
    assert ShellAt(s, "#" + tail, 0) == s;
    SecondLineHides(first, "#" + tail);
  }

  /** And the first '#' of a line that starts inside a quote. */
  lemma OpenQuoteHides(tail: string)
    requires OneLine(tail)
    ensures !RunsSame("\"" + "\n" + ("#" + tail))
  {
    var first := "\"";
    assert ShellAt(START, first, 0) == START;
    assert ShellAt(START, first, 1) == Shell(InDouble(false), []);
    var s := NextLine(START, first);
    assert s == Shell(InDouble(false), []);
    assert ShellAt(s, "#" + tail, 0) == s;
    SecondLineHides(first, "#" + tail);
  }

  /** A '#' in a quote inside a substitution inside a quote, which the scan takes to end the outer quote. */
  lemma NestedQuoteHides(tail: string)
    requires OneLine(tail)
    ensures !RunsSame("\"$(\" #" + tail)
  {
    var head := "\"$(\" #";
    assert ModeAt(head, 0) == Bare && ModeAt(head, 1) == Double && ModeAt(head, 2) == Double;
    assert ModeAt(head, 3) == Double && ModeAt(head, 4) == Bare && ModeAt(head, 5) == Bare;
    assert ShellAt(START, head, 0) == START;
    assert ShellAt(START, head, 1) == Shell(InDouble(false), []);
    assert ShellAt(START, head, 2) == Shell(InDouble(true), []);
    assert ShellAt(START, head, 3) == Shell(Command(true, false), [Frame(false, true)]);
    assert ShellAt(START, head, 4).lex == InDouble(false);
    assert ShellAt(START, head, 5).lex == InDouble(false);
    Walk(START, head, tail, 5);
    Walk(START, head, tail, 6);
    OneLineHides(head + tail, 5, 5);
  }

  lemma AnsiQuoteStates()
    ensures var head := "$'\\' #"; Opens(head, Exact, 5) && !IsComment(START, head, 5)
  {
    var head := "$'\\' #";
    assert ModeAt(head, 0) == Bare && ModeAt(head, 1) == Bare && ModeAt(head, 2) == Single;
    assert ModeAt(head, 3) == Single && ModeAt(head, 4) == Bare && ModeAt(head, 5) == Bare;
    assert ShellAt(START, head, 0) == START;
    assert ShellAt(START, head, 1) == Shell(Command(false, true), []);
    assert ShellAt(START, head, 2) == Shell(InAnsi, []);
    assert ShellAt(START, head, 3) == Shell(InAnsiEscaped, []);
    assert ShellAt(START, head, 4) == Shell(InAnsi, []);
    assert ShellAt(START, head, 5) == Shell(InAnsi, []);
  }

  /** A '#' behind the escaped quote of a $'...', where the scan takes the quote to end. */
  lemma AnsiQuoteHides(tail: string)
    requires OneLine(tail)
    ensures !RunsSame("$'\\' #" + tail)
  {
    var head := "$'\\' #";
    AnsiQuoteStates();
    Walk(START, head, tail, 5);
    Walk(START, head, tail, 6);
    OneLineHides(head + tail, 5, 5);
  }

  lemma TicksCommentStates()
    ensures var head := "` #`"; Opens(head, Exact, 2) && !IsComment(START, head, 3)
  {
    var head := "` #`";
    assert ModeAt(head, 0) == Bare && ModeAt(head, 1) == Bare && ModeAt(head, 2) == Bare;
    assert ShellAt(START, head, 0) == START;
    var inside := [Frame(true, false)];
    assert ShellAt(START, head, 1) == Shell(Command(true, false), inside);
    assert ShellAt(START, head, 2) == Shell(Command(true, false), inside);
    assert ShellAt(START, head, 3) == Shell(InComment, inside);
    ClosedIsCode(inside);
    assert HasTicks(inside);
  }

  /** A comment in a backtick substitution ends with it, and what follows runs. */
  lemma TicksCommentHides(tail: string)
    requires OneLine(tail)
    ensures !RunsSame("` #`" + tail)
  {
    var head := "` #`";
    TicksCommentStates();
    Walk(START, head, tail, 2);
    Walk(START, head, tail, 4);
    OneLineHides(head + tail, 2, 3);
  }
}
