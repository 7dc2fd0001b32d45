/** The two readings of a workflow's run block with its shell comments removed. */
module WorkflowLines {

  // ----- where a comment starts -----

  datatype Reading = Exact | Conservative

  /** The characters the language's \s matches. */
  predicate IsSpace(c: char) {
    || c in "\t\n\r " || c == '\U{000B}' || c == '\U{000C}' || c == '\U{00A0}' || c == '\U{1680}'
    || '\U{2000}' <= c <= '\U{200A}' || c == '\U{2028}' || c == '\U{2029}' || c == '\U{202F}' || c == '\U{205F}'
    || c == '\U{3000}' || c == '\U{FEFF}'
  }

  /** After which characters a '#' opens a comment. */
  predicate Separator(r: Reading, c: char) {
    match r
    case Exact => c in " \t;&|("
    case Conservative => IsSpace(c) || c in ";&|()<>`"
  }

  /** What the shell makes of a character, given those before it. */
  datatype Mode = Bare | BareEscape | Single | Double | DoubleEscape

  function Next(m: Mode, c: char): Mode {
    match m
    case Bare => if c == '\\' then BareEscape else if c == '"' then Double else if c == '\'' then Single else Bare
    case BareEscape => Bare
    case Single => if c == '\'' then Bare else Single
    case Double => if c == '\\' then DoubleEscape else if c == '"' then Bare else Double
    case DoubleEscape => Double
  }

  function ModeAt(line: string, i: nat): Mode
    requires i <= |line|
  {
    if i == 0 then Bare else Next(ModeAt(line, i - 1), line[i - 1])
  }

  /** A '#', neither quoted nor escaped, at the start of the line or behind a separator. */
  predicate Opens(line: string, r: Reading, i: nat)
    requires i < |line|
  {
    line[i] == '#' && ModeAt(line, i) == Bare && (i == 0 || Separator(r, line[i - 1]))
  }

  /** The first comment at or after i, the end of the line when there is none. */
  function FirstFrom(line: string, r: Reading, i: nat): (k: nat)
    requires i <= |line|
    ensures i <= k <= |line|
    decreases |line| - i
  {
    if i == |line| || Opens(line, r, i) then i else FirstFrom(line, r, i + 1)
  }

  function Cut(line: string, r: Reading): string { line[..FirstFrom(line, r, 0)] }

  lemma {:induction false} FirstFromIsFirst(line: string, r: Reading, i: nat)
    requires i <= |line|
    ensures forall j :: i <= j < FirstFrom(line, r, i) ==> !Opens(line, r, j)
    ensures FirstFrom(line, r, i) < |line| ==> Opens(line, r, FirstFrom(line, r, i))
    decreases |line| - i
  {
    if i < |line| && !Opens(line, r, i) { FirstFromIsFirst(line, r, i + 1); }
  }

  lemma FirstIs(line: string, r: Reading, k: nat)
    requires k <= |line| && forall j :: 0 <= j < k ==> !Opens(line, r, j)
    requires k < |line| ==> Opens(line, r, k)
    ensures FirstFrom(line, r, 0) == k
  {
    FirstFromIsFirst(line, r, 0);
  }

  datatype Quote = Unquoted | Quoted(mark: char)

  /** The mode of a line that the scan, inside this quote, is about to read on. */
  predicate Scans(quote: Quote, m: Mode) {
    match m
    case Bare => quote == Unquoted
    case Single => quote == Quoted('\'')
    case Double => quote == Quoted('"')
    case _ => false
  }

  /** commentStart: the scan with its quote and its skips finds the first comment, or -1. */
  method CommentStart(line: string, r: Reading) returns (hash: int)
    ensures -1 <= hash < |line|
    ensures hash == -1 ==> forall j :: 0 <= j < |line| ==> !Opens(line, r, j)
    ensures hash != -1 ==> Opens(line, r, hash) && forall j :: 0 <= j < hash ==> !Opens(line, r, j)
    ensures Cut(line, r) == if hash == -1 then line else line[..hash]
  {
    var quote := Unquoted;
    var i := 0;
    while i < |line|
      invariant 0 <= i <= |line| + 1
      invariant i <= |line| ==> Scans(quote, ModeAt(line, i))
      invariant forall j :: 0 <= j < i && j < |line| ==> !Opens(line, r, j)
    {
      var c := line[i];
      assert ModeAt(line, i + 1) == Next(ModeAt(line, i), c);
      if quote.Quoted? {
        if c == '\\' && quote.mark == '"' {
          i := i + 1;
        } else if c == quote.mark {
          quote := Unquoted;
        }
      } else if c == '\\' {
        i := i + 1;
      } else if c == '"' || c == '\'' {
        quote := Quoted(c);
      } else if c == '#' && (i == 0 || Separator(r, line[i - 1])) {
        FirstIs(line, r, i);
        return i;
      }
      i := i + 1;
    }
    FirstIs(line, r, |line|);
    return -1;
  }

  /** The conservative reading cuts at a bare '#' behind whatever may end a word: shell blanks and operators, and any other blank. */
  lemma ConservativeOpensIff(line: string, i: nat)
    requires i < |line|
    ensures Opens(line, Conservative, i) <==>
      && line[i] == '#' && ModeAt(line, i) == Bare
      && (|| i == 0
          || line[i - 1] in [' ', '\t', '\n', '\r', ';', '&', '|', '(', ')', '<', '>', '`']
          || line[i - 1] as int in [0xB, 0xC, 0xA0, 0x1680, 0x2028, 0x2029, 0x202F, 0x205F, 0x3000, 0xFEFF]
          || 0x2000 <= line[i - 1] as int <= 0x200A)
  {
  }

  // ----- cutting a line -----

  lemma {:induction false} ModeOfPrefix(line: string, k: nat, i: nat)
    requires i <= k <= |line|
    ensures ModeAt(line[..k], i) == ModeAt(line, i)
  {
    if i > 0 { ModeOfPrefix(line, k, i - 1); }
  }

  /** Cutting a line short first changes nothing in front of the cut. */
  lemma FirstOfPrefix(line: string, r: Reading, k: nat)
    requires k <= |line|
    ensures FirstFrom(line[..k], r, 0) == if FirstFrom(line, r, 0) < k then FirstFrom(line, r, 0) else k
  {
    var first := FirstFrom(line, r, 0);
    FirstFromIsFirst(line, r, 0);
    forall i | 0 <= i < k ensures Opens(line[..k], r, i) <==> Opens(line, r, i) { ModeOfPrefix(line, k, i); }
    FirstIs(line[..k], r, if first < k then first else k);
  }

  /** Where the exact reading starts a comment the conservative one does too, or earlier. */
  lemma ConservativeCutsFirst(line: string)
    ensures FirstFrom(line, Conservative, 0) <= FirstFrom(line, Exact, 0)
  {
    FirstFromIsFirst(line, Conservative, 0);
    FirstFromIsFirst(line, Exact, 0);
    var k := FirstFrom(line, Exact, 0);
    if k < |line| { assert Opens(line, Conservative, k); }
  }

  lemma CutTwice(line: string, r: Reading, s: Reading)
    ensures Cut(Cut(line, r), s) == if r == s then Cut(line, r) else Cut(line, Conservative)
  {
    FirstOfPrefix(line, s, FirstFrom(line, r, 0));
    ConservativeCutsFirst(line);
  }

  // ----- whole texts -----

  function Split(text: string): (lines: seq<string>)
    ensures lines != []
  {
    if text == "" then [""]
    else
      var rest := Split(text[1..]);
      if text[0] == '\n' then [""] + rest else [[text[0]] + rest[0]] + rest[1..]
  }

  function Join(lines: seq<string>): string
    requires lines != []
  {
    if |lines| == 1 then lines[0] else lines[0] + "\n" + Join(lines[1..])
  }

  function CutAll(lines: seq<string>, r: Reading): seq<string> {
    seq(|lines|, i requires 0 <= i < |lines| => Cut(lines[i], r))
  }

  function ExecutableLines(text: string, r: Reading): string { Join(CutAll(Split(text), r)) }

  predicate OneLine(line: string) { '\n' !in line }

  predicate OneLineEach(lines: seq<string>) { forall i :: 0 <= i < |lines| ==> OneLine(lines[i]) }

  lemma {:induction false} SplitIntoLines(text: string)
    ensures OneLineEach(Split(text))
  {
    if text != "" { SplitIntoLines(text[1..]); }
  }

  lemma {:induction false} SplitLine(line: string)
    requires OneLine(line)
    ensures Split(line) == [line]
  {
    if line != "" {
      SplitLine(line[1..]);
      assert line == [line[0]] + line[1..];
    }
  }

  lemma {:induction false} SplitBehind(line: string, rest: string)
    requires OneLine(line)
    ensures Split(line + "\n" + rest) == [line] + Split(rest)
  {
    var text := line + "\n" + rest;
    if line == "" {
      assert text[1..] == rest;
    } else {
      SplitBehind(line[1..], rest);
      assert text[1..] == line[1..] + "\n" + rest;
      assert line == [line[0]] + line[1..];
    }
  }

  lemma {:induction false} SplitJoin(lines: seq<string>)
    requires lines != [] && OneLineEach(lines)
    ensures Split(Join(lines)) == lines
  {
    if |lines| == 1 {
      SplitLine(lines[0]);
    } else {
      SplitJoin(lines[1..]);
      SplitBehind(lines[0], Join(lines[1..]));
    }
  }

  /** A reading keeps the lines apart: line by line it is the cut of the text's line. */
  lemma LinesOfReading(text: string, r: Reading)
    ensures Split(ExecutableLines(text, r)) == CutAll(Split(text), r)
    ensures |Split(ExecutableLines(text, r))| == |Split(text)|
  {
    SplitIntoLines(text);
    SplitJoin(CutAll(Split(text), r));
  }

  /** Each line of the conservative reading is a start of the exact reading's, and that a start of the text's. */
  lemma ConservativeIsPrefix(text: string, i: nat)
    requires i < |Split(text)|
    ensures var exact, conservative := Split(ExecutableLines(text, Exact)), Split(ExecutableLines(text, Conservative));
      && |exact| == |conservative| == |Split(text)|
      && conservative[i] <= exact[i] <= Split(text)[i]
  {
    LinesOfReading(text, Exact);
    LinesOfReading(text, Conservative);
    ConservativeCutsFirst(Split(text)[i]);
  }

  lemma CutAllTwice(lines: seq<string>, r: Reading, s: Reading)
    ensures CutAll(CutAll(lines, r), s) == if r == s then CutAll(lines, r) else CutAll(lines, Conservative)
  {
    var want := if r == s then CutAll(lines, r) else CutAll(lines, Conservative);
    forall i | 0 <= i < |lines| ensures CutAll(CutAll(lines, r), s)[i] == want[i] { CutTwice(lines[i], r, s); }
    assert CutAll(CutAll(lines, r), s) == want;
  }

  /** Reading twice is reading once; reading both ways, in either order, is reading conservatively. */
  lemma ReadingsCompose(text: string, r: Reading, s: Reading)
    ensures ExecutableLines(ExecutableLines(text, r), s) ==
      if r == s then ExecutableLines(text, r) else ExecutableLines(text, Conservative)
  {
    LinesOfReading(text, r);
    CutAllTwice(Split(text), r, s);
  }
}
