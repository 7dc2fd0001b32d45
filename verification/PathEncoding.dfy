/**
 * The Go client's path encoder and path checker, as a printer and a parser of path segments.
 *
 * A Go string is a sequence of bytes; here it is a string whose characters are all below 256.
 */
module PathEncoding {
  import opened Basics

  predicate IsBytes(s: string) { forall i :: 0 <= i < |s| ==> s[i] as int < 256 }

  // ----- splitting -----

  datatype Separators = Slash | AnySlash

  predicate IsSeparator(k: Separators, c: char) { c == '/' || (k == AnySlash && c == '\\') }

  /** The parts of `s` between separators: always at least one. */
  function Split(k: Separators, s: string): (parts: seq<string>)
    ensures |parts| >= 1
  {
    if s == "" then [""]
    else if IsSeparator(k, s[0]) then [""] + Split(k, s[1..])
    else var rest := Split(k, s[1..]); [[s[0]] + rest[0]] + rest[1..]
  }

  predicate Unsplit(k: Separators, s: string) { forall i :: 0 <= i < |s| ==> !IsSeparator(k, s[i]) }

  lemma {:induction false} SplitOne(k: Separators, s: string)
    requires Unsplit(k, s)
    ensures Split(k, s) == [s]
  {
    if s != "" {
      SplitOne(k, s[1..]);
      assert [s[0]] + s[1..] == s;
    }
  }

  lemma {:induction false} SplitAt(k: Separators, s: string, c: char, t: string)
    requires Unsplit(k, s) && IsSeparator(k, c)
    ensures Split(k, s + [c] + t) == [s] + Split(k, t)
  {
    var all := s + [c] + t;
    if s == "" {
      assert all[1..] == t;
    } else {
      SplitAt(k, s[1..], c, t);
      assert all[1..] == s[1..] + [c] + t;
      assert [s[0]] + s[1..] == s;
    }
  }

  // ----- percent-encoding -----

  function Hex(n: int): char
    requires 0 <= n < 16
  {
    if n < 10 then ('0' as int + n) as char else ('A' as int + n - 10) as char
  }

  function HexValue(c: char): Option<int> {
    if '0' <= c <= '9' then Some(c as int - '0' as int)
    else if 'A' <= c <= 'F' then Some(c as int - 'A' as int + 10)
    else if 'a' <= c <= 'f' then Some(c as int - 'a' as int + 10)
    else None
  }

  /** The bytes url.PathEscape writes as they are. */
  predicate Plain(c: char) {
    'a' <= c <= 'z' || 'A' <= c <= 'Z' || '0' <= c <= '9' || c in "-_.~$&+=:@"
  }

  function EscapeByte(c: char): string
    requires c as int < 256
  {
    if Plain(c) then [c] else ['%', Hex(c as int / 16), Hex(c as int % 16)]
  }

  const UPPER: string := "ABCDEFGHIJKLMNOPQRSTUVWXYZ"
  const LOWER: string := "abcdefghijklmnopqrstuvwxyz"

  lemma IsUpper(c: char)
    ensures 'A' <= c <= 'Z' <==> c in UPPER
  {
    if 'A' <= c <= 'Z' { assert UPPER[c as int - 'A' as int] == c; }
  }

  lemma IsLower(c: char)
    ensures 'a' <= c <= 'z' <==> c in LOWER
  {
    if 'a' <= c <= 'z' { assert LOWER[c as int - 'a' as int] == c; }
  }

  /** A byte is written as it is exactly when it is one of these; any other becomes "%" and its two digits. */
  lemma EscapesAllBut(c: char)
    requires c as int < 256
    ensures EscapeByte(c) == [c] <==> c in UPPER || c in LOWER || c in "0123456789" || c in "-_.~$&+=:@"
  {
    IsUpper(c);
    IsLower(c);
  }

  /** The sixteen digits, in either case. */
  lemma HexDigitsRead(n: nat)
    requires n < 16
    ensures HexValue("0123456789ABCDEF"[n]) == Some(n) && HexValue("0123456789abcdef"[n]) == Some(n)
  {
  }

  function UrlPathEscape(s: string): string
    requires IsBytes(s)
  {
    if s == "" then "" else EscapeByte(s[0]) + UrlPathEscape(s[1..])
  }

  /** Section 2.1 of RFC 3986: "%" and two hexadecimal digits stand for a byte. */
  function PercentDecode(s: string): Option<string> {
    if s == "" then Some("")
    else if s[0] != '%' then
      var rest := PercentDecode(s[1..]);
      if rest.Some? then Some([s[0]] + rest.value) else None
    else if |s| < 3 || HexValue(s[1]).None? || HexValue(s[2]).None? then None
    else
      var rest := PercentDecode(s[3..]);
      if rest.Some? then Some([(16 * HexValue(s[1]).value + HexValue(s[2]).value) as char] + rest.value) else None
  }

  // ----- the strings.Replacer tables -----

  datatype Table = Jid | Dots | Slashes

  /** The replacement of a three-byte match. */
  function Replacement(t: Table, s: string): Option<char>
    requires |s| == 3
  {
    match t
    case Jid => if s == "%40" then Some('@') else if s == "%3A" then Some(':') else if s == "%2B" then Some('+') else None
    case Dots => if s == "%2e" || s == "%2E" then Some('.') else None
    case Slashes =>
      if s == "%2f" || s == "%2F" || s == "%5c" || s == "%5C" then Some('/') else None
  }

  /** Replace at each position the match that starts there, left to right and without overlap. */
  function Replace(t: Table, s: string): string {
    if s == "" then ""
    else if |s| >= 3 && Replacement(t, s[..3]).Some? then [Replacement(t, s[..3]).value] + Replace(t, s[3..])
    else if t == Slashes && s[0] == '\\' then ['/'] + Replace(t, s[1..])
    else [s[0]] + Replace(t, s[1..])
  }

  function PathEscape(segment: string): string
    requires IsBytes(segment)
  {
    Replace(Jid, UrlPathEscape(segment))
  }

  // ----- the checker -----

  predicate PartOk(part: string) { Replace(Dots, part) != "." && Replace(Dots, part) != ".." }

  predicate PartsOk(parts: seq<string>) { forall i :: 0 <= i < |parts| ==> PartOk(parts[i]) }

  predicate SegmentOk(segment: string, allowEmpty: bool) {
    if segment == "" then allowEmpty else PartsOk(Split(Slash, Replace(Slashes, segment)))
  }

  /** The path before its query or fragment. */
  function CutQuery(path: string): string {
    if path == "" || path[0] == '?' || path[0] == '#' then ""
    else [path[0]] + CutQuery(path[1..])
  }

  function Segments(path: string): seq<string> { Split(Slash, CutQuery(path))[1..] }

  predicate PathOk(path: string, allowEmpty: bool) {
    && path != "" && path[0] == '/'
    && forall i :: 0 <= i < |Segments(path)| ==> SegmentOk(Segments(path)[i], allowEmpty)
  }

  datatype PathError = NotAbsolute | EmptySegment | DotSegment

  method CheckPathSegments(path: string, allowEmpty: bool) returns (err: Option<PathError>)
    ensures err.None? <==> PathOk(path, allowEmpty)
  {
    if path == "" || path[0] != '/' {
      return Some(NotAbsolute);
    }
    var segments := Split(Slash, CutQuery(path))[1..];
    for i := 0 to |segments|
      invariant forall k :: 0 <= k < i ==> SegmentOk(segments[k], allowEmpty)
    {
      if segments[i] == "" {
        if !allowEmpty {
          assert !SegmentOk(Segments(path)[i], allowEmpty);
          return Some(EmptySegment);
        }
      } else {
        var parts := Split(Slash, Replace(Slashes, segments[i]));
        for j := 0 to |parts|
          invariant forall k :: 0 <= k < j ==> PartOk(parts[k])
        {
          var dots := Replace(Dots, parts[j]);
          if dots == "." || dots == ".." {
            assert !PartOk(parts[j]);
            assert !SegmentOk(Segments(path)[i], allowEmpty);
            return Some(DotSegment);
          }
        }
      }
    }
    return None;
  }

  // ----- what one escaped byte looks like -----

  lemma HexIsPlain(n: int)
    requires 0 <= n < 16
    ensures HexValue(Hex(n)) == Some(n)
    ensures Hex(n) !in "/?#\\%"
  {
  }

  lemma EscapedByteIsSafe(c: char, i: nat)
    requires c as int < 256 && i < |EscapeByte(c)|
    ensures EscapeByte(c)[i] !in "/?#\\"
    ensures i > 0 ==> EscapeByte(c)[i] != '%'
  {
    HexIsPlain(c as int / 16);
    HexIsPlain(c as int % 16);
  }

  lemma {:induction false} EscapedIsSafe(s: string, i: nat)
    requires IsBytes(s) && i < |UrlPathEscape(s)|
    ensures UrlPathEscape(s)[i] !in "/?#\\"
  {
    var head := EscapeByte(s[0]);
    if i < |head| {
      EscapedByteIsSafe(s[0], i);
    } else {
      EscapedIsSafe(s[1..], i - |head|);
    }
  }

  /** Decoding an escaped segment gives the segment back. */
  lemma {:induction false} DecodeEscaped(s: string)
    requires IsBytes(s)
    ensures PercentDecode(UrlPathEscape(s)) == Some(s)
  {
    if s != "" {
      DecodeEscaped(s[1..]);
      DecodesByte(s[0], UrlPathEscape(s[1..]));
      assert [s[0]] + s[1..] == s;
    }
  }

  lemma DecodesByte(c: char, tail: string)
    requires c as int < 256 && PercentDecode(tail).Some?
    ensures PercentDecode(EscapeByte(c) + tail) == Some([c] + PercentDecode(tail).value)
  {
    var all := EscapeByte(c) + tail;
    if Plain(c) {
      assert all[1..] == tail;
    } else {
      HexIsPlain(c as int / 16);
      HexIsPlain(c as int % 16);
      assert all[3..] == tail;
    }
  }

  lemma EscapeInjective(s: string, t: string)
    requires IsBytes(s) && IsBytes(t) && UrlPathEscape(s) == UrlPathEscape(t)
    ensures s == t
  {
    DecodeEscaped(s);
    DecodeEscaped(t);
  }

  // ----- the tables on escaped text -----

  /** A match of `t` at an escaped byte is the escape of the byte it stands for. */
  lemma ReplacementOfEscape(t: Table, c: char)
    requires c as int < 256 && !Plain(c)
    ensures Replacement(t, EscapeByte(c)) == if t == Slashes && (c == '/' || c == '\\') then Some('/') else None
  {
    var e := EscapeByte(c);
    HexIsPlain(c as int / 16);
    HexIsPlain(c as int % 16);
    assert c as int == 16 * (c as int / 16) + c as int % 16;
    assert e == "%40" ==> c as int == 64;
    assert e == "%3A" ==> c as int == 58;
    assert e == "%2B" ==> c as int == 43;
    assert e == "%2E" ==> c as int == 46;
    assert e == "%2F" ==> c as int == 47;
    assert e == "%5C" ==> c as int == 92;
    if c == '/' { assert e == "%2F"; }
    if c == '\\' { assert e == "%5C"; }
  }

  /** The escape of `s` with each slash and backslash written as a plain slash. */
  function Slashed(s: string): string
    requires IsBytes(s)
  {
    if s == "" then ""
    else (if IsSeparator(AnySlash, s[0]) then "/" else EscapeByte(s[0])) + Slashed(s[1..])
  }

  lemma {:induction false} ReplaceEscaped(t: Table, s: string)
    requires IsBytes(s)
    ensures Replace(t, UrlPathEscape(s)) == if t == Slashes then Slashed(s) else UrlPathEscape(s)
  {
    if s != "" {
      ReplaceEscaped(t, s[1..]);
      if Plain(s[0]) {
        ReplacePlain(t, s[0], UrlPathEscape(s[1..]));
      } else {
        ReplaceByte(t, s[0], UrlPathEscape(s[1..]));
      }
    }
  }

  lemma ReplacePlain(t: Table, c: char, tail: string)
    requires c as int < 256 && Plain(c)
    ensures Replace(t, EscapeByte(c) + tail) == EscapeByte(c) + Replace(t, tail)
  {
    var all := EscapeByte(c) + tail;
    assert all[1..] == tail && all[0] != '%';
    if |all| >= 3 { NoReplacement(t, all[..3]); }
  }

  lemma ReplaceByte(t: Table, c: char, tail: string)
    requires c as int < 256 && !Plain(c)
    ensures Replace(t, EscapeByte(c) + tail) ==
      (if t == Slashes && (c == '/' || c == '\\') then "/" else EscapeByte(c)) + Replace(t, tail)
  {
    var head := EscapeByte(c);
    var all := head + tail;
    assert all[..3] == head && all[3..] == tail && all[1..] == head[1..] + tail;
    ReplacementOfEscape(t, c);
    EscapedByteIsSafe(c, 1);
    EscapedByteIsSafe(c, 2);
    if Replacement(t, head).None? { ReplaceThree(t, head, tail); }
  }

  lemma NoReplacement(t: Table, s: string)
    requires |s| == 3 && s[0] != '%'
    ensures Replacement(t, s) == None
  {
  }

  /** Past an unmatched escape the scan resumes in step with the text that follows. */
  lemma ReplaceThree(t: Table, head: string, tail: string)
    requires |head| == 3 && head[0] == '%' && Replacement(t, head) == None
    requires head[1] != '%' && head[1] != '\\' && head[2] != '%' && head[2] != '\\'
    ensures Replace(t, head + tail) == head + Replace(t, tail)
  {
    var all := head + tail;
    assert all[..3] == head;
    assert Replace(t, all) == [all[0]] + Replace(t, all[1..]);
    var two := all[1..];
    assert two[1..] == [head[2]] + tail && two[2..] == tail;
    if |two| >= 3 { NoReplacement(t, two[..3]); }
    assert Replace(t, two) == [two[0]] + Replace(t, two[1..]);
    var one := two[1..];
    assert one[1..] == tail;
    if |one| >= 3 { NoReplacement(t, one[..3]); }
    assert Replace(t, one) == [one[0]] + Replace(t, one[1..]);
  }

  /** The readable-JID restorer never finds anything to restore: "@", ":" and "+" are not escaped at all. */
  lemma PathEscapeIsUrlPathEscape(s: string)
    requires IsBytes(s)
    ensures PathEscape(s) == UrlPathEscape(s)
  {
    ReplaceEscaped(Jid, s);
  }

  // ----- the checker on an escaped id -----

  /** Each part escaped. */
  function EscapeEach(parts: seq<string>): seq<string>
    requires forall i :: 0 <= i < |parts| ==> IsBytes(parts[i])
  {
    seq(|parts|, i requires 0 <= i < |parts| => UrlPathEscape(parts[i]))
  }

  lemma {:induction false} SplitIsBytes(k: Separators, s: string)
    requires IsBytes(s)
    ensures forall i :: 0 <= i < |Split(k, s)| ==> IsBytes(Split(k, s)[i])
  {
    if s != "" { SplitIsBytes(k, s[1..]); }
  }

  lemma {:induction false} SplitSlashed(s: string)
    requires IsBytes(s)
    ensures forall i :: 0 <= i < |Split(AnySlash, s)| ==> IsBytes(Split(AnySlash, s)[i])
    ensures Split(Slash, Slashed(s)) == EscapeEach(Split(AnySlash, s))
  {
    SplitIsBytes(AnySlash, s);
    if s != "" {
      SplitSlashed(s[1..]);
      var rest := Split(AnySlash, s[1..]);
      if IsSeparator(AnySlash, s[0]) {
        SplitAtSlash(Slashed(s[1..]), rest);
      } else {
        SplitAfterByte(s[0], Slashed(s[1..]), rest);
      }
    }
  }

  lemma SplitAtSlash(tail: string, rest: seq<string>)
    requires rest != [] && forall i :: 0 <= i < |rest| ==> IsBytes(rest[i])
    requires Split(Slash, tail) == EscapeEach(rest)
    ensures Split(Slash, "/" + tail) == EscapeEach([""] + rest)
  {
    assert ("/" + tail)[1..] == tail;
    assert EscapeEach([""] + rest) == [""] + EscapeEach(rest);
  }

  lemma SplitAfterByte(c: char, tail: string, rest: seq<string>)
    requires c as int < 256 && rest != [] && forall i :: 0 <= i < |rest| ==> IsBytes(rest[i])
    requires IsBytes([c] + rest[0]) && Split(Slash, tail) == EscapeEach(rest)
    ensures Split(Slash, EscapeByte(c) + tail) == EscapeEach([[c] + rest[0]] + rest[1..])
  {
    EscapedByteUnsplit(c);
    SplitPrefix(EscapeByte(c), tail);
    EscapeFirst(c, rest);
  }

  lemma EscapedByteUnsplit(c: char)
    requires c as int < 256
    ensures Unsplit(Slash, EscapeByte(c))
  {
    forall i | 0 <= i < |EscapeByte(c)| ensures !IsSeparator(Slash, EscapeByte(c)[i]) {
      EscapedByteIsSafe(c, i);
    }
  }

  lemma EscapeFirst(c: char, rest: seq<string>)
    requires c as int < 256 && rest != [] && forall i :: 0 <= i < |rest| ==> IsBytes(rest[i])
    requires IsBytes([c] + rest[0])
    ensures EscapeEach([[c] + rest[0]] + rest[1..]) == [EscapeByte(c) + EscapeEach(rest)[0]] + EscapeEach(rest)[1..]
  {
    assert ([c] + rest[0])[1..] == rest[0];
  }

  lemma {:induction false} SplitPrefix(s: string, t: string)
    requires Unsplit(Slash, s)
    ensures Split(Slash, s + t) == [s + Split(Slash, t)[0]] + Split(Slash, t)[1..]
  {
    if s == "" {
      assert s + t == t && s + Split(Slash, t)[0] == Split(Slash, t)[0];
      assert Split(Slash, t) == [Split(Slash, t)[0]] + Split(Slash, t)[1..];
    } else {
      SplitPrefix(s[1..], t);
      assert (s + t)[1..] == s[1..] + t;
      assert [s[0]] + (s[1..] + Split(Slash, t)[0]) == s + Split(Slash, t)[0];
    }
  }

  /** No part of the id between slashes or backslashes is a dot segment. */
  predicate NoDotPart(id: string) {
    var parts := Split(AnySlash, id);
    forall i :: 0 <= i < |parts| ==> parts[i] != "." && parts[i] != ".."
  }

  lemma DotsEscaped()
    ensures UrlPathEscape(".") == "." && UrlPathEscape("..") == ".."
  {
    assert UrlPathEscape("") == "" && "."[1..] == "" && ".."[1..] == ".";
    assert UrlPathEscape(".") == "." + UrlPathEscape("");
    assert UrlPathEscape("..") == "." + UrlPathEscape(".");
  }

  /** A text that escapes to itself is the escape of nothing else. */
  lemma OnlyItself(part: string, dots: string)
    requires IsBytes(part) && IsBytes(dots) && UrlPathEscape(dots) == dots
    ensures UrlPathEscape(part) == dots <==> part == dots
  {
    if UrlPathEscape(part) == dots { EscapeInjective(part, dots); }
  }

  lemma DotsKeepShape(part: string)
    requires IsBytes(part)
    ensures Replace(Dots, UrlPathEscape(part)) == "." <==> part == "."
    ensures Replace(Dots, UrlPathEscape(part)) == ".." <==> part == ".."
  {
    ReplaceEscaped(Dots, part);
    DotsEscaped();
    OnlyItself(part, ".");
    OnlyItself(part, "..");
  }

  lemma EscapedPartsOk(parts: seq<string>)
    requires forall i :: 0 <= i < |parts| ==> IsBytes(parts[i])
    ensures PartsOk(EscapeEach(parts)) <==> forall i :: 0 <= i < |parts| ==> parts[i] != "." && parts[i] != ".."
  {
    forall i | 0 <= i < |parts| ensures PartOk(EscapeEach(parts)[i]) <==> parts[i] != "." && parts[i] != ".." {
      DotsKeepShape(parts[i]);
    }
  }

  /** An escaped id passes exactly when it is not empty and has no dot part. */
  lemma EscapedSegmentOk(id: string)
    requires IsBytes(id)
    ensures SegmentOk(PathEscape(id), false) <==> id != "" && NoDotPart(id)
  {
    PathEscapeIsUrlPathEscape(id);
    if id != "" {
      ReplaceEscaped(Slashes, id);
      SplitSlashed(id);
      EscapedPartsOk(Split(AnySlash, id));
    }
  }

  // ----- typed paths -----

  /** A path as the typed services build it: fixed words and ids, each a segment of its own. */
  datatype Piece = Word(text: string) | Id(id: string)

  /** A fixed word of a route: none of the characters the checker or the splitter react to. */
  predicate PieceOk(p: Piece) {
    match p
    case Word(w) => w != "" && w != "." && w != ".." && (forall i :: 0 <= i < |w| ==> w[i] !in "/?#%\\")
    case Id(id) => IsBytes(id)
  }

  predicate TemplateOk(template: seq<Piece>) { forall i :: 0 <= i < |template| ==> PieceOk(template[i]) }

  function Render(p: Piece): string
    requires PieceOk(p)
  {
    match p
    case Word(w) => w
    case Id(id) => PathEscape(id)
  }

  function Rendered(template: seq<Piece>): seq<string>
    requires TemplateOk(template)
  {
    seq(|template|, i requires 0 <= i < |template| => Render(template[i]))
  }

  function PathOf(template: seq<Piece>): string
    requires TemplateOk(template)
  {
    if template == [] then "" else "/" + Render(template[0]) + PathOf(template[1..])
  }

  lemma RenderIsSafe(p: Piece, i: nat)
    requires PieceOk(p) && i < |Render(p)|
    ensures Render(p)[i] !in "/?#\\"
  {
    if p.Id? {
      PathEscapeIsUrlPathEscape(p.id);
      EscapedIsSafe(p.id, i);
    }
  }

  lemma {:induction false} NothingToCut(s: string)
    requires forall i :: 0 <= i < |s| ==> s[i] != '?' && s[i] != '#'
    ensures CutQuery(s) == s
  {
    if s != "" { NothingToCut(s[1..]); }
  }

  lemma {:induction false} PathHasNoQuery(template: seq<Piece>, i: nat)
    requires TemplateOk(template) && i < |PathOf(template)|
    ensures PathOf(template)[i] != '?' && PathOf(template)[i] != '#'
  {
    var head := Render(template[0]);
    if 1 <= i < 1 + |head| {
      RenderIsSafe(template[0], i - 1);
    } else if i >= 1 + |head| {
      PathHasNoQuery(template[1..], i - 1 - |head|);
    }
  }

  lemma SplitStep(head: string, rest: string, parts: seq<string>)
    requires Unsplit(Slash, head) && Split(Slash, rest) == [""] + parts
    ensures Split(Slash, "/" + head + rest) == [""] + ([head] + parts)
  {
    assert ("/" + head + rest)[1..] == head + rest;
    SplitPrefix(head, rest);
    assert head + "" == head;
  }

  lemma RenderIsUnsplit(p: Piece)
    requires PieceOk(p)
    ensures Unsplit(Slash, Render(p))
  {
    forall i | 0 <= i < |Render(p)| ensures !IsSeparator(Slash, Render(p)[i]) { RenderIsSafe(p, i); }
  }

  lemma {:induction false} SplitPath(template: seq<Piece>)
    requires TemplateOk(template)
    ensures Split(Slash, PathOf(template)) == [""] + Rendered(template)
  {
    if template != [] {
      var head := Render(template[0]);
      SplitPath(template[1..]);
      RenderIsUnsplit(template[0]);
      SplitStep(head, PathOf(template[1..]), Rendered(template[1..]));
      assert Rendered(template) == [head] + Rendered(template[1..]);
    }
  }

  /** A typed path splits into exactly its template's segments, and an id segment decodes back to its id. */
  lemma PathSplitsIntoTemplate(template: seq<Piece>)
    requires TemplateOk(template)
    ensures |Segments(PathOf(template))| == |template|
    ensures forall i :: 0 <= i < |template| ==>
      match template[i]
      case Word(w) => Segments(PathOf(template))[i] == w
      case Id(id) => PercentDecode(Segments(PathOf(template))[i]) == Some(id)
  {
    SegmentsOfPath(template);
    forall i | 0 <= i < |template| && template[i].Id? ensures PercentDecode(Rendered(template)[i]) == Some(template[i].id) {
      PathEscapeIsUrlPathEscape(template[i].id);
      DecodeEscaped(template[i].id);
    }
  }

  lemma WordSegmentOk(w: string)
    requires PieceOk(Word(w))
    ensures SegmentOk(w, false)
  {
    NothingToReplace(Slashes, w);
    SplitOne(Slash, w);
    NothingToReplace(Dots, w);
  }

  lemma {:induction false} NothingToReplace(t: Table, s: string)
    requires forall i :: 0 <= i < |s| ==> s[i] != '%' && s[i] != '\\'
    ensures Replace(t, s) == s
  {
    if s != "" {
      if |s| >= 3 { NoReplacement(t, s[..3]); }
      NothingToReplace(t, s[1..]);
      assert [s[0]] + s[1..] == s;
    }
  }

  /** A typed request is accepted exactly when no id is empty and no id has a dot part. */
  lemma TypedPathAcceptedIff(template: seq<Piece>)
    requires TemplateOk(template) && template != []
    ensures PathOk(PathOf(template), false) <==>
      forall i :: 0 <= i < |template| && template[i].Id? ==> template[i].id != "" && NoDotPart(template[i].id)
  {
    SegmentsOfPath(template);
    forall i | 0 <= i < |template|
      ensures SegmentOk(Rendered(template)[i], false) <==>
        (template[i].Id? ==> template[i].id != "" && NoDotPart(template[i].id))
    {
      match template[i] {
        case Word(w) => WordSegmentOk(w);
        case Id(id) => EscapedSegmentOk(id);
      }
    }
  }

  // ----- the keyed send routes -----

  const SEND_SEGMENTS: set<string> := {
    "send-text", "send-image", "send-video", "send-audio", "send-document", "send-sticker", "send-location",
    "send-contact", "send-template", "send-poll", "reply", "forward"}

  predicate IsSendSegment(s: string) { s in SEND_SEGMENTS }

  /** /api/sessions/{id}/messages/{segment}, for one of the segments that take an idempotency key. */
  predicate IsIdempotentSendPath(path: string) {
    var parts := Split(Slash, CutQuery(path));
    && |parts| == 6 && parts[1] == "api" && parts[2] == "sessions" && parts[4] == "messages"
    && IsSendSegment(parts[5])
  }

  lemma SegmentsOfPath(template: seq<Piece>)
    requires TemplateOk(template)
    ensures CutQuery(PathOf(template)) == PathOf(template)
    ensures Split(Slash, CutQuery(PathOf(template))) == [""] + Rendered(template)
    ensures Segments(PathOf(template)) == Rendered(template)
  {
    forall i | 0 <= i < |PathOf(template)| ensures PathOf(template)[i] != '?' && PathOf(template)[i] != '#' {
      PathHasNoQuery(template, i);
    }
    NothingToCut(PathOf(template));
    SplitPath(template);
  }

  /** A typed path is a keyed send route exactly when its template is one, whatever the session id. */
  lemma TypedSendPathIff(template: seq<Piece>)
    requires TemplateOk(template)
    ensures IsIdempotentSendPath(PathOf(template)) <==>
      && |template| == 5
      && Render(template[0]) == "api" && Render(template[1]) == "sessions"
      && Render(template[3]) == "messages" && IsSendSegment(Render(template[4]))
  {
    SegmentsOfPath(template);
    var parts := Split(Slash, CutQuery(PathOf(template)));
    assert |parts| == 1 + |template|;
    forall i | 0 <= i < |template| ensures parts[i + 1] == Render(template[i]) {
      assert parts[i + 1] == Rendered(template)[i];
    }
    if |template| == 5 {
      assert parts[0 + 1] == Render(template[0]) && parts[1 + 1] == Render(template[1]);
      assert parts[3 + 1] == Render(template[3]) && parts[4 + 1] == Render(template[4]);
    }
  }
}
