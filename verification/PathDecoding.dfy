/** What the path check refuses, said of the path as a server decodes it. */
module PathDecoding {
  import opened Basics
  import opened PathEncoding

  // ----- one encoded byte at a time -----

  /** How much of s its first byte takes. */
  function Width(s: string): nat
    requires s != "" && PercentDecode(s).Some?
  {
    if s[0] == '%' then 3 else 1
  }

  lemma DecodesFirst(s: string)
    requires s != "" && PercentDecode(s).Some?
    ensures Width(s) <= |s| && PercentDecode(s[Width(s)..]).Some? && PercentDecode(s).value != ""
    ensures PercentDecode(s).value[1..] == PercentDecode(s[Width(s)..]).value
    ensures s[0] != '%' ==> PercentDecode(s).value[0] == s[0]
    ensures s[0] == '%' ==>
      && HexValue(s[1]).Some? && HexValue(s[2]).Some?
      && PercentDecode(s).value[0] as int == 16 * HexValue(s[1]).value + HexValue(s[2]).value
  {
  }

  /** A table's three-byte matches, in either case, are exactly the ways to encode the bytes it folds. */
  lemma ReplacementIff(t: Table, three: string)
    requires |three| == 3 && three[0] == '%' && HexValue(three[1]).Some? && HexValue(three[2]).Some? && t != Jid
    ensures var b := 16 * HexValue(three[1]).value + HexValue(three[2]).value;
      Replacement(t, three) == if t == Dots && b == 0x2E then Some('.')
                               else if t == Slashes && (b == 0x2F || b == 0x5C) then Some('/')
                               else None
  {
    assert three == ['%', three[1], three[2]];
  }

  /** What a table makes of the first byte of s: a dot, a slash, or what stood there. */
  function Folded(t: Table, s: string): string
    requires s != "" && PercentDecode(s).Some? && Width(s) <= |s| && PercentDecode(s).value != ""
  {
    var c := PercentDecode(s).value[0];
    if t == Dots && c == '.' then "." else if t == Slashes && (c == '/' || c == '\\') then "/" else s[..Width(s)]
  }

  lemma ReplaceFirstByte(t: Table, s: string)
    requires s != "" && PercentDecode(s).Some? && t != Jid
    ensures Width(s) <= |s| && PercentDecode(s).value != ""
    ensures Replace(t, s) == Folded(t, s) + Replace(t, s[Width(s)..])
  {
    DecodesFirst(s);
    if s[0] == '%' {
      var head, tail := s[..3], s[3..];
      assert head + tail == s;
      ReplacementIff(t, head);
      if Replacement(t, head).None? { ReplaceThree(t, head, tail); }
    } else {
      if |s| >= 3 { NoReplacement(t, s[..3]); }
      assert s[..1] == [s[0]];
    }
  }

  // ----- dots -----

  predicate OnlyDots(q: string) { forall i :: 0 <= i < |q| ==> q[i] == '.' }

  /** Folding dots turns a part into dots exactly when it decodes to them. */
  lemma {:induction false} DotsDecode(r: string, q: string)
    requires PercentDecode(r).Some? && OnlyDots(q)
    ensures Replace(Dots, r) == q <==> PercentDecode(r).value == q
    decreases |r|
  {
    if r != "" {
      DecodesFirst(r);
      ReplaceFirstByte(Dots, r);
      var c, rest := PercentDecode(r).value[0], r[Width(r)..];
      assert PercentDecode(r).value == [c] + PercentDecode(rest).value;
      assert Folded(Dots, r) != "" && (Folded(Dots, r)[0] == '.' <==> c == '.');
      if q != "" {
        DotsDecode(rest, q[1..]);
        assert q == [q[0]] + q[1..];
        if c == '.' {
          assert Replace(Dots, r)[1..] == Replace(Dots, rest) && PercentDecode(r).value[1..] == PercentDecode(rest).value;
        }
      }
    }
  }

  // ----- slashes -----

  /** The parts, in the same number, each decoding to its counterpart. */
  predicate DecodeEach(raw: seq<string>, decoded: seq<string>) {
    && |raw| == |decoded|
    && forall i :: 0 <= i < |raw| ==> PercentDecode(raw[i]) == Some(decoded[i])
  }

  lemma {:induction false} DecodePrefix(head: string, c: char, tail: string, d: string)
    requires PercentDecode(head) == Some([c]) && |head| > 0 && PercentDecode(tail) == Some(d)
    ensures PercentDecode(head + tail) == Some([c] + d)
  {
    var all := head + tail;
    DecodesFirst(head);
    if head[0] == '%' {
      assert head[3..] == "" by { if head[3..] != "" { DecodesFirst(head[3..]); } }
      assert all[3..] == tail && all[0] == head[0] && all[1] == head[1] && all[2] == head[2];
    } else {
      assert head[1..] == "" by { if head[1..] != "" { DecodesFirst(head[1..]); } }
      assert all[1..] == tail && all[0] == head[0];
    }
  }

  lemma OneDecodes(c: char)
    requires c != '%'
    ensures PercentDecode([c]) == Some([c])
  {
    assert [c][1..] == "" && PercentDecode("") == Some("") && [c] + "" == [c];
  }

  lemma ThreeDecode(head: string)
    requires |head| == 3 && head[0] == '%' && HexValue(head[1]).Some? && HexValue(head[2]).Some?
    ensures PercentDecode(head) == Some([(16 * HexValue(head[1]).value + HexValue(head[2]).value) as char])
  {
    assert head[3..] == "" && PercentDecode("") == Some("");
    var c := (16 * HexValue(head[1]).value + HexValue(head[2]).value) as char;
    assert [c] + "" == [c];
  }

  lemma FirstTokenDecodes(s: string)
    requires s != "" && PercentDecode(s).Some?
    ensures Width(s) <= |s| && PercentDecode(s).value != ""
    ensures PercentDecode(s[..Width(s)]) == Some([PercentDecode(s).value[0]])
  {
    DecodesFirst(s);
    if s[0] == '%' {
      ThreeDecode(s[..3]);
    } else {
      OneDecodes(s[0]);
      assert s[..1] == [s[0]];
    }
  }

  /** Splitting where slashes are folded is splitting what the segment decodes to at slashes and backslashes. */
  lemma {:induction false} SlashesDecode(s: string)
    requires PercentDecode(s).Some?
    ensures DecodeEach(Split(Slash, Replace(Slashes, s)), Split(AnySlash, PercentDecode(s).value))
    decreases |s|
  {
    if s == "" {
      assert PercentDecode("") == Some("");
    } else {
      DecodesFirst(s);
      ReplaceFirstByte(Slashes, s);
      var c, rest := PercentDecode(s).value[0], s[Width(s)..];
      var d := PercentDecode(rest).value;
      assert PercentDecode(s).value == [c] + d && ([c] + d)[1..] == d;
      SlashesDecode(rest);
      if c == '/' || c == '\\' {
        SplitsOff(Replace(Slashes, rest), c, d);
      } else {
        FirstTokenDecodes(s);
        TokenIsUnsplit(s);
        JoinsOn(s[..Width(s)], c, Replace(Slashes, rest), d);
      }
    }
  }

  lemma SplitsOff(tail: string, c: char, d: string)
    requires (c == '/' || c == '\\') && DecodeEach(Split(Slash, tail), Split(AnySlash, d))
    ensures DecodeEach(Split(Slash, "/" + tail), Split(AnySlash, [c] + d))
  {
    assert ("/" + tail)[1..] == tail && ([c] + d)[1..] == d;
    assert PercentDecode("") == Some("");
  }

  lemma JoinsOn(head: string, c: char, tail: string, d: string)
    requires head != "" && PercentDecode(head) == Some([c]) && c != '/' && c != '\\' && Unsplit(Slash, head)
    requires DecodeEach(Split(Slash, tail), Split(AnySlash, d))
    ensures DecodeEach(Split(Slash, head + tail), Split(AnySlash, [c] + d))
  {
    var raw, decoded := Split(Slash, tail), Split(AnySlash, d);
    SplitPrefix(head, tail);
    assert ([c] + d)[1..] == d;
    assert PercentDecode(raw[0]) == Some(decoded[0]);
    DecodePrefix(head, c, raw[0], decoded[0]);
  }

  lemma TokenIsUnsplit(s: string)
    requires s != "" && PercentDecode(s).Some? && PercentDecode(s).value != "" && PercentDecode(s).value[0] != '/'
    ensures Width(s) <= |s| && Unsplit(Slash, s[..Width(s)])
  {
    DecodesFirst(s);
  }

  // ----- the check -----

  /**
   * A segment that can be decoded passes exactly when, decoded and split at slashes and backslashes, none of
   * its parts is a dot segment: however its dots and slashes are written.
   */
  lemma DecodedSegmentOkIff(s: string, allowEmpty: bool)
    requires PercentDecode(s).Some?
    ensures SegmentOk(s, allowEmpty) <==> (s != "" || allowEmpty) && NoDotPart(PercentDecode(s).value)
  {
    if s == "" {
      assert PercentDecode("") == Some("") && Split(AnySlash, "") == [""];
    } else {
      var raw, decoded := Split(Slash, Replace(Slashes, s)), Split(AnySlash, PercentDecode(s).value);
      SlashesDecode(s);
      forall i | 0 <= i < |raw| ensures PartOk(raw[i]) <==> decoded[i] != "." && decoded[i] != ".." {
        assert PercentDecode(raw[i]) == Some(decoded[i]);
        DotsDecode(raw[i], ".");
        DotsDecode(raw[i], "..");
      }
    }
  }

  /** So with any hand-written path whose segments can be decoded. */
  lemma DecodedPathOkIff(path: string, allowEmpty: bool)
    requires forall i :: 0 <= i < |Segments(path)| ==> PercentDecode(Segments(path)[i]).Some?
    ensures PathOk(path, allowEmpty) <==>
      && path != "" && path[0] == '/'
      && forall i :: 0 <= i < |Segments(path)| ==>
           (Segments(path)[i] != "" || allowEmpty) && NoDotPart(PercentDecode(Segments(path)[i]).value)
  {
    forall i | 0 <= i < |Segments(path)|
      ensures SegmentOk(Segments(path)[i], allowEmpty) <==>
        (Segments(path)[i] != "" || allowEmpty) && NoDotPart(PercentDecode(Segments(path)[i]).value)
    {
      DecodedSegmentOkIff(Segments(path)[i], allowEmpty);
    }
  }
}
