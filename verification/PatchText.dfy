/** Finding, counting and replacing text the way the dependency patchers do, and telling what a file's text shows. */
module PatchText {
  import opened Basics

  predicate At(h: string, n: string, i: nat) { i + |n| <= |h| && h[i..i + |n|] == n }

  /** The leftmost occurrence of `n` at or after `from`. */
  function IndexFrom(h: string, n: string, from: nat): (i: Option<nat>)
    requires n != ""
    ensures i.Some? ==> from <= i.value && At(h, n, i.value)
    decreases |h| - from
  {
    if from + |n| > |h| then None
    else if At(h, n, from) then Some(from)
    else IndexFrom(h, n, from + 1)
  }

  /** Nothing occurs before the index found, and nothing at all when there is none. */
  lemma {:induction false} IndexIsFirst(h: string, n: string, from: nat, j: nat)
    requires n != "" && from <= j && At(h, n, j)
    ensures IndexFrom(h, n, from).Some? && IndexFrom(h, n, from).value <= j
    decreases |h| - from
  {
    if !At(h, n, from) { IndexIsFirst(h, n, from + 1, j); }
  }

  predicate Contains(h: string, n: string)
    requires n != ""
  {
    IndexFrom(h, n, 0).Some?
  }

  /** h.split(n).length - 1: the occurrences found left to right without overlap. */
  function Count(h: string, n: string): nat
    requires n != ""
    decreases |h|
  {
    match IndexFrom(h, n, 0)
    case None => 0
    case Some(i) => 1 + Count(h[i + |n|..], n)
  }

  /** h.replace(find, with): the first occurrence only. */
  function ReplaceFirst(h: string, find: string, with: string): string
    requires find != ""
  {
    match IndexFrom(h, find, 0)
    case None => h
    case Some(i) => h[..i] + with + h[i + |find|..]
  }

  lemma CountZeroIff(h: string, n: string)
    requires n != ""
    ensures Count(h, n) == 0 <==> !Contains(h, n)
  {
  }

  // ----- what a file shows -----

  /** A patched file: its anchor, its replacement, and for the socket file the handler both must agree on. */
  datatype Patch = Patch(file: string, find: string, replace: string, handler: Option<string>)

  datatype Shape = Pristine | Applied | Unknown

  function Shown(p: Patch, source: string): Shape
    requires WellFormed(p)
  {
    var replaced := Count(source, p.replace);
    var pristine := Count(ReplaceFirst(source, p.replace, ""), p.find);
    if p.handler.Some? && Count(source, p.handler.value) != replaced then Unknown
    else if replaced == 1 && pristine == 0 then Applied
    else if replaced == 0 && pristine == 1 then Pristine
    else Unknown
  }

  function Patched(p: Patch, source: string): string
    requires WellFormed(p)
  {
    ReplaceFirst(source, p.find, p.replace)
  }

  /** No proper start of `s` is also an end of it, so two copies of it never overlap. */
  predicate Unbordered(s: string) { forall k :: 0 < k < |s| ==> s[..k] != s[|s| - k..] }

  /** What the shipped anchors and replacements have in common. */
  predicate WellFormed(p: Patch) {
    && p.find != "" && p.replace != "" && Unbordered(p.replace)
    && '$' !in p.replace   // replace() would expand what a '$' introduces
    && (p.handler.Some? ==>
          && p.handler.value != ""
          && Count(p.replace, p.handler.value) == 1
          && p.replace[0] !in p.handler.value && p.replace[|p.replace| - 1] !in p.handler.value)
  }

  /** Cutting the anchor out of the file leaves no second anchor across the cut. */
  predicate LeavesNoAnchor(p: Patch, source: string)
    requires WellFormed(p)
  {
    !Contains(ReplaceFirst(source, p.find, ""), p.find)
  }

  // ----- occurrences in a concatenation -----

  lemma AtLeft(a: string, b: string, n: string, i: nat)
    requires i + |n| <= |a|
    ensures At(a + b, n, i) <==> At(a, n, i)
  {
    assert (a + b)[i..i + |n|] == a[i..i + |n|];
  }

  lemma AtRight(a: string, b: string, n: string, i: nat)
    requires |a| <= i
    ensures At(a + b, n, i) <==> At(b, n, i - |a|)
  {
    if i + |n| <= |a + b| { assert (a + b)[i..i + |n|] == b[i - |a|..i - |a| + |n|]; }
  }

  /** An occurrence across the seam uses the characters on both sides of it. */
  lemma AcrossSeam(a: string, b: string, n: string, i: nat)
    requires At(a + b, n, i) && i < |a| < i + |n|
    ensures a[|a| - 1] in n && b != "" && b[0] in n
  {
    assert n[|a| - 1 - i] == (a + b)[i..i + |n|][|a| - 1 - i] == a[|a| - 1];
    assert n[|a| - i] == (a + b)[i..i + |n|][|a| - i] == b[0];
  }

  lemma ContainsParts(a: string, m: string, b: string, n: string)
    requires n != "" && !Contains(a + m + b, n)
    ensures !Contains(a, n) && !Contains(b, n)
  {
    assert a + (m + b) == a + m + b;
    if Contains(a, n) {
      var i := IndexFrom(a, n, 0).value;
      AtLeft(a, m + b, n, i);
      IndexIsFirst(a + m + b, n, 0, i);
    }
    if Contains(b, n) {
      var i := IndexFrom(b, n, 0).value;
      AtRight(a + m, b, n, i + |a + m|);
      IndexIsFirst(a + m + b, n, 0, i + |a + m|);
    }
  }

  /** An occurrence of `r` that runs into an inserted copy of `r` makes a border of it. */
  lemma OverlapIsBorder(a: string, r: string, b: string, i: nat)
    requires At(a + r + b, r, i) && i < |a| < i + |r|
    ensures r[..i + |r| - |a|] == r[|a| - i..]
  {
    var k := i + |r| - |a|;
    var all := a + r + b;
    assert all[|a|..|a| + k] == r[..k];
    assert all[i..i + |r|][|a| - i..] == all[|a|..|a| + k];
  }

  /** An unbordered text put behind a text free of it is not found earlier. */
  lemma NotFoundEarlier(a: string, r: string, b: string, i: nat)
    requires r != "" && Unbordered(r) && !Contains(a, r) && At(a + r + b, r, i)
    ensures i >= |a|
  {
    assert a + (r + b) == a + r + b;
    if i + |r| <= |a| {
      AtLeft(a, r + b, r, i);
      IndexIsFirst(a, r, 0, i);
    } else if i < |a| {
      OverlapIsBorder(a, r, b, i);
    }
  }

  lemma CountInserted(a: string, r: string, b: string)
    requires r != "" && Unbordered(r) && !Contains(a, r) && !Contains(b, r)
    ensures Count(a + r + b, r) == 1
    ensures ReplaceFirst(a + r + b, r, "") == a + b
  {
    var all := a + r + b;
    assert all[|a|..|a| + |r|] == r;
    IndexIsFirst(all, r, 0, |a|);
    NotFoundEarlier(a, r, b, IndexFrom(all, r, 0).value);
    assert all[|a| + |r|..] == b && all[..|a|] == a;
    CountOnce(all, r, |a|, b);
    assert a + "" + b == a + b;
  }

  /** A text that occurs once in the insertion, and in neither neighbour, occurs once in all. */
  lemma CountThrough(a: string, r: string, b: string, h: string)
    requires h != "" && r != "" && Count(r, h) == 1
    requires !Contains(a, h) && !Contains(b, h)
    requires r[0] !in h && r[|r| - 1] !in h
    ensures Count(a + r + b, h) == 1
  {
    var j := IndexFrom(r, h, 0).value;
    CountAfter(r, h, j);
    CountZeroIff(r[j + |h|..], h);
    CountThroughAt(a, r, b, h, j);
  }

  lemma CountThroughAt(a: string, r: string, b: string, h: string, j: nat)
    requires h != "" && r != "" && IndexFrom(r, h, 0) == Some(j)
    requires !Contains(a, h) && !Contains(r[j + |h|..], h) && !Contains(b, h)
    requires r[0] !in h && r[|r| - 1] !in h
    ensures Count(a + r + b, h) == 1
  {
    FirstThrough(a, r, b, h, j);
    NoneBehind(a, r, b, h, j + |h|);
    CountOnce(a + r + b, h, |a| + j, r[j + |h|..] + b);
  }

  lemma NoneBehind(a: string, r: string, b: string, h: string, k: nat)
    requires h != "" && r != "" && k <= |r| && r[|r| - 1] !in h
    requires !Contains(r[k..], h) && !Contains(b, h)
    ensures !Contains(r[k..] + b, h)
    ensures (a + r + b)[|a| + k..] == r[k..] + b
  {
    NoneAcross(r[k..], b, h);
    DropInto(a, r, b, k);
  }

  lemma CountOnce(h: string, n: string, i: nat, rest: string)
    requires n != "" && IndexFrom(h, n, 0) == Some(i) && h[i + |n|..] == rest && !Contains(rest, n)
    ensures Count(h, n) == 1
  {
    CountZeroIff(rest, n);
  }

  lemma DropInto(a: string, r: string, b: string, k: nat)
    requires k <= |r|
    ensures (a + r + b)[|a| + k..] == r[k..] + b
  {
  }

  lemma CountAfter(h: string, n: string, i: nat)
    requires n != "" && IndexFrom(h, n, 0) == Some(i)
    ensures Count(h, n) == 1 + Count(h[i + |n|..], n)
  {
  }

  lemma PresentThrough(a: string, r: string, b: string, h: string, j: nat)
    requires At(r, h, j)
    ensures At(a + r + b, h, |a| + j)
  {
    assert a + (r + b) == a + r + b;
    AtLeft(r, b, h, j);
    AtRight(a, r + b, h, |a| + j);
  }

  lemma NotBefore(a: string, c: string, h: string, i: nat)
    requires h != "" && c != "" && !Contains(a, h) && c[0] !in h && At(a + c, h, i)
    ensures |a| <= i
  {
    if i + |h| <= |a| {
      AtLeft(a, c, h, i);
      IndexIsFirst(a, h, 0, i);
    } else if i < |a| {
      AcrossSeam(a, c, h, i);
    }
  }

  lemma EarliestIn(r: string, b: string, h: string, j: nat, k: nat)
    requires h != "" && IndexFrom(r, h, 0) == Some(j) && At(r + b, h, k)
    ensures j <= k
  {
    if k + |h| <= |r| {
      AtLeft(r, b, h, k);
      IndexIsFirst(r, h, 0, k);
    }
  }

  lemma EarliestThrough(a: string, r: string, b: string, h: string, j: nat, i: nat)
    requires h != "" && r != "" && IndexFrom(r, h, 0) == Some(j)
    requires !Contains(a, h) && r[0] !in h && At(a + r + b, h, i)
    ensures |a| + j <= i
  {
    assert a + (r + b) == a + r + b;
    NotBefore(a, r + b, h, i);
    AtRight(a, r + b, h, i);
    EarliestIn(r, b, h, j, i - |a|);
  }

  lemma FirstThrough(a: string, r: string, b: string, h: string, j: nat)
    requires h != "" && r != "" && IndexFrom(r, h, 0) == Some(j)
    requires !Contains(a, h) && r[0] !in h
    ensures IndexFrom(a + r + b, h, 0) == Some(|a| + j)
  {
    PresentThrough(a, r, b, h, j);
    IndexIsFirst(a + r + b, h, 0, |a| + j);
    EarliestThrough(a, r, b, h, j, IndexFrom(a + r + b, h, 0).value);
  }

  lemma NoneAcross(rest: string, b: string, h: string)
    requires h != "" && (rest != "" ==> rest[|rest| - 1] !in h)
    requires !Contains(rest, h) && !Contains(b, h)
    ensures !Contains(rest + b, h)
  {
    if Contains(rest + b, h) {
      var i := IndexFrom(rest + b, h, 0).value;
      if i >= |rest| {
        AtRight(rest, b, h, i);
        IndexIsFirst(b, h, 0, i - |rest|);
      } else if i + |h| <= |rest| {
        AtLeft(rest, b, h, i);
        IndexIsFirst(rest, h, 0, i);
      } else {
        AcrossSeam(rest, b, h, i);
      }
    }
  }

  // ----- the patch and the classification meet -----

  lemma PristineSplits(p: Patch, source: string) returns (a: string, b: string)
    requires WellFormed(p) && Shown(p, source) == Pristine
    ensures source == a + p.find + b
    ensures Patched(p, source) == a + p.replace + b
    ensures ReplaceFirst(source, p.find, "") == a + b
    ensures !Contains(a, p.replace) && !Contains(b, p.replace)
    ensures p.handler.Some? ==> !Contains(a, p.handler.value) && !Contains(b, p.handler.value)
  {
    CountZeroIff(source, p.replace);
    assert ReplaceFirst(source, p.replace, "") == source;
    var i := IndexFrom(source, p.find, 0).value;
    a, b := source[..i], source[i + |p.find|..];
    assert source == a + p.find + b;
    assert a + "" + b == a + b;
    ContainsParts(a, p.find, b, p.replace);
    if p.handler.Some? {
      CountZeroIff(source, p.handler.value);
      ContainsParts(a, p.find, b, p.handler.value);
    }
  }

  /**
   * A pristine file reads as applied once patched exactly when cutting its anchor out leaves no
   * second anchor across the cut; otherwise it reads as unknown.
   */
  lemma PatchedReadsAppliedIff(p: Patch, source: string)
    requires WellFormed(p) && Shown(p, source) == Pristine
    ensures Shown(p, Patched(p, source)) == if LeavesNoAnchor(p, source) then Applied else Unknown
  {
    var a, b := PristineSplits(p, source);
    CountInserted(a, p.replace, b);
    if p.handler.Some? { CountThrough(a, p.replace, b, p.handler.value); }
    CountZeroIff(a + b, p.find);
  }

  /** The anchor, with its first character in front of it and the rest of it behind. */
  function Nested(find: string): string
    requires |find| >= 2
  {
    find[..1] + find + find[1..]
  }

  lemma NestedAt(find: string)
    requires |find| >= 2 && find[1..] != find[..|find| - 1]
    ensures !At(Nested(find), find, 0) && At(Nested(find), find, 1)
    ensures Nested(find)[..1] == find[..1] && Nested(find)[1 + |find|..] == find[1..]
  {
    var s, n := Nested(find), |find|;
    assert s[1..1 + n] == find;
    assert s[0..n] == find[..1] + find[..n - 1];
    assert s[0..n][1..] == find[..n - 1];
  }

  lemma SecondIsFirst(h: string, n: string)
    requires n != "" && !At(h, n, 0) && At(h, n, 1)
    ensures IndexFrom(h, n, 0) == Some(1)
  {
  }

  lemma CutAtSecond(h: string, n: string)
    requires n != "" && IndexFrom(h, n, 0) == Some(1) && 1 + |n| <= |h|
    ensures ReplaceFirst(h, n, "") == h[..1] + h[1 + |n|..]
  {
    assert h[..1] + "" == h[..1];
  }

  lemma NestedHasOne(find: string)
    requires |find| >= 2 && find[1..] != find[..|find| - 1]
    ensures Count(Nested(find), find) == 1
    ensures ReplaceFirst(Nested(find), find, "") == find
  {
    var s, rest := Nested(find), find[1..];
    NestedAt(find);
    SecondIsFirst(s, find);
    TooShort(rest, find);
    CountOnce(s, find, 1, rest);
    CutAtSecond(s, find);
  }

  lemma TooShort(h: string, n: string)
    requires |h| < |n|
    ensures !Contains(h, n)
  {
  }

  /**
   * Such files exist for every patch: with an anchor that is not one character over and over, the nested
   * anchor reads as pristine and, once patched, as unknown.
   */
  lemma AnchorLeftAcrossTheCut(p: Patch)
    requires WellFormed(p) && |p.find| >= 2 && p.find[1..] != p.find[..|p.find| - 1]
    requires !Contains(Nested(p.find), p.replace)
    requires p.handler.Some? ==> !Contains(Nested(p.find), p.handler.value)
    ensures Shown(p, Nested(p.find)) == Pristine
    ensures Shown(p, Patched(p, Nested(p.find))) == Unknown
  {
    var s := Nested(p.find);
    NestedHasOne(p.find);
    CountZeroIff(s, p.replace);
    if p.handler.Some? { CountZeroIff(s, p.handler.value); }
    assert At(p.find, p.find, 0) by { assert p.find[0..|p.find|] == p.find; }
    PatchedReadsAppliedIff(p, s);
  }

  /**
   * What the shapes mean: pristine is one anchor and no trace of the patch, applied is the patch once, its
   * handler with it, and no anchor beside it.
   */
  lemma ShownMeans(p: Patch, source: string)
    requires WellFormed(p)
    ensures Shown(p, source) == Pristine <==>
      && Count(source, p.find) == 1 && !Contains(source, p.replace)
      && (p.handler.Some? ==> !Contains(source, p.handler.value))
    ensures Shown(p, source) == Applied <==>
      && Count(source, p.replace) == 1 && !Contains(ReplaceFirst(source, p.replace, ""), p.find)
      && (p.handler.Some? ==> Count(source, p.handler.value) == 1)
  {
    CountZeroIff(source, p.replace);
    CountZeroIff(ReplaceFirst(source, p.replace, ""), p.find);
    if p.handler.Some? { CountZeroIff(source, p.handler.value); }
  }
}
