/** The order in which the builds of one registry read are tried. */
module WebVersion {
  import opened Basics

  const SETTLE_MS: int := 12 * 60 * 60 * 1000

  // ----- ranking -----

  /** A registry entry as far as it is read: fields of another type, and dates that do not parse, are None. */
  datatype Listed = Listed(version: Option<string>, beta: bool, released: Option<int>, expire: Option<int>)

  datatype Build = Build(version: string, released: int)

  predicate IsBuildNumber(v: string) { v != "" && '0' <= v[0] <= '9' }

  /** A non-beta, unexpired build published long enough ago. */
  predicate Settled(e: Listed, now: int) {
    && e.version.Some? && IsBuildNumber(e.version.value) && !e.beta
    && e.released.Some? && e.released.value <= now - SETTLE_MS
    && (e.expire.Some? ==> e.expire.value > now)
  }

  function SettledBuilds(versions: seq<Listed>, now: int, skip: set<string>): seq<Build> {
    if versions == [] then []
    else
      var e := versions[|versions| - 1];
      var builds := SettledBuilds(versions[..|versions| - 1], now, skip);
      if Settled(e, now) && e.version.value !in skip then builds + [Build(e.version.value, e.released.value)] else builds
  }

  /** Insert behind every build that is not older: equal dates keep the order they were listed in. */
  function Insert(s: seq<Build>, b: Build): seq<Build> {
    if s == [] || s[|s| - 1].released >= b.released then s + [b]
    else Insert(s[..|s| - 1], b) + [s[|s| - 1]]
  }

  /** The stable sort, newest first. */
  function NewestFirst(s: seq<Build>): seq<Build> {
    if s == [] then [] else Insert(NewestFirst(s[..|s| - 1]), s[|s| - 1])
  }

  function Versions(s: seq<Build>): seq<string> {
    if s == [] then [] else Versions(s[..|s| - 1]) + [s[|s| - 1].version]
  }

  /** [...new Set(s)]: each value where it occurs first. */
  function Dedupe(s: seq<string>): seq<string> {
    if s == [] then []
    else
      var d := Dedupe(s[..|s| - 1]);
      if s[|s| - 1] in d then d else d + [s[|s| - 1]]
  }

  /** What the registry names as current goes last, unless skipped or ranked already. */
  function WithCurrent(ranked: seq<string>, current: Option<string>, skip: set<string>): seq<string> {
    if current.Some? && current.value != "" && current.value !in skip && current.value !in ranked
    then ranked + [current.value]
    else ranked
  }

  function Rank(versions: seq<Listed>, now: int, current: Option<string>, skip: set<string>): seq<string> {
    Dedupe(WithCurrent(Versions(NewestFirst(SettledBuilds(versions, now, skip))), current, skip))
  }

  // ----- the ranking is a stable sort -----

  predicate Descending(s: seq<Build>) { forall i, j :: 0 <= i < j < |s| ==> s[i].released >= s[j].released }

  lemma {:induction false} InsertSorts(s: seq<Build>, b: Build)
    requires Descending(s)
    ensures Descending(Insert(s, b))
  {
    if s != [] && s[|s| - 1].released < b.released {
      var n := |s| - 1;
      InsertSorts(s[..n], b);
      InsertBounded(s[..n], b, s[n].released);
    }
  }

  lemma {:induction false} InsertKeepsAll(s: seq<Build>, b: Build)
    ensures multiset(Insert(s, b)) == multiset(s) + multiset{b}
  {
    if s != [] && s[|s| - 1].released < b.released {
      InsertKeepsAll(s[..|s| - 1], b);
      assert s == s[..|s| - 1] + [s[|s| - 1]];
    }
  }

  lemma {:induction false} InsertBounded(s: seq<Build>, b: Build, low: int)
    requires b.released >= low && forall i :: 0 <= i < |s| ==> s[i].released >= low
    ensures forall i :: 0 <= i < |Insert(s, b)| ==> Insert(s, b)[i].released >= low
  {
    if s != [] && s[|s| - 1].released < b.released { InsertBounded(s[..|s| - 1], b, low); }
  }

  /** The builds of one release date, in the order they stand. */
  function At(s: seq<Build>, date: int): seq<Build> {
    if s == [] then []
    else if s[|s| - 1].released == date then At(s[..|s| - 1], date) + [s[|s| - 1]]
    else At(s[..|s| - 1], date)
  }

  lemma AtAppend(s: seq<Build>, b: Build, date: int)
    ensures At(s + [b], date) == if b.released == date then At(s, date) + [b] else At(s, date)
  {
    assert (s + [b])[..|s|] == s;
  }

  lemma {:induction false} InsertIsStable(s: seq<Build>, b: Build, date: int)
    ensures At(Insert(s, b), date) == if b.released == date then At(s, date) + [b] else At(s, date)
  {
    if s == [] || s[|s| - 1].released >= b.released {
      AtAppend(s, b, date);
    } else {
      InsertIsStable(s[..|s| - 1], b, date);
      AtAppend(Insert(s[..|s| - 1], b), s[|s| - 1], date);
    }
  }

  lemma {:induction false} NewestFirstDescends(s: seq<Build>)
    ensures Descending(NewestFirst(s))
  {
    if s != [] {
      NewestFirstDescends(s[..|s| - 1]);
      InsertSorts(NewestFirst(s[..|s| - 1]), s[|s| - 1]);
    }
  }

  lemma {:induction false} NewestFirstKeepsAll(s: seq<Build>)
    ensures multiset(NewestFirst(s)) == multiset(s)
  {
    if s != [] {
      NewestFirstKeepsAll(s[..|s| - 1]);
      InsertKeepsAll(NewestFirst(s[..|s| - 1]), s[|s| - 1]);
      assert s == s[..|s| - 1] + [s[|s| - 1]];
    }
  }

  lemma {:induction false} NewestFirstKeepsTies(s: seq<Build>, date: int)
    ensures At(NewestFirst(s), date) == At(s, date)
  {
    if s != [] {
      NewestFirstKeepsTies(s[..|s| - 1], date);
      InsertIsStable(NewestFirst(s[..|s| - 1]), s[|s| - 1], date);
    }
  }

  /** Newest first, nothing lost, and builds of one date in the order the registry lists them. */
  lemma NewestFirstIsStableSort(s: seq<Build>, date: int)
    ensures Descending(NewestFirst(s)) && multiset(NewestFirst(s)) == multiset(s)
    ensures At(NewestFirst(s), date) == At(s, date)
  {
    NewestFirstDescends(s);
    NewestFirstKeepsAll(s);
    NewestFirstKeepsTies(s, date);
  }

  // ----- ranking commutes with skipping more -----

  function Without(s: seq<string>, skip: set<string>): seq<string> {
    if s == [] then []
    else if s[|s| - 1] in skip then Without(s[..|s| - 1], skip)
    else Without(s[..|s| - 1], skip) + [s[|s| - 1]]
  }

  function BuildsWithout(s: seq<Build>, skip: set<string>): seq<Build> {
    if s == [] then []
    else if s[|s| - 1].version in skip then BuildsWithout(s[..|s| - 1], skip)
    else BuildsWithout(s[..|s| - 1], skip) + [s[|s| - 1]]
  }

  lemma BuildsWithoutAppend(s: seq<Build>, b: Build, skip: set<string>)
    ensures BuildsWithout(s + [b], skip) ==
      if b.version in skip then BuildsWithout(s, skip) else BuildsWithout(s, skip) + [b]
  {
    assert (s + [b])[..|s|] == s;
  }

  lemma WithoutAppend(s: seq<string>, v: string, skip: set<string>)
    ensures Without(s + [v], skip) == if v in skip then Without(s, skip) else Without(s, skip) + [v]
  {
    assert (s + [v])[..|s|] == s;
  }

  lemma {:induction false} SettledCommutes(versions: seq<Listed>, now: int, skip: set<string>, more: set<string>)
    ensures SettledBuilds(versions, now, skip + more) == BuildsWithout(SettledBuilds(versions, now, skip), more)
  {
    if versions != [] {
      var n := |versions| - 1;
      SettledCommutes(versions[..n], now, skip, more);
      var e := versions[n];
      if Settled(e, now) && e.version.value !in skip {
        BuildsWithoutAppend(SettledBuilds(versions[..n], now, skip), Build(e.version.value, e.released.value), more);
      }
    }
  }

  lemma {:induction false} LastAtLeast(s: seq<Build>, skip: set<string>, low: int)
    requires forall i :: 0 <= i < |s| ==> s[i].released >= low
    ensures forall i :: 0 <= i < |BuildsWithout(s, skip)| ==> BuildsWithout(s, skip)[i].released >= low
  {
    if s != [] { LastAtLeast(s[..|s| - 1], skip, low); }
  }

  lemma AppendCommutes(s: seq<Build>, b: Build, skip: set<string>)
    requires Descending(s) && (s == [] || s[|s| - 1].released >= b.released)
    ensures BuildsWithout(s + [b], skip) ==
      if b.version in skip then BuildsWithout(s, skip) else Insert(BuildsWithout(s, skip), b)
  {
    BuildsWithoutAppend(s, b, skip);
    LastAtLeast(s, skip, b.released);
  }

  lemma {:induction false} InsertCommutes(s: seq<Build>, b: Build, skip: set<string>)
    requires Descending(s)
    ensures BuildsWithout(Insert(s, b), skip) ==
      if b.version in skip then BuildsWithout(s, skip) else Insert(BuildsWithout(s, skip), b)
  {
    if s == [] || s[|s| - 1].released >= b.released {
      AppendCommutes(s, b, skip);
    } else {
      var n := |s| - 1;
      InsertCommutes(s[..n], b, skip);
      BuildsWithoutAppend(Insert(s[..n], b), s[n], skip);
      InsertBehind(BuildsWithout(s[..n], skip), s[n], b);
    }
  }

  lemma InsertBehind(s: seq<Build>, last: Build, b: Build)
    requires last.released < b.released
    ensures Insert(s + [last], b) == Insert(s, b) + [last]
  {
    assert (s + [last])[..|s|] == s;
  }

  lemma {:induction false} SortCommutes(s: seq<Build>, skip: set<string>)
    ensures NewestFirst(BuildsWithout(s, skip)) == BuildsWithout(NewestFirst(s), skip)
  {
    if s != [] {
      var n := |s| - 1;
      SortCommutes(s[..n], skip);
      NewestFirstDescends(s[..n]);
      InsertCommutes(NewestFirst(s[..n]), s[n], skip);
      SortAppend(BuildsWithout(s[..n], skip), s[n]);
    }
  }

  lemma SortAppend(s: seq<Build>, b: Build)
    ensures NewestFirst(s + [b]) == Insert(NewestFirst(s), b)
  {
    assert (s + [b])[..|s|] == s;
  }

  lemma {:induction false} VersionsCommute(s: seq<Build>, skip: set<string>)
    ensures Versions(BuildsWithout(s, skip)) == Without(Versions(s), skip)
  {
    if s != [] {
      var n := |s| - 1;
      VersionsCommute(s[..n], skip);
      WithoutAppend(Versions(s[..n]), s[n].version, skip);
      if s[n].version !in skip {
        assert (BuildsWithout(s[..n], skip) + [s[n]])[..|BuildsWithout(s[..n], skip)|] == BuildsWithout(s[..n], skip);
      }
    }
  }

  lemma {:induction false} InWithout(s: seq<string>, skip: set<string>, v: string)
    ensures v in Without(s, skip) <==> v in s && v !in skip
  {
    if s != [] {
      InWithout(s[..|s| - 1], skip, v);
      assert s == s[..|s| - 1] + [s[|s| - 1]];
    }
  }

  lemma {:induction false} InDedupe(s: seq<string>, v: string)
    ensures v in Dedupe(s) <==> v in s
  {
    if s != [] {
      InDedupe(s[..|s| - 1], v);
      InDedupe(s[..|s| - 1], s[|s| - 1]);
      assert s == s[..|s| - 1] + [s[|s| - 1]];
    }
  }

  lemma {:induction false} DedupeCommutes(s: seq<string>, skip: set<string>)
    ensures Dedupe(Without(s, skip)) == Without(Dedupe(s), skip)
  {
    if s != [] {
      var n := |s| - 1;
      var d := Dedupe(s[..n]);
      DedupeCommutes(s[..n], skip);
      WithoutAppend(d, s[n], skip);
      InWithout(d, skip, s[n]);
      if s[n] !in skip {
        var w := Without(s[..n], skip);
        assert (w + [s[n]])[..|w|] == w;
      }
    }
  }

  lemma CurrentCommutes(ranked: seq<string>, current: Option<string>, skip: set<string>, more: set<string>)
    ensures WithCurrent(Without(ranked, more), current, skip + more) == Without(WithCurrent(ranked, current, skip), more)
  {
    if current.Some? {
      InWithout(ranked, more, current.value);
      WithoutAppend(ranked, current.value, more);
    }
  }

  /** Ranking with more builds skipped is ranking, with those builds taken out. */
  lemma RankCommutes(versions: seq<Listed>, now: int, current: Option<string>, skip: set<string>, more: set<string>)
    ensures Rank(versions, now, current, skip + more) == Without(Rank(versions, now, current, skip), more)
  {
    var builds := SettledBuilds(versions, now, skip);
    SettledCommutes(versions, now, skip, more);
    SortCommutes(builds, more);
    VersionsCommute(NewestFirst(builds), more);
    CurrentCommutes(Versions(NewestFirst(builds)), current, skip, more);
    DedupeCommutes(WithCurrent(Versions(NewestFirst(builds)), current, skip), more);
  }

  lemma {:induction false} WithoutTwice(s: seq<string>, a: set<string>, b: set<string>)
    ensures Without(Without(s, a), b) == Without(s, a + b)
  {
    if s != [] {
      WithoutTwice(s[..|s| - 1], a, b);
      WithoutAppend(Without(s[..|s| - 1], a), s[|s| - 1], b);
    }
  }

  // ----- the build picked -----

  lemma InsertHead(s: seq<Build>, b: Build)
    requires Descending(s)
    ensures Insert(s, b) != []
    ensures Insert(s, b)[0] == if s == [] || s[0].released < b.released then b else s[0]
  {
    if |s| > 1 && s[|s| - 1].released < b.released { InsertHead(s[..|s| - 1], b); }
  }

  /** s[i] is newest, and nothing listed before it is as new. */
  predicate FirstNewest(s: seq<Build>, i: nat) {
    && i < |s|
    && (forall j :: 0 <= j < i ==> s[j].released < s[i].released)
    && (forall j :: i <= j < |s| ==> s[j].released <= s[i].released)
  }

  lemma FirstNewestExtends(s: seq<Build>, k: nat)
    requires s != [] && FirstNewest(s[..|s| - 1], k)
    ensures s[k].released >= s[|s| - 1].released ==> FirstNewest(s, k)
    ensures s[k].released < s[|s| - 1].released ==> FirstNewest(s, |s| - 1)
  {
    var n := |s| - 1;
    assert forall j :: 0 <= j < n ==> s[..n][j] == s[j];
  }

  /** The build sorted to the front is the first listed of the newest. */
  lemma {:induction false} NewestFirstHead(s: seq<Build>) returns (i: nat)
    requires s != []
    ensures FirstNewest(s, i) && NewestFirst(s) != [] && NewestFirst(s)[0] == s[i]
  {
    var n := |s| - 1;
    NewestFirstDescends(s[..n]);
    InsertHead(NewestFirst(s[..n]), s[n]);
    if n == 0 { return 0; }
    var k := NewestFirstHead(s[..n]);
    FirstNewestExtends(s, k);
    i := if s[k].released >= s[n].released then k else n;
  }

  lemma {:induction false} VersionsHead(s: seq<Build>)
    requires s != []
    ensures Versions(s) != [] && Versions(s)[0] == s[0].version
  {
    if |s| > 1 { VersionsHead(s[..|s| - 1]); }
  }

  lemma {:induction false} DedupeHead(s: seq<string>)
    requires s != []
    ensures Dedupe(s) != [] && Dedupe(s)[0] == s[0]
  {
    if |s| > 1 { DedupeHead(s[..|s| - 1]); }
  }

  /** What is pinned is the newest settled build, the first listed of them, or what the registry names when none has settled. */
  lemma PickIsNewestSettled(versions: seq<Listed>, now: int, current: Option<string>, skip: set<string>)
    ensures var b := SettledBuilds(versions, now, skip); b != [] ==>
      && Rank(versions, now, current, skip) != []
      && exists i: nat :: FirstNewest(b, i) && Rank(versions, now, current, skip)[0] == b[i].version
    ensures SettledBuilds(versions, now, skip) == [] ==>
      && Rank(versions, now, current, skip) ==
        if current.Some? && current.value != "" && current.value !in skip then [current.value] else []
  {
    var b := SettledBuilds(versions, now, skip);
    if b != [] {
      var i := NewestFirstHead(b);
      VersionsHead(NewestFirst(b));
      DedupeHead(WithCurrent(Versions(NewestFirst(b)), current, skip));
      assert Rank(versions, now, current, skip)[0] == b[i].version;
    } else if current.Some? && current.value != "" && current.value !in skip {
      var one := [current.value];
      assert one[..0] == [];
      assert WithCurrent([], current, skip) == one;
      assert Dedupe(one) == one;
    }
  }

  // ----- no build twice -----

  predicate Distinct(s: seq<string>) { forall i, j :: 0 <= i < j < |s| ==> s[i] != s[j] }

  lemma {:induction false} DedupeDistinct(s: seq<string>)
    ensures Distinct(Dedupe(s))
  {
    if s != [] { DedupeDistinct(s[..|s| - 1]); }
  }

  lemma {:induction false} WithoutDistinct(s: seq<string>, skip: set<string>)
    requires Distinct(s)
    ensures Distinct(Without(s, skip))
  {
    if s != [] {
      WithoutDistinct(s[..|s| - 1], skip);
      InWithout(s[..|s| - 1], skip, s[|s| - 1]);
    }
  }

  lemma {:induction false} WithoutHead(s: seq<string>)
    requires s != [] && Distinct(s)
    ensures Without(s, {s[0]}) == s[1..]
  {
    if |s| > 1 {
      var n := |s| - 1;
      WithoutHead(s[..n]);
      assert s[1..] == s[..n][1..] + [s[n]];
    }
  }

  lemma {:induction false} WithoutKeepsHead(s: seq<string>, skip: set<string>)
    requires s != [] && s[0] !in skip
    ensures Without(s, skip) != [] && Without(s, skip)[0] == s[0]
  {
    if |s| > 1 { WithoutKeepsHead(s[..|s| - 1], skip); }
  }

  // ----- exactly which builds are ranked -----

  /** A listed build that counts: numbered, not skipped, not beta, twelve hours old and not expired. */
  predicate Counts(e: Listed, now: int, skip: set<string>, b: Build) {
    && e.version == Some(b.version) && b.version != "" && '0' <= b.version[0] <= '9' && b.version !in skip
    && !e.beta && e.released == Some(b.released) && b.released <= now - 43_200_000
    && (e.expire.None? || e.expire.value > now)
  }

  lemma {:induction false} InSettledIff(versions: seq<Listed>, now: int, skip: set<string>, b: Build)
    ensures b in SettledBuilds(versions, now, skip) <==> exists i :: 0 <= i < |versions| && Counts(versions[i], now, skip, b)
  {
    if versions != [] {
      var n := |versions| - 1;
      InSettledIff(versions[..n], now, skip, b);
      assert forall i :: 0 <= i < n ==> versions[..n][i] == versions[i];
      if Counts(versions[n], now, skip, b) { assert b in SettledBuilds(versions, now, skip); }
    }
  }

  lemma {:induction false} InVersionsIff(s: seq<Build>, v: string)
    ensures v in Versions(s) <==> exists b :: b in s && b.version == v
  {
    if s != [] {
      var n := |s| - 1;
      InVersionsIff(s[..n], v);
      assert s == s[..n] + [s[n]];
      if v in Versions(s[..n]) {
        var b :| b in s[..n] && b.version == v;
        assert b in s;
      }
    }
  }

  lemma InSorted(s: seq<Build>, b: Build)
    ensures b in NewestFirst(s) <==> b in s
  {
    NewestFirstKeepsAll(s);
    assert b in multiset(NewestFirst(s)) <==> b in multiset(s);
  }

  /** A build is offered if and only if it is listed and counts, or is the one the registry names and is not skipped. */
  lemma InRankIff(versions: seq<Listed>, now: int, current: Option<string>, skip: set<string>, v: string)
    ensures v in Rank(versions, now, current, skip) <==>
      || (exists b: Build, i :: b.version == v && 0 <= i < |versions| && Counts(versions[i], now, skip, b))
      || (current == Some(v) && v != "" && v !in skip)
  {
    var builds := SettledBuilds(versions, now, skip);
    var ranked := Versions(NewestFirst(builds));
    InDedupe(WithCurrent(ranked, current, skip), v);
    InVersionsIff(NewestFirst(builds), v);
    forall b ensures b in NewestFirst(builds) <==> exists i :: 0 <= i < |versions| && Counts(versions[i], now, skip, b) {
      InSorted(builds, b);
      InSettledIff(versions, now, skip, b);
    }
  }
}
