/**
 * The summary of a thrown value that a failed send carries out of the page: every text cut to what its
 * JSON encoding may spend, from one budget. Texts are sequences of UTF-16 units.
 */
module SendErrorSummary {
  import opened Basics

  type Unit = u: nat | u < 0x10000
  type Text = seq<Unit>

  const BUDGET: int := 2000
  const FIELD_ROOM: int := 500
  const NAME_ROOM: int := 100

  // ----- the length of a JSON string -----

  predicate IsHigh(u: Unit) { 0xD800 <= u < 0xDC00 }

  predicate IsLow(u: Unit) { 0xDC00 <= u < 0xE000 }

  /** The leading six bits tell a surrogate. */
  lemma SurrogateBits(u: Unit)
    ensures IsHigh(u) <==> u / 0x400 == 0x36
    ensures IsLow(u) <==> u / 0x400 == 0x37
  {
  }

  /** One unit on its own: two for a short escape, six for another control character or a lone surrogate. */
  function Cost(u: Unit): (c: nat)
    ensures 1 <= c <= 6
  {
    if u == 0x22 || u == 0x5C || u == 8 || u == 9 || u == 0xA || u == 0xC || u == 0xD then 2
    else if u < 0x20 || IsHigh(u) || IsLow(u) then 6
    else 1
  }

  /** JSON.stringify(t).length less the quotes; a surrogate pair is written as it is. */
  function Encoded(t: Text): nat {
    if t == [] then 0
    else if |t| > 1 && IsHigh(t[0]) && IsLow(t[1]) then 2 + Encoded(t[2..])
    else Cost(t[0]) + Encoded(t[1..])
  }

  lemma {:induction false} EncodedAtLeastLength(t: Text)
    ensures Encoded(t) >= |t|
  {
    if t != [] {
      EncodedAtLeastLength(t[1..]);
      if |t| > 1 { EncodedAtLeastLength(t[2..]); }
    }
  }

  /** A unit that is no low surrogate is encoded apart from what stands before it. */
  lemma {:induction false} EncodedApart(t: Text, u: Text)
    requires u != [] && !IsLow(u[0])
    ensures Encoded(t + u) == Encoded(t) + Encoded(u)
    decreases |t|
  {
    if t == [] {
      assert t + u == u;
    } else if |t| > 1 && IsHigh(t[0]) && IsLow(t[1]) {
      EncodedApart(t[2..], u);
      assert (t + u)[2..] == t[2..] + u;
    } else {
      EncodedApart(t[1..], u);
      assert (t + u)[1..] == t[1..] + u;
    }
  }

  /** A longer start can encode shorter: cutting a surrogate pair in two, wherever it stands, costs four more. */
  lemma EncodedNotMonotone(t: Text, high: Unit, low: Unit)
    requires IsHigh(high) && IsLow(low)
    ensures Encoded(t + [high]) == Encoded(t) + 6 && Encoded(t + [high, low]) == Encoded(t) + 2
  {
    EncodedApart(t, [high]);
    EncodedApart(t, [high, low]);
    assert [high, low][2..] == [] && [high][1..] == [];
  }

  // ----- the JSON text itself -----

  function HexUnit(d: nat): Unit
    requires d < 16
  {
    if d < 10 then 0x30 + d else 0x57 + d
  }

  function HexDigit(u: Unit): Option<nat> {
    if 0x30 <= u <= 0x39 then Some(u - 0x30) else if 0x61 <= u <= 0x66 then Some(u - 0x57) else None
  }

  /** The letter of a short escape, and back. */
  function Letter(u: Unit): Option<Unit> {
    if u == 0x22 || u == 0x5C then Some(u)
    else if u == 8 then Some(0x62)
    else if u == 9 then Some(0x74)
    else if u == 0xA then Some(0x6E)
    else if u == 0xC then Some(0x66)
    else if u == 0xD then Some(0x72)
    else None
  }

  function Unletter(l: Unit): Option<Unit> {
    if l == 0x22 || l == 0x5C then Some(l)
    else if l == 0x62 then Some(8)
    else if l == 0x74 then Some(9)
    else if l == 0x6E then Some(0xA)
    else if l == 0x66 then Some(0xC)
    else if l == 0x72 then Some(0xD)
    else None
  }

  function EscapeUnit(u: Unit): Text {
    if Letter(u).Some? then [0x5C, Letter(u).value]
    else if u < 0x20 || IsHigh(u) || IsLow(u)
    then [0x5C, 0x75, HexUnit(u / 0x1000), HexUnit(u / 0x100 % 0x10), HexUnit(u / 0x10 % 0x10), HexUnit(u % 0x10)]
    else [u]
  }

  /** The characters JSON.stringify puts between the quotes. */
  function Encode(t: Text): Text {
    if t == [] then []
    else if |t| > 1 && IsHigh(t[0]) && IsLow(t[1]) then [t[0], t[1]] + Encode(t[2..])
    else EscapeUnit(t[0]) + Encode(t[1..])
  }

  /** What a JSON reader makes of the characters between the quotes, None where it fails. */
  function Decode(e: Text): Option<Text> {
    if e == [] then Some([])
    else if e[0] != 0x5C then
      if e[0] == 0x22 || e[0] < 0x20 then None else Prepend(e[0], Decode(e[1..]))
    else if |e| < 2 then None
    else if Unletter(e[1]).Some? then Prepend(Unletter(e[1]).value, Decode(e[2..]))
    else if e[1] == 0x75 && |e| >= 6 && Hex4(e[2..6]).Some? then Prepend(Hex4(e[2..6]).value, Decode(e[6..]))
    else None
  }

  function Prepend(u: Unit, t: Option<Text>): Option<Text> { if t.Some? then Some([u] + t.value) else None }

  function Hex4(d: Text): Option<Unit>
    requires |d| == 4
  {
    if HexDigit(d[0]).None? || HexDigit(d[1]).None? || HexDigit(d[2]).None? || HexDigit(d[3]).None? then None
    else
      var n := 0x1000 * HexDigit(d[0]).value + 0x100 * HexDigit(d[1]).value + 0x10 * HexDigit(d[2]).value + HexDigit(d[3]).value;
      if n < 0x10000 then Some(n) else None
  }

  lemma HexBack(d: nat)
    requires d < 16
    ensures HexDigit(HexUnit(d)) == Some(d)
  {
  }

  lemma HexDigits(u: Unit)
    ensures u / 0x1000 < 16
    ensures u == 0x1000 * (u / 0x1000) + 0x100 * (u / 0x100 % 0x10) + 0x10 * (u / 0x10 % 0x10) + u % 0x10
  {
    assert u / 0x100 == 0x10 * (u / 0x1000) + u / 0x100 % 0x10;
    assert u / 0x10 == 0x10 * (u / 0x100) + u / 0x10 % 0x10;
  }

  lemma Hex4Back(u: Unit)
    ensures Hex4([HexUnit(u / 0x1000), HexUnit(u / 0x100 % 0x10), HexUnit(u / 0x10 % 0x10), HexUnit(u % 0x10)]) == Some(u)
  {
    HexDigits(u);
    HexBack(u / 0x1000);
    HexBack(u / 0x100 % 0x10);
    HexBack(u / 0x10 % 0x10);
    HexBack(u % 0x10);
  }

  lemma DecodesUnit(u: Unit, tail: Text)
    ensures Decode(EscapeUnit(u) + tail) == Prepend(u, Decode(tail))
    ensures |EscapeUnit(u)| == Cost(u)
  {
    var all := EscapeUnit(u) + tail;
    if Letter(u).Some? {
      assert all[2..] == tail;
    } else if u < 0x20 || IsHigh(u) || IsLow(u) {
      Hex4Back(u);
      assert all[6..] == tail && all[2..6] == EscapeUnit(u)[2..6];
      assert EscapeUnit(u)[2..6] ==
        [HexUnit(u / 0x1000), HexUnit(u / 0x100 % 0x10), HexUnit(u / 0x10 % 0x10), HexUnit(u % 0x10)];
    } else {
      assert all[1..] == tail;
    }
  }

  lemma DecodesPair(high: Unit, low: Unit, tail: Text)
    requires IsHigh(high) && IsLow(low)
    ensures Decode([high, low] + tail) == Prepend(high, Prepend(low, Decode(tail)))
  {
    var all := [high, low] + tail;
    assert all[1..] == [low] + tail && all[1..][1..] == tail;
  }

  /** The encoding is read back as the text, and is as long as it is charged. */
  lemma {:induction false} EncodeRoundTrips(t: Text)
    ensures Decode(Encode(t)) == Some(t) && |Encode(t)| == Encoded(t)
    decreases |t|
  {
    if t != [] {
      if |t| > 1 && IsHigh(t[0]) && IsLow(t[1]) {
        EncodeRoundTrips(t[2..]);
        DecodesPair(t[0], t[1], Encode(t[2..]));
        assert t == [t[0]] + ([t[1]] + t[2..]);
      } else {
        EncodeRoundTrips(t[1..]);
        DecodesUnit(t[0], Encode(t[1..]));
        assert t == [t[0]] + t[1..];
      }
    }
  }

  predicate Plain(t: Text) { forall i :: 0 <= i < |t| ==> 0x20 <= t[i] < 0x7F && t[i] != 0x22 && t[i] != 0x5C }

  lemma {:induction false} PlainEncoded(t: Text)
    requires Plain(t)
    ensures Encoded(t) == |t|
  {
    if t != [] { PlainEncoded(t[1..]); }
  }

  // ----- cutting to a room -----

  /** The first k, going down, at which the start of t fits. */
  function FitFrom(t: Text, room: nat, k: nat): (n: nat)
    requires k <= |t|
    ensures n <= k
  {
    if k == 0 || Encoded(t[..k]) <= room then k else FitFrom(t, room, k - 1)
  }

  function Fitted(t: Text, room: nat): Text {
    t[..FitFrom(t, room, if room < |t| then room else |t|)]
  }

  lemma {:induction false} FitFromIsLongest(t: Text, room: nat, k: nat)
    requires k <= |t|
    ensures Encoded(t[..FitFrom(t, room, k)]) <= room
    ensures forall j :: FitFrom(t, room, k) < j <= k ==> Encoded(t[..j]) > room
  {
    if k > 0 && Encoded(t[..k]) > room { FitFromIsLongest(t, room, k - 1); }
  }

  /** Of all starts of t, however their encoded lengths go up and down, the longest that fits. */
  lemma FittedIsLongest(t: Text, room: nat)
    ensures Fitted(t, room) <= t && Encoded(Fitted(t, room)) <= room
    ensures forall j :: |Fitted(t, room)| < j <= |t| ==> Encoded(t[..j]) > room
  {
    var k := if room < |t| then room else |t|;
    FitFromIsLongest(t, room, k);
    forall j | |Fitted(t, room)| < j <= |t| ensures Encoded(t[..j]) > room {
      if j > k { EncodedAtLeastLength(t[..j]); }
    }
  }

  lemma FittedWholeIff(t: Text, room: nat)
    ensures Fitted(t, room) == t <==> Encoded(t) <= room
  {
    FittedIsLongest(t, room);
    assert t[..|t|] == t;
  }

  /** fit: shorten from the end until it fits. */
  method Fit(text: Text, room: nat) returns (cut: Text)
    ensures cut == Fitted(text, room)
    ensures cut <= text && Encoded(cut) <= room
    ensures forall j :: |cut| < j <= |text| ==> Encoded(text[..j]) > room
  {
    cut := text[..if room < |text| then room else |text|];
    while Encoded(cut) > room
      invariant |cut| <= |text| && cut == text[..|cut|]
      invariant FitFrom(text, room, if room < |text| then room else |text|) == FitFrom(text, room, |cut|)
      decreases |cut|
    {
      assert cut != [];
      ghost var before := |cut|;
      cut := cut[..|cut| - 1];
      assert cut == text[..before - 1];
    }
    FittedIsLongest(text, room);
  }

  // ----- reading against the budget -----

  const UNREADABLE: Text :=
    [0x28, 0x75, 0x6E, 0x72, 0x65, 0x61, 0x64, 0x61, 0x62, 0x6C, 0x65, 0x29]

  function Room(budget: int): nat {
    var r := if budget < FIELD_ROOM then budget else FIELD_ROOM;
    if r < 0 then 0 else r
  }

  /** What a guarded read comes to; None is a read that throws. */
  function Value(got: Option<Text>, budget: int): Text {
    Fitted(if got.Some? then got.value else UNREADABLE, Room(budget))
  }

  function Charged(budget: int, t: Text): int { budget - (Encoded(t) + 2) }

  method ReadGuarded(got: Option<Text>, budget: int) returns (text: Text, left: int)
    ensures text == Value(got, budget) && left == Charged(budget, text)
    ensures Encoded(text) <= FIELD_ROOM && (left >= -2 || left == budget - 2)
  {
    text := if got.Some? then got.value else UNREADABLE;
    text := Fit(text, Room(budget));
    left := budget - (Encoded(text) + 2);
  }

  // ----- the summary -----

  datatype Entry = Entry(name: Text, text: Text)

  /** An own property of the thrown value: its name, and its value unless reading it throws. */
  datatype Prop = Prop(key: Text, got: Option<Text>)

  /** The thrown value as the page sees it; props is None when its names cannot be listed. */
  datatype Thrown = Thrown(fields: seq<Option<Text>>, props: Option<seq<Prop>>)

  // build, ctor, str, name, message, stack
  const NAMES: seq<Text> := [
    [0x62, 0x75, 0x69, 0x6C, 0x64], [0x63, 0x74, 0x6F, 0x72], [0x73, 0x74, 0x72],
    [0x6E, 0x61, 0x6D, 0x65], [0x6D, 0x65, 0x73, 0x73, 0x61, 0x67, 0x65], [0x73, 0x74, 0x61, 0x63, 0x6B]]
  const PROPS: Text := [0x70, 0x72, 0x6F, 0x70, 0x73]
  const PROTO: Text := [0x5F, 0x5F, 0x70, 0x72, 0x6F, 0x74, 0x6F, 0x5F, 0x5F]

  predicate Has(info: seq<Entry>, name: Text) { exists i :: 0 <= i < |info| && info[i].name == name }

  /** info[name] = text: in place when the name is there, ignored for the prototype's setter. */
  function Put(info: seq<Entry>, name: Text, text: Text): seq<Entry> {
    if name == PROTO then info
    else if !Has(info, name) then info + [Entry(name, text)]
    else Overwrite(info, name, text)
  }

  function Overwrite(info: seq<Entry>, name: Text, text: Text): seq<Entry> {
    if info == [] then []
    else if info[|info| - 1].name == name then info[..|info| - 1] + [Entry(name, text)]
    else Overwrite(info[..|info| - 1], name, text) + [info[|info| - 1]]
  }

  /** An assignment to a name that is there replaces its text where it stands; the prototype's name is not there to be replaced. */
  lemma {:induction false} OverwriteInPlace(info: seq<Entry>, j: nat, text: Text)
    requires j < |info| && forall i :: 0 <= i < |info| && i != j ==> info[i].name != info[j].name
    ensures Overwrite(info, info[j].name, text) == info[j := Entry(info[j].name, text)]
  {
    var n := |info| - 1;
    if j < n {
      OverwriteInPlace(info[..n], j, text);
      assert info[..n][j := Entry(info[j].name, text)] + [info[n]] == info[j := Entry(info[j].name, text)];
    }
  }

  /** The entry the name, its colon and comma, and the value spend. */
  function Spent(e: Entry): nat { Encoded(e.name) + Encoded(e.text) + 6 }

  function Spending(info: seq<Entry>): nat {
    if info == [] then 0 else Spending(info[..|info| - 1]) + Spent(info[|info| - 1])
  }

  /** JSON.stringify(info).length: braces, and a comma between entries. */
  function JsonLength(info: seq<Entry>): nat {
    if info == [] then 2 else 1 + Spending(info)
  }

  function Quoted(t: Text): Text { [0x22] + Encode(t) + [0x22] }

  /** "name":"text", ... with a comma between entries. */
  function Members(info: seq<Entry>): Text {
    if info == [] then []
    else
      var last := info[|info| - 1];
      var member := Quoted(last.name) + [0x3A] + Quoted(last.text);
      if |info| == 1 then member else Members(info[..|info| - 1]) + [0x2C] + member
  }

  /** The text of JSON.stringify(info). */
  function Json(info: seq<Entry>): Text { [0x7B] + Members(info) + [0x7D] }

  lemma {:induction false} MembersLength(info: seq<Entry>)
    requires info != []
    ensures |Members(info)| == Spending(info) - 1
  {
    var n := |info| - 1;
    EncodeRoundTrips(info[n].name);
    EncodeRoundTrips(info[n].text);
    if n > 0 { MembersLength(info[..n]); } else { assert info[..0] == []; }
  }

  /** The length accounted for is the length of the text. */
  lemma JsonIsAsLong(info: seq<Entry>)
    ensures |Json(info)| == JsonLength(info)
  {
    if info != [] { MembersLength(info); }
  }

  /** The summary so far and what is left of the budget. */
  datatype Tally = Tally(info: seq<Entry>, budget: int)

  function WithField(t: Tally, name: Text, got: Option<Text>): Tally {
    var text := Value(got, t.budget);
    Tally(t.info + [Entry(name, text)], Charged(t.budget, text))
  }

  /** The fields in their order, each charged before the next is read. */
  function Fields(fields: seq<Option<Text>>): Tally
    requires |fields| <= |NAMES|
  {
    if fields == [] then Tally([], BUDGET)
    else WithField(Fields(fields[..|fields| - 1]), NAMES[|fields| - 1], fields[|fields| - 1])
  }

  function NameRoom(budget: int): nat
    requires budget > 0
  {
    if budget < NAME_ROOM then budget else NAME_ROOM
  }

  function Name(key: Text, budget: int): Text
    requires budget > 0
  {
    Fitted(key, NameRoom(budget))
  }

  /** A name is charged with its quotes, a colon and a comma. */
  function AfterName(budget: int, name: Text): int { budget - (Encoded(name) + 4) }

  /** What is left of a text is the longest start of it that is within 500 and what is left of the budget. */
  lemma ValueIsLongest(got: Option<Text>, budget: int)
    ensures var text, room := Value(got, budget), Max(0, Min(500, budget));
      && text <= Got(got) && Encoded(text) <= room
      && forall j :: |text| < j <= |Got(got)| ==> Encoded(Got(got)[..j]) > room
  {
    FittedIsLongest(Got(got), Room(budget));
  }

  /** And of a name the longest within 100. */
  lemma NameIsLongest(key: Text, budget: int)
    requires budget > 0
    ensures var name, room := Name(key, budget), Min(100, budget);
      && name <= key && Encoded(name) <= room
      && forall j :: |name| < j <= |key| ==> Encoded(key[..j]) > room
  {
    FittedIsLongest(key, NameRoom(budget));
  }

  /** One property: its name is charged, then its value is read with what is left. */
  function WithProp(t: Tally, p: Prop): Tally
    requires t.budget > 0
  {
    var name := Name(p.key, t.budget);
    var named := AfterName(t.budget, name);
    var text := Value(p.got, named);
    Tally(Put(t.info, name, text), Charged(named, text))
  }

  /** key in info: an own name, or one every object inherits. */
  predicate Taken(t: Tally, inherited: set<Text>, key: Text) { Has(t.info, key) || key in inherited }

  function Props(props: seq<Prop>, inherited: set<Text>, t: Tally): Tally {
    if props == [] || t.budget <= 0 then t
    else Props(props[1..], inherited, if Taken(t, inherited, props[0].key) then t else WithProp(t, props[0]))
  }

  /** Properties named like an entry that is there, or inherited, are passed over and cost nothing. */
  lemma {:induction false} TakenArePassedOver(props: seq<Prop>, inherited: set<Text>, t: Tally)
    requires forall k :: 0 <= k < |props| ==>
      props[k].key in inherited || exists i :: 0 <= i < |t.info| && t.info[i].name == props[k].key
    ensures Props(props, inherited, t) == t
  {
    if props != [] && t.budget > 0 {
      TakenArePassedOver(props[1..], inherited, t);
    }
  }

  /** And with the budget spent, so are all others. */
  lemma SpentPassesOver(props: seq<Prop>, inherited: set<Text>, t: Tally)
    requires t.budget <= 0
    ensures Props(props, inherited, t) == t
  {
  }

  function Summary(e: Thrown, inherited: set<Text>): Tally
    requires |e.fields| == |NAMES|
  {
    var t := Fields(e.fields);
    match e.props
    case None => t.(info := Put(t.info, PROPS, UNREADABLE))
    case Some(props) => Props(props, inherited, t)
  }

  /** The catch block, up to the throw. */
  method Summarise(e: Thrown, inherited: set<Text>) returns (info: seq<Entry>)
    requires |e.fields| == |NAMES|
    ensures info == Summary(e, inherited).info
    ensures JsonLength(info) <= 2059 + if e.props.None? then 23 else 0
  {
    var budget;
    info, budget := ReadFields(e.fields);
    SummaryBounded(e, inherited);
    if e.props.None? {
      info := Put(info, PROPS, UNREADABLE);
    } else {
      info, budget := AddProps(e.props.value, inherited, info, budget);
    }
  }

  method ReadFields(fields: seq<Option<Text>>) returns (info: seq<Entry>, budget: int)
    requires |fields| == |NAMES|
    ensures Tally(info, budget) == Fields(fields)
  {
    info, budget := [], BUDGET;
    for k := 0 to |fields|
      invariant Tally(info, budget) == Fields(fields[..k])
    {
      FieldsStep(fields, k);
      var text, left := ReadGuarded(fields[k], budget);
      info, budget := info + [Entry(NAMES[k], text)], left;
    }
    assert fields[..|fields|] == fields;
  }

  lemma FieldsStep(fields: seq<Option<Text>>, k: nat)
    requires k < |fields| <= |NAMES|
    ensures Fields(fields[..k + 1]) == WithField(Fields(fields[..k]), NAMES[k], fields[k])
  {
    assert fields[..k + 1][..k] == fields[..k];
  }

  method AddProps(props: seq<Prop>, inherited: set<Text>, start: seq<Entry>, have: int)
    returns (info: seq<Entry>, budget: int)
    ensures Tally(info, budget) == Props(props, inherited, Tally(start, have))
  {
    info, budget := start, have;
    var i := 0;
    while i < |props|
      invariant 0 <= i <= |props|
      invariant Props(props, inherited, Tally(start, have)) == Props(props[i..], inherited, Tally(info, budget))
    {
      if budget <= 0 { break; }
      var p := props[i];
      assert props[i..][0] == p && props[i..][1..] == props[i + 1..];
      i := i + 1;
      if Taken(Tally(info, budget), inherited, p.key) { continue; }
      info, budget := AddProp(p, info, budget);
    }
  }

  method AddProp(p: Prop, start: seq<Entry>, have: int) returns (info: seq<Entry>, budget: int)
    requires have > 0
    ensures Tally(info, budget) == WithProp(Tally(start, have), p)
  {
    var name;
    name, budget := ReadName(p.key, have);
    var text;
    text, budget := ReadGuarded(p.got, budget);
    info := Put(start, name, text);
  }

  method ReadName(key: Text, have: int) returns (name: Text, budget: int)
    requires have > 0
    ensures name == Name(key, have) && budget == AfterName(have, name)
    ensures Encoded(name) <= NAME_ROOM && budget >= -4
  {
    name := Fit(key, NameRoom(have));
    budget := have - (Encoded(name) + 2 + 2);
  }

  // ----- the summary is short -----

  lemma {:induction false} OverwriteSpending(info: seq<Entry>, name: Text, text: Text)
    ensures Spending(Overwrite(info, name, text)) <= Spending(info) + Encoded(text)
  {
    if info != [] {
      var front, last := info[..|info| - 1], info[|info| - 1];
      if last.name == name {
        SpendingAppend(front, Entry(name, text));
      } else {
        OverwriteSpending(front, name, text);
        SpendingAppend(Overwrite(front, name, text), last);
      }
    }
  }

  lemma SpendingAppend(info: seq<Entry>, e: Entry)
    ensures Spending(info + [e]) == Spending(info) + Spent(e)
  {
    assert (info + [e])[..|info|] == info;
  }

  lemma PutSpending(info: seq<Entry>, name: Text, text: Text)
    ensures Spending(Put(info, name, text)) <= Spending(info) + Spent(Entry(name, text))
    ensures name != PROTO && !Has(info, name) ==>
      Spending(Put(info, name, text)) == Spending(info) + Spent(Entry(name, text))
  {
    SpendingAppend(info, Entry(name, text));
    OverwriteSpending(info, name, text);
  }

  /** The fixed names, quoted, with a colon and a comma each. */
  function NamesSpent(k: nat): nat
    requires k <= |NAMES|
  {
    if k == 0 then 0 else NamesSpent(k - 1) + |NAMES[k - 1]| + 4
  }

  lemma NamesPlain(k: nat)
    requires k < |NAMES|
    ensures Encoded(NAMES[k]) == |NAMES[k]|
  {
    PlainEncoded(NAMES[k]);
  }

  lemma ChargedBound(got: Option<Text>, budget: int)
    ensures Charged(budget, Value(got, budget)) >= if budget >= 0 then -2 else budget - 2
    ensures Charged(budget, Value(got, budget)) >= budget - (FIELD_ROOM + 2)
  {
    FittedIsLongest(if got.Some? then got.value else UNREADABLE, Room(budget));
  }

  /** At least this much is left after k fields: the first three cannot overdraw. */
  function LeftAfter(k: nat): int {
    if k <= 3 then BUDGET - k * (FIELD_ROOM + 2) else -2 * (k - 3)
  }

  lemma WithFieldBalance(t: Tally, name: Text, got: Option<Text>)
    ensures var after := WithField(t, name, got);
      && |after.info| == |t.info| + 1
      && Spending(after.info) + after.budget == Spending(t.info) + t.budget + Encoded(name) + 4
      && after.budget >= (if t.budget >= 0 then -2 else t.budget - 2)
      && after.budget >= t.budget - (FIELD_ROOM + 2)
  {
    ChargedBound(got, t.budget);
    SpendingAppend(t.info, Entry(name, Value(got, t.budget)));
  }

  lemma {:induction false} FieldsBalance(fields: seq<Option<Text>>)
    requires |fields| <= |NAMES|
    ensures Spending(Fields(fields).info) + Fields(fields).budget == NamesSpent(|fields|) + BUDGET
    ensures Fields(fields).budget >= LeftAfter(|fields|)
    ensures |Fields(fields).info| == |fields|
  {
    if fields != [] {
      var n := |fields| - 1;
      FieldsBalance(fields[..n]);
      WithFieldBalance(Fields(fields[..n]), NAMES[n], fields[n]);
      NamesPlain(n);
    }
  }

  /** What is spent and what is left, together, never grow; the budget is overdrawn by six at most. */
  predicate Balanced(t: Tally, after: Tally) {
    && Spending(after.info) + after.budget <= Spending(t.info) + t.budget
    && after.budget >= -6
    && (t.info != [] ==> after.info != [])
  }

  lemma AfterNameBound(key: Text, budget: int)
    requires budget > 0
    ensures AfterName(budget, Name(key, budget)) >= -4
  {
    FittedIsLongest(key, NameRoom(budget));
  }

  lemma PutBalance(t: Tally, name: Text, text: Text)
    ensures Spending(Put(t.info, name, text)) + Charged(AfterName(t.budget, name), text) <= Spending(t.info) + t.budget
    ensures t.info != [] ==> Put(t.info, name, text) != []
  {
    PutSpending(t.info, name, text);
  }

  lemma WithPropBalance(t: Tally, p: Prop)
    requires t.budget > 0
    ensures Balanced(t, WithProp(t, p))
  {
    var name := Name(p.key, t.budget);
    AfterNameBound(p.key, t.budget);
    var named := AfterName(t.budget, name);
    ChargedBound(p.got, named);
    PutBalance(t, name, Value(p.got, named));
  }

  lemma {:induction false} PropsBalance(props: seq<Prop>, inherited: set<Text>, t: Tally)
    requires t.budget >= -6
    ensures Balanced(t, Props(props, inherited, t))
  {
    if props != [] && t.budget > 0 {
      if Taken(t, inherited, props[0].key) {
        PropsBalance(props[1..], inherited, t);
      } else {
        WithPropBalance(t, props[0]);
        PropsBalance(props[1..], inherited, WithProp(t, props[0]));
      }
    }
  }

  lemma NamesTotal()
    ensures NamesSpent(6) == 52
  {
    assert NamesSpent(3) == 24;
  }

  lemma PropsMarkerSpent(info: seq<Entry>)
    requires info != []
    ensures JsonLength(Put(info, PROPS, UNREADABLE)) <= 1 + Spending(info) + 23
  {
    PlainEncoded(PROPS);
    PlainEncoded(UNREADABLE);
    PutSpending(info, PROPS, UNREADABLE);
  }

  /** Whatever was thrown, with any number and length of properties, its JSON is within a constant of the budget. */
  lemma SummaryBounded(e: Thrown, inherited: set<Text>)
    requires |e.fields| == |NAMES|
    ensures JsonLength(Summary(e, inherited).info) <= 2059 + if e.props.None? then 23 else 0
  {
    var t := Fields(e.fields);
    FieldsBalance(e.fields);
    NamesTotal();
    match e.props
    case None => PropsMarkerSpent(t.info);
    case Some(props) => PropsBalance(props, inherited, t);
  }

  // ----- nothing is lost when everything fits -----

  /** What the values of the fields spend. */
  function FieldsCost(fields: seq<Option<Text>>): nat {
    if fields == [] then 0
    else FieldsCost(fields[..|fields| - 1]) + Encoded(Got(fields[|fields| - 1])) + 2
  }

  function Got(got: Option<Text>): Text { if got.Some? then got.value else UNREADABLE }

  function Whole(fields: seq<Option<Text>>): seq<Entry>
    requires |fields| <= |NAMES|
  {
    seq(|fields|, i requires 0 <= i < |fields| => Entry(NAMES[i], Got(fields[i])))
  }

  function WholeProps(props: seq<Prop>): seq<Entry> {
    seq(|props|, i requires 0 <= i < |props| => Entry(props[i].key, Got(props[i].got)))
  }

  lemma ValueWhole(got: Option<Text>, budget: int)
    requires Encoded(Got(got)) <= FIELD_ROOM && Encoded(Got(got)) <= budget
    ensures Value(got, budget) == Got(got)
  {
    FittedWholeIff(Got(got), Room(budget));
  }

  predicate FieldsFit(fields: seq<Option<Text>>) {
    fields != [] ==> FieldsFit(fields[..|fields| - 1]) && Encoded(Got(fields[|fields| - 1])) <= 500
  }

  lemma WithFieldWhole(t: Tally, name: Text, got: Option<Text>)
    requires Encoded(Got(got)) <= FIELD_ROOM && Encoded(Got(got)) <= t.budget
    ensures WithField(t, name, got) == Tally(t.info + [Entry(name, Got(got))], t.budget - (Encoded(Got(got)) + 2))
  {
    ValueWhole(got, t.budget);
  }

  lemma {:induction false} FieldsWhole(fields: seq<Option<Text>>)
    requires |fields| <= |NAMES| && FieldsCost(fields) <= BUDGET && FieldsFit(fields)
    ensures Fields(fields) == Tally(Whole(fields), BUDGET - FieldsCost(fields))
  {
    if fields != [] {
      var n := |fields| - 1;
      FieldsWhole(fields[..n]);
      WithFieldWhole(Fields(fields[..n]), NAMES[n], fields[n]);
      WholeAppend(fields);
    }
  }

  lemma WholeAppend(fields: seq<Option<Text>>)
    requires 0 < |fields| <= |NAMES|
    ensures var n := |fields| - 1; Whole(fields) == Whole(fields[..n]) + [Entry(NAMES[n], Got(fields[n]))]
  {
  }

  function PropsCost(props: seq<Prop>): nat {
    if props == [] then 0 else Encoded(props[0].key) + 4 + Encoded(Got(props[0].got)) + 2 + PropsCost(props[1..])
  }

  /** Names that are new when their turn comes: none inherited, in the summary or listed twice. */
  predicate NewNames(props: seq<Prop>, inherited: set<Text>, info: seq<Entry>) {
    && (forall i :: 0 <= i < |props| ==> props[i].key !in inherited && !Has(info, props[i].key))
    && (forall i, j :: 0 <= i < j < |props| ==> props[i].key != props[j].key)
  }

  predicate EachFits(props: seq<Prop>) {
    forall i :: 0 <= i < |props| ==> Encoded(props[i].key) <= 100 && Encoded(Got(props[i].got)) <= 500
  }

  lemma PropWhole(t: Tally, p: Prop)
    requires t.budget >= Encoded(p.key) + 4 + Encoded(Got(p.got)) + 2
    requires Encoded(p.key) <= NAME_ROOM && Encoded(Got(p.got)) <= FIELD_ROOM
    requires p.key != PROTO && !Has(t.info, p.key)
    ensures WithProp(t, p) == Tally(t.info + [Entry(p.key, Got(p.got))],
      t.budget - (Encoded(p.key) + 4 + Encoded(Got(p.got)) + 2))
  {
    FittedWholeIff(p.key, NameRoom(t.budget));
    ValueWhole(p.got, AfterName(t.budget, p.key));
  }

  lemma NewNamesRest(props: seq<Prop>, inherited: set<Text>, info: seq<Entry>, text: Text)
    requires props != [] && NewNames(props, inherited, info)
    ensures NewNames(props[1..], inherited, info + [Entry(props[0].key, text)])
  {
    var longer := info + [Entry(props[0].key, text)];
    forall i | 0 <= i < |props[1..]| ensures !Has(longer, props[1..][i].key) {
      assert props[1..][i] == props[i + 1];
      assert forall k :: 0 <= k < |info| ==> longer[k] == info[k];
    }
  }

  lemma WholePropsSplit(info: seq<Entry>, props: seq<Prop>)
    requires props != []
    ensures info + [Entry(props[0].key, Got(props[0].got))] + WholeProps(props[1..]) == info + WholeProps(props)
  {
    assert WholeProps(props) == [Entry(props[0].key, Got(props[0].got))] + WholeProps(props[1..]);
  }

  lemma {:induction false} PropsWhole(props: seq<Prop>, inherited: set<Text>, t: Tally)
    requires PROTO in inherited && NewNames(props, inherited, t.info)
    requires EachFits(props) && PropsCost(props) <= t.budget
    ensures Props(props, inherited, t).info == t.info + WholeProps(props)
  {
    if props != [] {
      var e := Entry(props[0].key, Got(props[0].got));
      PropWhole(t, props[0]);
      NewNamesRest(props, inherited, t.info, e.text);
      PropsWhole(props[1..], inherited, WithProp(t, props[0]));
      WholePropsSplit(t.info, props);
    }
  }

  /** When every text is within its own limit and the whole within the budget, nothing is cut and nothing left out. */
  lemma SummaryWhole(e: Thrown, inherited: set<Text>)
    requires |e.fields| == |NAMES| && e.props.Some? && PROTO in inherited
    requires FieldsFit(e.fields)
    requires EachFits(e.props.value) && NewNames(e.props.value, inherited, Whole(e.fields))
    requires FieldsCost(e.fields) + PropsCost(e.props.value) <= 2000
    ensures Summary(e, inherited).info == Whole(e.fields) + WholeProps(e.props.value)
  {
    FieldsWhole(e.fields);
    PropsWhole(e.props.value, inherited, Fields(e.fields));
  }
}
