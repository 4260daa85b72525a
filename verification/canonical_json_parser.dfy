/**
 A parser for the printed grammar, and the round trip: parsing a printed value returns the key-sorted
 value.
 */
module CanonicalJsonParser {
  import opened Options
  import opened JsonValues
  import opened CanonicalJson

  datatype Parsed<+T> = Parsed(value: T, rest: Text)

  // ---------------------------------------------------------------- strings

  function HexValue(u: CodeUnit): Option<int> {
    if 0x30 <= u <= 0x39 then Some(u - 0x30)
    else if 0x61 <= u <= 0x66 then Some(u - 0x61 + 10)
    else if 0x41 <= u <= 0x46 then Some(u - 0x41 + 10)
    else None
  }

  function Unescape(u: CodeUnit): Option<CodeUnit> {
    if u == QUOTE || u == BACKSLASH || u == 0x2F then Some(u)
    else if u == 0x62 then Some(0x08)
    else if u == 0x66 then Some(0x0C)
    else if u == 0x6E then Some(0x0A)
    else if u == 0x72 then Some(0x0D)
    else if u == 0x74 then Some(0x09)
    else None
  }

  /** The code unit named by four hexadecimal digits. */
  function FourHex(t: Text): (r: Option<CodeUnit>)
    requires |t| >= 4
  {
    var a, b, c, d := HexValue(t[0]), HexValue(t[1]), HexValue(t[2]), HexValue(t[3]);
    if a.Some? && b.Some? && c.Some? && d.Some? && 0 <= 4096 * a.value + 256 * b.value + 16 * c.value + d.value < 0x1_0000
    then Some(4096 * a.value + 256 * b.value + 16 * c.value + d.value) else None
  }

  /** One unit of a string body, escaped or not, and the text after it. */
  function ParseUnit(t: Text): (r: Option<Parsed<CodeUnit>>)
    ensures r.Some? ==> |r.value.rest| < |t|
  {
    if t == [] || t[0] < 0x20 || t[0] == QUOTE then None
    else if t[0] != BACKSLASH then Some(Parsed(t[0], t[1..]))
    else if |t| < 2 then None
    else if t[1] != LETTER_U then
      var u := Unescape(t[1]);
      if u.None? then None else Some(Parsed(u.value, t[2..]))
    else if |t| < 6 then None
    else
      var u := FourHex(t[2..6]);
      if u.None? then None else Some(Parsed(u.value, t[6..]))
  }

  /** The string body up to its closing quote. */
  function ParseBody(t: Text): (r: Option<Parsed<Text>>)
    ensures r.Some? ==> |r.value.rest| < |t|
    decreases |t|
  {
    if t != [] && t[0] == QUOTE then Some(Parsed([], t[1..]))
    else
      var unit := ParseUnit(t);
      if unit.None? then None
      else
        var body := ParseBody(unit.value.rest);
        if body.None? then None else Some(Parsed([unit.value.value] + body.value.value, body.value.rest))
  }

  // ---------------------------------------------------------------- numbers

  predicate IsDigit(u: CodeUnit) { 0x30 <= u <= 0x39 }

  function DigitRun(t: Text): (n: nat)
    ensures n <= |t|
    ensures forall i :: 0 <= i < n ==> IsDigit(t[i])
    ensures n < |t| ==> !IsDigit(t[n])
  {
    if t == [] || !IsDigit(t[0]) then 0 else 1 + DigitRun(t[1..])
  }

  function DigitsValue(t: Text): int {
    if t == [] then 0 else 10 * DigitsValue(t[..|t| - 1]) + t[|t| - 1] - 0x30
  }

  function ParseDigits(t: Text): (r: Option<Parsed<int>>)
    ensures r.Some? ==> |r.value.rest| < |t|
  {
    var n := DigitRun(t);
    if n == 0 || (t[0] == 0x30 && n > 1) then None else Some(Parsed(DigitsValue(t[..n]), t[n..]))
  }

  // ---------------------------------------------------------------- values

  function StartsWith(t: Text, prefix: Text): bool {
    |prefix| <= |t| && t[..|prefix|] == prefix
  }

  function ParseValue(t: Text): (r: Option<Parsed<Json>>)
    ensures r.Some? ==> |r.value.rest| < |t|
    decreases |t|, 0
  {
    if t == [] then None
    else if t[0] == QUOTE then
      var body := ParseBody(t[1..]);
      if body.None? then None else Some(Parsed(String(body.value.value), body.value.rest))
    else if t[0] == OPEN_BRACKET then
      if |t| > 1 && t[1] == CLOSE_BRACKET then Some(Parsed(Array([]), t[2..]))
      else
        var items := ParseItems(t[1..]);
        if items.None? then None else Some(Parsed(Array(items.value.value), items.value.rest))
    else if t[0] == OPEN_BRACE then
      if |t| > 1 && t[1] == CLOSE_BRACE then Some(Parsed(Record([]), t[2..]))
      else
        var entries := ParseEntries(t[1..]);
        if entries.None? then None else Some(Parsed(Record(entries.value.value), entries.value.rest))
    else if t[0] == MINUS then
      var digits := ParseDigits(t[1..]);
      if digits.None? then None else Some(Parsed(Number(-digits.value.value), digits.value.rest))
    else if IsDigit(t[0]) then
      var digits := ParseDigits(t);
      if digits.None? then None else Some(Parsed(Number(digits.value.value), digits.value.rest))
    else if StartsWith(t, NULL_TEXT) then Some(Parsed(Null, t[|NULL_TEXT|..]))
    else if StartsWith(t, TRUE_TEXT) then Some(Parsed(Boolean(true), t[|TRUE_TEXT|..]))
    else if StartsWith(t, FALSE_TEXT) then Some(Parsed(Boolean(false), t[|FALSE_TEXT|..]))
    else None
  }

  /** The items of a nonempty array, up to and including its closing bracket. */
  function ParseItems(t: Text): (r: Option<Parsed<seq<Json>>>)
    ensures r.Some? ==> |r.value.rest| < |t|
    decreases |t|, 1
  {
    var first := ParseValue(t);
    if first.None? || first.value.rest == [] then None
    else if first.value.rest[0] == CLOSE_BRACKET then Some(Parsed([first.value.value], first.value.rest[1..]))
    else if first.value.rest[0] != COMMA then None
    else
      var more := ParseItems(first.value.rest[1..]);
      if more.None? then None else Some(Parsed([first.value.value] + more.value.value, more.value.rest))
  }

  /** One member, key and value. */
  function ParseEntry(t: Text): (r: Option<Parsed<Entry>>)
    ensures r.Some? ==> |r.value.rest| < |t|
    decreases |t|, 1
  {
    if t == [] || t[0] != QUOTE then None
    else
      var key := ParseBody(t[1..]);
      if key.None? || key.value.rest == [] || key.value.rest[0] != COLON then None
      else
        var v := ParseValue(key.value.rest[1..]);
        if v.None? then None else Some(Parsed(Entry(key.value.value, v.value.value), v.value.rest))
  }

  function ParseEntries(t: Text): (r: Option<Parsed<seq<Entry>>>)
    ensures r.Some? ==> |r.value.rest| < |t|
    decreases |t|, 2
  {
    var first := ParseEntry(t);
    if first.None? || first.value.rest == [] then None
    else if first.value.rest[0] == CLOSE_BRACE then Some(Parsed([first.value.value], first.value.rest[1..]))
    else if first.value.rest[0] != COMMA then None
    else
      var more := ParseEntries(first.value.rest[1..]);
      if more.None? then None else Some(Parsed([first.value.value] + more.value.value, more.value.rest))
  }

  // ---------------------------------------------------------------- round trip of strings

  lemma HexSplit(u: CodeUnit)
    ensures 4096 * (u / 4096) + 256 * (u / 256 % 16) + 16 * (u / 16 % 16) + u % 16 == u
    ensures 0 <= u / 4096 < 16
  {
    var a := u / 16;
    var b := a / 16;
    assert u / 256 == b && u / 4096 == b / 16;
  }

  lemma HexRoundTrip(u: CodeUnit)
    ensures FourHex(UnicodeEscape(u)[2..]) == Some(u)
  {
    HexSplit(u);
    var t := UnicodeEscape(u)[2..];
    assert t == [HexDigit(u / 4096), HexDigit(u / 256 % 16), HexDigit(u / 16 % 16), HexDigit(u % 16)];
    HexDigitRoundTrip(u / 4096);
    HexDigitRoundTrip(u / 256 % 16);
    HexDigitRoundTrip(u / 16 % 16);
    HexDigitRoundTrip(u % 16);
  }

  lemma HexDigitRoundTrip(n: int)
    requires 0 <= n < 16
    ensures HexValue(HexDigit(n)) == Some(n)
  {
  }

  lemma UnitRoundTrip(u: CodeUnit, rest: Text)
    ensures ParseUnit(QuoteUnit(u) + rest) == Some(Parsed(u, rest))
    ensures QuoteUnit(u) != [] && QuoteUnit(u)[0] != QUOTE
  {
    var t := QuoteUnit(u) + rest;
    if ShortEscape(u) != 0 {
      assert t[2..] == rest;
    } else if u < 0x20 || HighSurrogate(u) || LowSurrogate(u) {
      HexRoundTrip(u);
      assert t[2..6] == UnicodeEscape(u)[2..];
      assert t[6..] == rest;
    } else {
      assert t[1..] == rest;
    }
  }

  lemma RawUnit(u: CodeUnit, rest: Text)
    requires u >= 0x20 && u != QUOTE && u != BACKSLASH
    ensures ParseUnit([u] + rest) == Some(Parsed(u, rest))
  {
  }

  lemma BodyStep(t: Text, u: CodeUnit, tail: Text, body: Text, rest: Text)
    requires t != [] && t[0] != QUOTE && ParseUnit(t) == Some(Parsed(u, tail))
    requires ParseBody(tail) == Some(Parsed(body, rest))
    ensures ParseBody(t) == Some(Parsed([u] + body, rest))
  {
    hide ParseUnit;
  }

  lemma PairStep(high: CodeUnit, low: CodeUnit, tail: Text, body: Text, rest: Text)
    requires HighSurrogate(high) && LowSurrogate(low) && ParseBody(tail) == Some(Parsed(body, rest))
    ensures ParseBody([high] + ([low] + tail)) == Some(Parsed([high] + ([low] + body), rest))
  {
    RawUnit(low, tail);
    BodyStep([low] + tail, low, tail, body, rest);
    RawUnit(high, [low] + tail);
    BodyStep([high] + ([low] + tail), high, [low] + tail, [low] + body, rest);
  }

  /** Regrouping a text whose front is followed by the rest of a body. */
  lemma Regroup(front: Text, body: Text, rest: Text)
    ensures (front + body) + [QUOTE] + rest == front + (body + [QUOTE] + rest)
  {
  }

  lemma TwoUnits(pair: Text, tail: Text)
    requires |pair| == 2
    ensures pair + tail == [pair[0]] + ([pair[1]] + tail)
  {
  }

  lemma PairText(t: Text, rest: Text)
    requires |t| >= 2 && HighSurrogate(t[0]) && LowSurrogate(t[1])
    ensures QuoteBody(t) + [QUOTE] + rest == t[..2] + (QuoteBody(t[2..]) + [QUOTE] + rest)
  {
    assert QuoteBody(t) == t[..2] + QuoteBody(t[2..]);
    hide QuoteBody;
    Regroup(t[..2], QuoteBody(t[2..]), rest);
  }

  lemma UnitText(t: Text, rest: Text)
    requires t != [] && !(|t| >= 2 && HighSurrogate(t[0]) && LowSurrogate(t[1]))
    ensures QuoteBody(t) + [QUOTE] + rest == QuoteUnit(t[0]) + (QuoteBody(t[1..]) + [QUOTE] + rest)
  {
    hide QuoteUnit;
    assert QuoteBody(t) == QuoteUnit(t[0]) + QuoteBody(t[1..]);
    hide QuoteBody;
    Regroup(QuoteUnit(t[0]), QuoteBody(t[1..]), rest);
  }

  lemma PairCase(t: Text, rest: Text)
    requires |t| >= 2 && HighSurrogate(t[0]) && LowSurrogate(t[1])
    requires ParseBody(QuoteBody(t[2..]) + [QUOTE] + rest) == Some(Parsed(t[2..], rest))
    ensures ParseBody(QuoteBody(t) + [QUOTE] + rest) == Some(Parsed(t, rest))
  {
    hide QuoteBody, ParseBody;
    var tail := QuoteBody(t[2..]) + [QUOTE] + rest;
    PairText(t, rest);
    TwoUnits(t[..2], tail);
    TwoUnits(t[..2], t[2..]);
    PairStep(t[0], t[1], tail, t[2..], rest);
    assert t == t[..2] + t[2..];
  }

  lemma UnitCase(t: Text, rest: Text)
    requires t != [] && !(|t| >= 2 && HighSurrogate(t[0]) && LowSurrogate(t[1]))
    requires ParseBody(QuoteBody(t[1..]) + [QUOTE] + rest) == Some(Parsed(t[1..], rest))
    ensures ParseBody(QuoteBody(t) + [QUOTE] + rest) == Some(Parsed(t, rest))
  {
    hide QuoteBody, QuoteUnit, ParseUnit, ParseBody;
    var tail := QuoteBody(t[1..]) + [QUOTE] + rest;
    UnitText(t, rest);
    UnitRoundTrip(t[0], tail);
    assert (QuoteUnit(t[0]) + tail)[0] == QuoteUnit(t[0])[0];
    BodyStep(QuoteUnit(t[0]) + tail, t[0], tail, t[1..], rest);
    assert t == [t[0]] + t[1..];
  }

  lemma {:induction false} BodyRoundTrip(t: Text, rest: Text)
    ensures ParseBody(QuoteBody(t) + [QUOTE] + rest) == Some(Parsed(t, rest))
    decreases |t|
  {
    if t == [] {
      assert QuoteBody(t) + [QUOTE] + rest == [QUOTE] + rest;
    } else if |t| >= 2 && HighSurrogate(t[0]) && LowSurrogate(t[1]) {
      hide QuoteBody, ParseBody;
      BodyRoundTrip(t[2..], rest);
      PairCase(t, rest);
    } else {
      hide QuoteBody, ParseBody;
      BodyRoundTrip(t[1..], rest);
      UnitCase(t, rest);
    }
  }

  // ---------------------------------------------------------------- round trip of numbers

  lemma {:induction false} DigitsRoundTrip(n: nat)
    ensures DigitsValue(Digits(n)) == n
    ensures Digits(n)[0] == 0x30 ==> n == 0
  {
    if n < 10 {
      OneDigit(n);
    } else {
      DigitsRoundTrip(n / 10);
      AnotherDigit(Digits(n / 10), n % 10);
    }
  }

  lemma OneDigit(d: nat)
    requires d < 10
    ensures DigitsValue([0x30 + d]) == d
  {
    assert [0x30 + d][..0] == [];
  }

  lemma AnotherDigit(t: Text, d: nat)
    requires d < 10
    ensures DigitsValue(t + [0x30 + d]) == 10 * DigitsValue(t) + d
  {
    assert (t + [0x30 + d])[..|t|] == t;
  }

  /** The text after a value does not continue a number. */
  predicate Delimited(rest: Text) {
    rest == [] || !IsDigit(rest[0])
  }

  lemma {:induction false} DigitRunOf(t: Text, rest: Text)
    requires forall i :: 0 <= i < |t| ==> IsDigit(t[i])
    requires Delimited(rest)
    ensures DigitRun(t + rest) == |t|
  {
    if t == [] {
      assert t + rest == rest;
    } else {
      assert (t + rest)[1..] == t[1..] + rest;
      DigitRunOf(t[1..], rest);
    }
  }

  lemma ParseDigitsRoundTrip(n: nat, rest: Text)
    requires Delimited(rest)
    ensures ParseDigits(Digits(n) + rest) == Some(Parsed(n, rest))
  {
    DigitsRoundTrip(n);
    DigitRunOf(Digits(n), rest);
    assert (Digits(n) + rest)[..|Digits(n)|] == Digits(n);
    assert (Digits(n) + rest)[|Digits(n)|..] == rest;
    if n < 10 { assert |Digits(n)| == 1; }
  }

  lemma NonNegativeText(n: nat, rest: Text)
    requires ParseDigits(Digits(n) + rest) == Some(Parsed(n, rest))
    ensures ParseValue(Digits(n) + rest) == Some(Parsed(Number(n), rest))
  {
    hide ParseBody, ParseItems, ParseEntries, ParseDigits, Digits;
    assert IsDigit((Digits(n) + rest)[0]);
  }

  lemma NegativeText(n: int, rest: Text)
    requires n > 0 && ParseDigits(Digits(n) + rest) == Some(Parsed(n, rest))
    ensures ParseValue([MINUS] + Digits(n) + rest) == Some(Parsed(Number(-n), rest))
  {
    hide ParseBody, ParseItems, ParseEntries, ParseDigits, Digits;
    assert ([MINUS] + Digits(n) + rest)[1..] == Digits(n) + rest;
  }

  lemma NumberRoundTrip(n: int, rest: Text)
    requires Delimited(rest)
    ensures ParseValue(PrintNumber(n) + rest) == Some(Parsed(Number(n), rest))
  {
    hide ParseValue;
    if n < 0 {
      ParseDigitsRoundTrip(-n, rest);
      NegativeText(-n, rest);
    } else {
      ParseDigitsRoundTrip(n, rest);
      NonNegativeText(n, rest);
    }
  }

  // ---------------------------------------------------------------- round trip of values

  /** A value the printer renders member by member: no undefined parts, no non-finite numbers. */
  predicate Clean(v: Json) {
    match v
    case Undefined => false
    case NotFinite => false
    case Array(items) => forall i :: 0 <= i < |items| ==> Clean(items[i])
    case Record(entries) => forall i :: 0 <= i < |entries| ==> Clean(entries[i].value)
    case _ => true
  }

  lemma RenderStart(v: Json)
    requires Clean(v)
    ensures |Render(v)| > 0 && Render(v)[0] != CLOSE_BRACKET && Render(v)[0] != CLOSE_BRACE
  {
  }

  lemma LiteralRoundTrip(v: Json, rest: Text)
    requires v.Null? || v.Boolean?
    ensures ParseValue(Render(v) + rest) == Some(Parsed(v, rest))
  {
    var t := Render(v) + rest;
    assert t[..|Render(v)|] == Render(v) && t[|Render(v)|..] == rest;
    if v == Boolean(true) { assert t[0] != NULL_TEXT[0]; }
    if v == Boolean(false) { assert t[0] != NULL_TEXT[0] && t[0] != TRUE_TEXT[0]; }
  }

  lemma QuoteRoundTrip(t: Text, rest: Text)
    ensures (Quote(t) + rest)[0] == QUOTE
    ensures ParseBody((Quote(t) + rest)[1..]) == Some(Parsed(t, rest))
  {
    assert (Quote(t) + rest)[1..] == QuoteBody(t) + [QUOTE] + rest;
    BodyRoundTrip(t, rest);
  }

  lemma ArrayText(items: seq<Json>, rest: Text)
    requires Clean(Array(items))
    requires items != [] ==>
               ParseItems(Join(RenderItems(items)) + [CLOSE_BRACKET] + rest) == Some(Parsed(items, rest))
    ensures ParseValue(Render(Array(items)) + rest) == Some(Parsed(Array(items), rest))
  {
    hide ParseBody, ParseItems, ParseEntries, ParseDigits;
    var t := Render(Array(items)) + rest;
    if items == [] {
      assert t == [OPEN_BRACKET, CLOSE_BRACKET] + rest;
    } else {
      assert t[1..] == Join(RenderItems(items)) + [CLOSE_BRACKET] + rest;
      RenderStart(items[0]);
      JoinStart(RenderItems(items));
    }
  }

  lemma RecordText(entries: seq<Entry>, rest: Text)
    requires entries != [] ==>
               ParseEntries(Join(RenderEntries(entries)) + [CLOSE_BRACE] + rest) == Some(Parsed(entries, rest))
    ensures ParseValue(Render(Record(entries)) + rest) == Some(Parsed(Record(entries), rest))
  {
    hide ParseBody, ParseItems, ParseEntries, ParseDigits;
    var t := Render(Record(entries)) + rest;
    if entries == [] {
      assert t == [OPEN_BRACE, CLOSE_BRACE] + rest;
    } else {
      assert t[1..] == Join(RenderEntries(entries)) + [CLOSE_BRACE] + rest;
      assert RenderEntries(entries)[0][0] == QUOTE;
      JoinStart(RenderEntries(entries));
    }
  }

  lemma StringText(s: Text, rest: Text)
    ensures ParseValue(Quote(s) + rest) == Some(Parsed(String(s), rest))
  {
    hide ParseBody, ParseItems, ParseEntries, ParseDigits;
    QuoteRoundTrip(s, rest);
  }

  /** Parsing what was rendered gives the value back. */
  lemma {:induction false} ValueRoundTrip(v: Json, rest: Text)
    requires Clean(v) && Delimited(rest)
    ensures ParseValue(Render(v) + rest) == Some(Parsed(v, rest))
    decreases v, 1
  {
    hide ParseValue;
    match v
    case String(s) => StringText(s, rest);
    case Number(n) => NumberRoundTrip(n, rest);
    case Array(items) =>
      if items != [] { ItemsRoundTrip(items, rest); }
      ArrayText(items, rest);
    case Record(entries) =>
      if entries != [] { EntriesRoundTrip(entries, rest); }
      RecordText(entries, rest);
    case _ => LiteralRoundTrip(v, rest);
  }

  lemma JoinStart(parts: seq<Text>)
    requires |parts| > 0 && |parts[0]| > 0
    ensures |Join(parts)| > 0 && Join(parts)[0] == parts[0][0]
  {
  }

  lemma {:induction false} ItemsRoundTrip(items: seq<Json>, rest: Text)
    requires items != [] && Clean(Array(items))
    ensures ParseItems(Join(RenderItems(items)) + [CLOSE_BRACKET] + rest) == Some(Parsed(items, rest))
    decreases items, 0
  {
    var t := Join(RenderItems(items)) + [CLOSE_BRACKET] + rest;
    assert RenderItems(items)[1..] == RenderItems(items[1..]);
    assert Clean(items[0]);
    if |items| == 1 {
      assert items[1..] == [];
      assert t == Render(items[0]) + ([CLOSE_BRACKET] + rest);
      ValueRoundTrip(items[0], [CLOSE_BRACKET] + rest);
      assert items == [items[0]];
    } else {
      var tail := Join(RenderItems(items[1..])) + [CLOSE_BRACKET] + rest;
      assert t == Render(items[0]) + ([COMMA] + tail);
      ValueRoundTrip(items[0], [COMMA] + tail);
      assert forall i :: 0 <= i < |items[1..]| ==> items[1..][i] == items[i + 1];
      ItemsRoundTrip(items[1..], rest);
      assert ([COMMA] + tail)[1..] == tail;
      assert items == [items[0]] + items[1..];
    }
  }

  lemma EntryStep(t: Text, key: Text, tail: Text, value: Json, rest: Text)
    requires t != [] && t[0] == QUOTE && ParseBody(t[1..]) == Some(Parsed(key, [COLON] + tail))
    requires ParseValue(tail) == Some(Parsed(value, rest))
    ensures ParseEntry(t) == Some(Parsed(Entry(key, value), rest))
  {
    hide ParseBody, ParseValue;
    assert ([COLON] + tail)[1..] == tail;
  }

  lemma EntryRoundTrip(e: Entry, rest: Text)
    requires Clean(e.value) && Delimited(rest)
    ensures ParseEntry(Quote(e.key) + [COLON] + Render(e.value) + rest) == Some(Parsed(e, rest))
    decreases e, 2
  {
    hide ParseBody, ParseValue, ParseEntry, Render, Clean;
    var t := Quote(e.key) + [COLON] + Render(e.value) + rest;
    var tail := Render(e.value) + rest;
    assert t == Quote(e.key) + ([COLON] + tail);
    QuoteRoundTrip(e.key, [COLON] + tail);
    ValueRoundTrip(e.value, rest);
    EntryStep(t, e.key, tail, e.value, rest);
  }

  lemma EntriesStep(t: Text, e: Entry, tail: Text, more: seq<Entry>, rest: Text)
    requires ParseEntry(t) == Some(Parsed(e, [COMMA] + tail)) && ParseEntries(tail) == Some(Parsed(more, rest))
    ensures ParseEntries(t) == Some(Parsed([e] + more, rest))
  {
    hide ParseEntry;
    assert ([COMMA] + tail)[1..] == tail;
  }

  lemma LastEntryStep(t: Text, e: Entry, rest: Text)
    requires ParseEntry(t) == Some(Parsed(e, [CLOSE_BRACE] + rest))
    ensures ParseEntries(t) == Some(Parsed([e], rest))
  {
    hide ParseEntry;
    assert ([CLOSE_BRACE] + rest)[1..] == rest;
  }

  lemma {:induction false} EntriesRoundTrip(entries: seq<Entry>, rest: Text)
    requires entries != [] && Clean(Record(entries))
    ensures ParseEntries(Join(RenderEntries(entries)) + [CLOSE_BRACE] + rest) == Some(Parsed(entries, rest))
    decreases entries, 0
  {
    hide ParseEntry, ParseEntries;
    var t := Join(RenderEntries(entries)) + [CLOSE_BRACE] + rest;
    hide Quote, Render;
    var first := Quote(entries[0].key) + [COLON] + Render(entries[0].value);
    assert RenderEntries(entries)[1..] == RenderEntries(entries[1..]);
    assert Clean(entries[0].value);
    if |entries| == 1 {
      assert entries[1..] == [];
      assert t == first + ([CLOSE_BRACE] + rest);
      EntryRoundTrip(entries[0], [CLOSE_BRACE] + rest);
      LastEntryStep(t, entries[0], rest);
      assert entries == [entries[0]];
    } else {
      var tail := Join(RenderEntries(entries[1..])) + [CLOSE_BRACE] + rest;
      assert t == first + ([COMMA] + tail);
      EntryRoundTrip(entries[0], [COMMA] + tail);
      assert forall i :: 0 <= i < |entries[1..]| ==> entries[1..][i] == entries[i + 1];
      EntriesRoundTrip(entries[1..], rest);
      EntriesStep(t, entries[0], tail, entries[1..], rest);
      assert entries == [entries[0]] + entries[1..];
    }
  }
}
