/**
 The canonical JSON printer and a parser for what it prints (RFC 8259, sections 4, 5 and 7).
 The key comparison is a parameter: the locale order is only known to be a strict weak order.
 */
module CanonicalJson {
  import opened Options
  import opened JsonValues

  type KeyOrder = (Text, Text) -> bool

  ghost predicate StrictWeak(less: KeyOrder) {
    && (forall a :: !less(a, a))
    && (forall a, b, c :: less(a, b) && less(b, c) ==> less(a, c))
    && (forall a, b, c :: !less(a, b) && !less(b, c) ==> !less(a, c))
  }

  /** Distinct keys never compare equal. */
  ghost predicate Separates(less: KeyOrder) {
    forall a, b :: a != b ==> less(a, b) || less(b, a)
  }

  const QUOTE: CodeUnit := 0x22
  const COMMA: CodeUnit := 0x2C
  const MINUS: CodeUnit := 0x2D
  const COLON: CodeUnit := 0x3A
  const OPEN_BRACKET: CodeUnit := 0x5B
  const BACKSLASH: CodeUnit := 0x5C
  const CLOSE_BRACKET: CodeUnit := 0x5D
  const OPEN_BRACE: CodeUnit := 0x7B
  const CLOSE_BRACE: CodeUnit := 0x7D
  const LETTER_U: CodeUnit := 0x75
  const NULL_TEXT: Text := [0x6E, 0x75, 0x6C, 0x6C]
  const TRUE_TEXT: Text := [0x74, 0x72, 0x75, 0x65]
  const FALSE_TEXT: Text := [0x66, 0x61, 0x6C, 0x73, 0x65]

  // ---------------------------------------------------------------- strings

  function HexDigit(n: int): CodeUnit
    requires 0 <= n < 16
  {
    if n < 10 then 0x30 + n else 0x61 + n - 10
  }

  function UnicodeEscape(u: CodeUnit): Text {
    [BACKSLASH, LETTER_U, HexDigit(u / 4096), HexDigit(u / 256 % 16), HexDigit(u / 16 % 16), HexDigit(u % 16)]
  }

  predicate HighSurrogate(u: CodeUnit) { 0xD800 <= u <= 0xDBFF }
  predicate LowSurrogate(u: CodeUnit) { 0xDC00 <= u <= 0xDFFF }

  /** The letter after the backslash of a short escape, or 0 when there is none. */
  function ShortEscape(u: CodeUnit): CodeUnit {
    if u == 0x08 then 0x62 else if u == 0x09 then 0x74 else if u == 0x0A then 0x6E
    else if u == 0x0C then 0x66 else if u == 0x0D then 0x72
    else if u == QUOTE then QUOTE else if u == BACKSLASH then BACKSLASH else 0
  }

  function QuoteUnit(u: CodeUnit): Text {
    if ShortEscape(u) != 0 then [BACKSLASH, ShortEscape(u)]
    else if u < 0x20 || HighSurrogate(u) || LowSurrogate(u) then UnicodeEscape(u)
    else [u]
  }

  /** `JSON.stringify` of a string body: surrogate pairs stay, lone surrogates are escaped. */
  function QuoteBody(t: Text): Text {
    if t == [] then []
    else if |t| >= 2 && HighSurrogate(t[0]) && LowSurrogate(t[1]) then t[..2] + QuoteBody(t[2..])
    else QuoteUnit(t[0]) + QuoteBody(t[1..])
  }

  function Quote(t: Text): Text { [QUOTE] + QuoteBody(t) + [QUOTE] }

  // ---------------------------------------------------------------- numbers

  function Digits(n: nat): (t: Text)
    ensures |t| > 0 && forall i :: 0 <= i < |t| ==> 0x30 <= t[i] <= 0x39
  {
    if n < 10 then [0x30 + n] else Digits(n / 10) + [0x30 + n % 10]
  }

  function PrintNumber(n: int): Text {
    if n < 0 then [MINUS] + Digits(-n) else Digits(n)
  }

  // ---------------------------------------------------------------- sorting

  /** A stable insertion: the entry goes before the first one that is not smaller. */
  function Insert(less: KeyOrder, e: Entry, s: seq<Entry>): seq<Entry> {
    if s == [] || !less(s[0].key, e.key) then [e] + s else [s[0]] + Insert(less, e, s[1..])
  }

  function Sorted(less: KeyOrder, s: seq<Entry>): seq<Entry> {
    if s == [] then [] else Insert(less, s[0], Sorted(less, s[1..]))
  }

  function Defined(s: seq<Entry>): seq<Entry> {
    if s == [] then []
    else if s[0].value.Undefined? then Defined(s[1..])
    else [s[0]] + Defined(s[1..])
  }

  lemma InsertMembers(less: KeyOrder, e: Entry, s: seq<Entry>)
    ensures forall x :: x in Insert(less, e, s) <==> x == e || x in s
  {
    if s == [] || !less(s[0].key, e.key) {
    } else {
      InsertMembers(less, e, s[1..]);
    }
  }

  lemma SortedMembers(less: KeyOrder, s: seq<Entry>)
    ensures forall x :: x in Sorted(less, s) <==> x in s
  {
    if s != [] {
      SortedMembers(less, s[1..]);
      InsertMembers(less, s[0], Sorted(less, s[1..]));
    }
  }

  lemma DefinedMembers(s: seq<Entry>)
    ensures forall x :: x in Defined(s) <==> x in s && !x.value.Undefined?
  {
    if s != [] { DefinedMembers(s[1..]); }
  }

  // ---------------------------------------------------------------- the printer

  /** The printed text, or `None` where the printer throws. */
  ghost function Print(less: KeyOrder, v: Json): Option<Text>
    decreases v, 1, 0
  {
    match v
    case Undefined => None
    case NotFinite => None
    case Null => Some(NULL_TEXT)
    case Boolean(flag) => Some(if flag then TRUE_TEXT else FALSE_TEXT)
    case Number(n) => Some(PrintNumber(n))
    case String(t) => Some(Quote(t))
    case Array(items) =>
      var parts := PrintItems(less, v, items);
      if parts.None? then None else Some([OPEN_BRACKET] + Join(parts.value) + [CLOSE_BRACKET])
    case Record(entries) =>
      SortedMembers(less, Defined(entries));
      DefinedMembers(entries);
      var parts := PrintEntries(less, v, Sorted(less, Defined(entries)));
      if parts.None? then None else Some([OPEN_BRACE] + Join(parts.value) + [CLOSE_BRACE])
  }

  ghost function PrintItems(less: KeyOrder, whole: Json, items: seq<Json>): (r: Option<seq<Text>>)
    requires forall i :: 0 <= i < |items| ==> items[i] < whole
    decreases whole, 0, |items|
  {
    if items == [] then Some([])
    else
      var first := Print(less, items[0]);
      var rest := PrintItems(less, whole, items[1..]);
      if first.None? || rest.None? then None else Some([first.value] + rest.value)
  }

  ghost function PrintEntries(less: KeyOrder, whole: Json, entries: seq<Entry>): (r: Option<seq<Text>>)
    requires forall e :: e in entries ==> e.value < whole
    decreases whole, 0, |entries|
  {
    if entries == [] then Some([])
    else
      var first := Print(less, entries[0].value);
      var rest := PrintEntries(less, whole, entries[1..]);
      if first.None? || rest.None? then None
      else Some([Quote(entries[0].key) + [COLON] + first.value] + rest.value)
  }

  function Join(parts: seq<Text>): Text {
    if parts == [] then [] else if |parts| == 1 then parts[0] else parts[0] + [COMMA] + Join(parts[1..])
  }

  // ---------------------------------------------------------------- the key-sorted value

  /** The printer does not throw. */
  predicate Printable(v: Json) {
    match v
    case Undefined => false
    case NotFinite => false
    case Array(items) => forall i :: 0 <= i < |items| ==> Printable(items[i])
    case Record(entries) => forall i :: 0 <= i < |entries| ==> entries[i].value.Undefined? || Printable(entries[i].value)
    case _ => true
  }

  /** Undefined members dropped and keys sorted, at every level. */
  function Canonical(less: KeyOrder, v: Json): Json
    decreases v, 1
  {
    match v
    case Array(items) => Array(CanonicalItems(less, items))
    case Record(entries) => Record(Sorted(less, CanonicalEntries(less, entries)))
    case _ => v
  }

  function CanonicalItems(less: KeyOrder, items: seq<Json>): (r: seq<Json>)
    ensures |r| == |items|
    decreases items, 0
  {
    if items == [] then [] else [Canonical(less, items[0])] + CanonicalItems(less, items[1..])
  }

  function CanonicalEntries(less: KeyOrder, entries: seq<Entry>): seq<Entry>
    decreases entries, 0
  {
    if entries == [] then []
    else if entries[0].value.Undefined? then CanonicalEntries(less, entries[1..])
    else [Entry(entries[0].key, Canonical(less, entries[0].value))] + CanonicalEntries(less, entries[1..])
  }

  /** The text of a value, keys in the order they stand. */
  function Render(v: Json): Text
    decreases v, 1
  {
    match v
    case Undefined => []
    case NotFinite => []
    case Null => NULL_TEXT
    case Boolean(flag) => if flag then TRUE_TEXT else FALSE_TEXT
    case Number(n) => PrintNumber(n)
    case String(t) => Quote(t)
    case Array(items) => [OPEN_BRACKET] + Join(RenderItems(items)) + [CLOSE_BRACKET]
    case Record(entries) => [OPEN_BRACE] + Join(RenderEntries(entries)) + [CLOSE_BRACE]
  }

  function RenderItems(items: seq<Json>): (r: seq<Text>)
    ensures |r| == |items|
    decreases items, 0
  {
    if items == [] then [] else [Render(items[0])] + RenderItems(items[1..])
  }

  function RenderEntries(entries: seq<Entry>): (r: seq<Text>)
    ensures |r| == |entries|
    decreases entries, 0
  {
    if entries == [] then []
    else [Quote(entries[0].key) + [COLON] + Render(entries[0].value)] + RenderEntries(entries[1..])
  }

  // ---------------------------------------------------------------- printing is rendering the canonical value

  lemma InsertCommutes(less: KeyOrder, e: Entry, s: seq<Entry>)
    requires !e.value.Undefined? && forall x :: x in s ==> !x.value.Undefined?
    ensures CanonicalEntries(less, Insert(less, e, s))
            == Insert(less, Entry(e.key, Canonical(less, e.value)), CanonicalEntries(less, s))
  {
    if s == [] || !less(s[0].key, e.key) {
      assert ([e] + s)[1..] == s;
    } else {
      InsertCommutes(less, e, s[1..]);
      var rest := Insert(less, e, s[1..]);
      assert ([s[0]] + rest)[1..] == rest;
      var head := Entry(s[0].key, Canonical(less, s[0].value));
      assert CanonicalEntries(less, s) == [head] + CanonicalEntries(less, s[1..]);
      assert ([head] + CanonicalEntries(less, s[1..]))[1..] == CanonicalEntries(less, s[1..]);
    }
  }

  lemma SortCommutes(less: KeyOrder, s: seq<Entry>)
    ensures CanonicalEntries(less, Sorted(less, Defined(s))) == Sorted(less, CanonicalEntries(less, s))
  {
    if s != [] {
      SortCommutes(less, s[1..]);
      if !s[0].value.Undefined? {
        DefinedMembers(s[1..]);
        SortedMembers(less, Defined(s[1..]));
        InsertCommutes(less, s[0], Sorted(less, Defined(s[1..])));
        var head := Entry(s[0].key, Canonical(less, s[0].value));
        assert ([s[0]] + Defined(s[1..]))[1..] == Defined(s[1..]);
        assert ([head] + CanonicalEntries(less, s[1..]))[1..] == CanonicalEntries(less, s[1..]);
      }
    }
  }

  lemma {:induction false} PrintIsRender(less: KeyOrder, v: Json)
    ensures Print(less, v) == if Printable(v) then Some(Render(Canonical(less, v))) else None
    decreases v, 1, 0
  {
    match v
    case Array(items) => PrintItemsIsRender(less, v, items);
    case Record(entries) =>
      DefinedMembers(entries);
      SortedMembers(less, Defined(entries));
      PrintEntriesIsRender(less, v, Sorted(less, Defined(entries)));
      SortCommutes(less, entries);
      DefinedPrintable(less, entries);
    case _ =>
  }

  ghost predicate AllPrintable(entries: seq<Entry>) {
    forall e :: e in entries ==> Printable(e.value)
  }

  lemma DefinedPrintable(less: KeyOrder, entries: seq<Entry>)
    ensures AllPrintable(Sorted(less, Defined(entries))) <==> Printable(Record(entries))
  {
    DefinedMembers(entries);
    SortedMembers(less, Defined(entries));
    if AllPrintable(Sorted(less, Defined(entries))) {
      forall i | 0 <= i < |entries| ensures entries[i].value.Undefined? || Printable(entries[i].value) {
        assert entries[i] in entries;
      }
    } else {
      var e :| e in Sorted(less, Defined(entries)) && !Printable(e.value);
      var i :| 0 <= i < |entries| && entries[i] == e;
    }
  }

  lemma {:induction false} PrintItemsIsRender(less: KeyOrder, whole: Json, items: seq<Json>)
    requires forall i :: 0 <= i < |items| ==> items[i] < whole
    ensures PrintItems(less, whole, items)
            == if Printable(Array(items)) then Some(RenderItems(CanonicalItems(less, items))) else None
    decreases whole, 0, |items|
  {
    if items != [] {
      PrintIsRender(less, items[0]);
      PrintItemsIsRender(less, whole, items[1..]);
      assert CanonicalItems(less, items)[1..] == CanonicalItems(less, items[1..]);
      assert Printable(Array(items)) <==> Printable(items[0]) && Printable(Array(items[1..])) by {
        assert items == [items[0]] + items[1..];
      }
    }
  }

  lemma {:induction false} PrintEntriesIsRender(less: KeyOrder, whole: Json, entries: seq<Entry>)
    requires forall e :: e in entries ==> e.value < whole && !e.value.Undefined?
    ensures PrintEntries(less, whole, entries)
            == if AllPrintable(entries) then Some(RenderEntries(CanonicalEntries(less, entries))) else None
    decreases whole, 0, |entries|
  {
    if entries != [] {
      assert entries == [entries[0]] + entries[1..];
      PrintIsRender(less, entries[0].value);
      PrintEntriesIsRender(less, whole, entries[1..]);
      assert CanonicalEntries(less, entries)[1..] == CanonicalEntries(less, entries[1..]);
    }
  }
}
