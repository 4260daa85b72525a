/**
 Which arguments the schema of a file source accepts, when its plain keywords are read as JSON Schema defines
 them. The length of a text in characters, patterns and formats are parameters.
 */
module FileSourceRecord {
  import opened JsonValues
  import opened FileSourceSchemas

  datatype Texts = Texts(length: Text -> nat, pattern: (Text, Text) -> bool, format: (Text, Text) -> bool)

  const TYPE := Ascii("type")
  const REQUIRED := Ascii("required")
  const MINIMUM := Ascii("minLength")
  const MAXIMUM := Ascii("maxLength")
  const PATTERN := Ascii("pattern")
  const FORMAT := Ascii("format")

  const MIMETYPE := Ascii("mimetype")
  const NAME := Ascii("name")
  const SOURCE_URL := Ascii("source_url")

  // ---------------------------------------------------------------- the plain keywords

  function Keyword(entries: seq<Entry>, key: Text): Json {
    if Has(entries, key) then Get(entries, key) else Undefined
  }

  predicate TypeHolds(entries: seq<Entry>, arg: Json) {
    && (Keyword(entries, TYPE) == String(Ascii("string")) ==> arg.String?)
    && (Keyword(entries, TYPE) == String(Ascii("object")) ==> arg.Record?)
  }

  predicate RequiredHolds(entries: seq<Entry>, arg: Json) {
    var names := Keyword(entries, REQUIRED);
    names.Array? && arg.Record? ==>
      forall i :: 0 <= i < |names.items| && names.items[i].String? ==> Has(arg.entries, names.items[i].text)
  }

  predicate TextHolds(texts: Texts, entries: seq<Entry>, arg: Json) {
    arg.String? ==>
      && (Keyword(entries, MINIMUM).Number? ==> Keyword(entries, MINIMUM).number <= texts.length(arg.text))
      && (Keyword(entries, MAXIMUM).Number? ==> texts.length(arg.text) <= Keyword(entries, MAXIMUM).number)
      && (Keyword(entries, PATTERN).String? ==> texts.pattern(Keyword(entries, PATTERN).text, arg.text))
      && (Keyword(entries, FORMAT).String? ==> texts.format(Keyword(entries, FORMAT).text, arg.text))
  }

  /** The keywords as sections 6.1.1, 6.3, 6.5.3 and 7 of JSON Schema Validation (2020-12) read them. */
  ghost function Standard(texts: Texts): Leaf {
    (entries, arg) => TypeHolds(entries, arg) && RequiredHolds(entries, arg) && TextHolds(texts, entries, arg)
  }

  // ---------------------------------------------------------------- the argument

  predicate IsMediaType(texts: Texts, v: Json) {
    && v.String? && 3 <= texts.length(v.text) <= 255
    && texts.pattern(Ascii("^[a-zA-Z0-9][a-zA-Z0-9!#$&^_.+-]*/[a-zA-Z0-9][a-zA-Z0-9!#$&^_.+-]*$"), v.text)
  }

  predicate IsFileName(texts: Texts, v: Json) {
    && v.String? && 1 <= texts.length(v.text) <= 255
    && texts.pattern(Ascii("^[^\\\\/\\u0000-\\u001f\\u007f]+$"), v.text)
  }

  predicate IsUrl(texts: Texts, v: Json) {
    v.String? && texts.length(v.text) <= 8192 && texts.format(Ascii("uri"), v.text)
  }

  predicate IsSourceMember(texts: Texts, member: Entry) {
    || (member.key == Ascii("mimetype") && IsMediaType(texts, member.value))
    || (member.key == Ascii("name") && IsFileName(texts, member.value))
    || (member.key == Ascii("source_url") && IsUrl(texts, member.value))
  }

  /** A record of a media type, a file name and a URL, all three and nothing else. */
  predicate IsFileSource(texts: Texts, arg: Json) {
    && arg.Record?
    && Has(arg.entries, Ascii("mimetype")) && Has(arg.entries, Ascii("name")) && Has(arg.entries, Ascii("source_url"))
    && forall j :: 0 <= j < |arg.entries| ==> IsSourceMember(texts, arg.entries[j])
  }

  // ---------------------------------------------------------------- what the schema comes to

  lemma NamesDiffer()
    ensures |MIMETYPE| == 8 && |NAME| == 4 && |SOURCE_URL| == 10
    ensures |TYPE| == 4 && |REQUIRED| == 8 && |MINIMUM| == 9 && |MAXIMUM| == 9 && |PATTERN| == 7 && |FORMAT| == 6
    ensures MINIMUM != MAXIMUM && Ascii("string") != Ascii("object")
    ensures |PROPERTIES| == 10 && |DESCRIPTION| == 11 && |FILE_UPLOADABLE| == 15 && |ADDITIONAL_PROPERTIES| == 20
    ensures |ITEMS| == |ANY_OF| == |ALL_OF| == 5 && |NOT| == 3
  {
    assert MINIMUM[1] == 0x69 && MAXIMUM[1] == 0x61;
    assert Ascii("string")[0] == 0x73 && Ascii("object")[0] == 0x6F;
  }

  lemma {:induction false} OthersAreAll(entries: seq<Entry>)
    requires forall i :: 0 <= i < |entries| ==> !IsApplicator(entries[i].key)
    ensures Others(entries) == entries
    decreases |entries|
  {
    if entries != [] { OthersAreAll(entries[1..]); }
  }

  /** A schema of plain keywords accepts what they accept. */
  lemma PlainKeywordsDecide(leaf: Leaf, entries: seq<Entry>, arg: Json)
    requires forall i :: 0 <= i < |entries| ==> !IsApplicator(entries[i].key)
    ensures Accepts(Plain(leaf), Record(entries), arg) <==> leaf(entries, arg)
  {
    OthersAreAll(entries);
    forall key | IsApplicator(key) ensures !Has(entries, key) {
    }
    assert !Plain(leaf).source(arg);
    assert AcceptsMembers(Plain(leaf), entries, arg);
    assert AcceptsKeywords(Plain(leaf), entries, arg) <==> leaf(entries, arg);
  }

  lemma KeywordAt(entries: seq<Entry>, i: nat)
    requires i < |entries| && forall j :: 0 <= j < i ==> entries[j].key != entries[i].key
    ensures Has(entries, entries[i].key) && Get(entries, entries[i].key) == entries[i].value
    ensures Keyword(entries, entries[i].key) == entries[i].value
  {
  }

  lemma KeywordAbsent(entries: seq<Entry>, key: Text)
    requires forall j :: 0 <= j < |entries| ==> entries[j].key != key
    ensures !Has(entries, key) && Keyword(entries, key) == Undefined
  {
  }

  function MediaTypeSchema(): seq<Entry> { STAGED_FILE_SOURCE.entries[2].value.entries[0].value.entries }

  function FileNameSchema(): seq<Entry> { STAGED_FILE_SOURCE.entries[2].value.entries[1].value.entries }

  function UrlSchema(): seq<Entry> { STAGED_FILE_SOURCE.entries[2].value.entries[2].value.entries }

  lemma MediaTypeRead()
    ensures
      var e := MediaTypeSchema();
      && |e| == 5 && e[0].key == DESCRIPTION
      && e[1] == Entry(MAXIMUM, Number(255)) && e[2] == Entry(MINIMUM, Number(3))
      && e[3].key == PATTERN
      && e[3].value == String(Ascii("^[a-zA-Z0-9][a-zA-Z0-9!#$&^_.+-]*/[a-zA-Z0-9][a-zA-Z0-9!#$&^_.+-]*$"))
      && e[4] == Entry(TYPE, String(Ascii("string")))
  {
    hide Ascii;
  }

  /** A schema for texts, by the values of its keywords. */
  lemma TextKeywords(texts: Texts, entries: seq<Entry>, v: Json)
    requires forall i :: 0 <= i < |entries| ==> !IsApplicator(entries[i].key)
    requires Keyword(entries, TYPE) == String(Ascii("string")) && Keyword(entries, REQUIRED) == Undefined
    ensures Accepts(Plain(Standard(texts)), Record(entries), v) <==> v.String? && TextHolds(texts, entries, v)
  {
    NamesDiffer();
    hide Ascii, TextHolds;
    PlainKeywordsDecide(Standard(texts), entries, v);
    hide Accepts, Keyword;
  }

  lemma FileNameRead()
    ensures
      var e := FileNameSchema();
      && |e| == 5 && e[0].key == DESCRIPTION
      && e[1] == Entry(MAXIMUM, Number(255)) && e[2] == Entry(MINIMUM, Number(1))
      && e[3].key == PATTERN && e[3].value == String(Ascii("^[^\\\\/\\u0000-\\u001f\\u007f]+$"))
      && e[4] == Entry(TYPE, String(Ascii("string")))
  {
    hide Ascii;
  }

  lemma UrlRead()
    ensures
      var e := UrlSchema();
      && |e| == 4 && e[0].key == DESCRIPTION
      && e[1] == Entry(FORMAT, String(Ascii("uri"))) && e[2] == Entry(MAXIMUM, Number(8192))
      && e[3] == Entry(TYPE, String(Ascii("string")))
  {
    hide Ascii;
  }

  /** Reading the keywords of an entry list in the order maximum, minimum, pattern, type. */
  lemma PatternedKeywords(texts: Texts, e: seq<Entry>, maximum: int, minimum: int, pattern: Text, v: Json)
    requires |e| == 5 && e[0].key == DESCRIPTION
    requires e[1] == Entry(MAXIMUM, Number(maximum)) && e[2] == Entry(MINIMUM, Number(minimum))
    requires e[3] == Entry(PATTERN, String(pattern)) && e[4] == Entry(TYPE, String(Ascii("string")))
    ensures Accepts(Plain(Standard(texts)), Record(e), v) <==>
              v.String? && minimum <= texts.length(v.text) <= maximum && texts.pattern(pattern, v.text)
  {
    NamesDiffer();
    hide Ascii;
    KeywordAt(e, 1);
    KeywordAt(e, 2);
    KeywordAt(e, 3);
    KeywordAt(e, 4);
    KeywordAbsent(e, REQUIRED);
    KeywordAbsent(e, FORMAT);
    hide Has, Keyword;
    TextKeywords(texts, e, v);
  }

  lemma UrlKeywords(texts: Texts, e: seq<Entry>, v: Json)
    requires |e| == 4 && e[0].key == DESCRIPTION
    requires e[1] == Entry(FORMAT, String(Ascii("uri"))) && e[2] == Entry(MAXIMUM, Number(8192))
    requires e[3] == Entry(TYPE, String(Ascii("string")))
    ensures Accepts(Plain(Standard(texts)), Record(e), v) <==> IsUrl(texts, v)
  {
    NamesDiffer();
    hide Ascii;
    KeywordAt(e, 1);
    KeywordAt(e, 2);
    KeywordAt(e, 3);
    KeywordAbsent(e, REQUIRED);
    KeywordAbsent(e, PATTERN);
    KeywordAbsent(e, MINIMUM);
    hide Has, Keyword;
    TextKeywords(texts, e, v);
  }

  lemma PropertySchemas(texts: Texts, v: Json)
    ensures Accepts(Plain(Standard(texts)), Record(MediaTypeSchema()), v) <==> IsMediaType(texts, v)
    ensures Accepts(Plain(Standard(texts)), Record(FileNameSchema()), v) <==> IsFileName(texts, v)
    ensures Accepts(Plain(Standard(texts)), Record(UrlSchema()), v) <==> IsUrl(texts, v)
  {
    MediaTypeRead();
    FileNameRead();
    UrlRead();
    hide Ascii, Accepts, MediaTypeSchema, FileNameSchema, UrlSchema;
    PatternedKeywords(texts, MediaTypeSchema(), 255, 3,
                      Ascii("^[a-zA-Z0-9][a-zA-Z0-9!#$&^_.+-]*/[a-zA-Z0-9][a-zA-Z0-9!#$&^_.+-]*$"), v);
    PatternedKeywords(texts, FileNameSchema(), 255, 1, Ascii("^[^\\\\/\\u0000-\\u001f\\u007f]+$"), v);
    UrlKeywords(texts, UrlSchema(), v);
  }

  function SourceProperties(): seq<Entry> {
    [Entry(MIMETYPE, Record(MediaTypeSchema())), Entry(NAME, Record(FileNameSchema())), Entry(SOURCE_URL, Record(UrlSchema()))]
  }

  lemma SourceSchemaRead()
    ensures STAGED_FILE_SOURCE.Record?
    ensures
      var e := STAGED_FILE_SOURCE.entries;
      && |e| == 5
      && e[0] == Entry(ADDITIONAL_PROPERTIES, Boolean(false)) && e[1].key == DESCRIPTION
      && e[2] == Entry(PROPERTIES, Record(SourceProperties()))
      && e[3] == Entry(REQUIRED, Array([String(MIMETYPE), String(NAME), String(SOURCE_URL)]))
      && e[4] == Entry(TYPE, String(Ascii("object")))
  {
    hide Ascii;
    assert STAGED_FILE_SOURCE.entries[2].value.entries == SourceProperties();
  }

  /** The properties of the schema, by the key of a member. */
  lemma PropertyAt(texts: Texts, member: Entry)
    ensures
      var p := SourceProperties();
      if Has(p, member.key) then Accepts(Plain(Standard(texts)), Get(p, member.key), member.value) <==> IsSourceMember(texts, member)
      else !IsSourceMember(texts, member)
  {
    NamesDiffer();
    PropertySchemas(texts, member.value);
    hide Ascii, Accepts, MediaTypeSchema, FileNameSchema, UrlSchema, IsMediaType, IsFileName, IsUrl, Standard;
    var p := SourceProperties();
    KeywordAt(p, 0);
    KeywordAt(p, 1);
    KeywordAt(p, 2);
    if member.key != MIMETYPE && member.key != NAME && member.key != SOURCE_URL { KeywordAbsent(p, member.key); }
  }

  /** The keywords of the schema that hold schemas, and those that do not. */
  ghost predicate SourceKeywords(e: seq<Entry>) {
    && HasProperties(e) && Properties(e) == SourceProperties()
    && Has(e, ADDITIONAL_PROPERTIES) && Get(e, ADDITIONAL_PROPERTIES) == Boolean(false)
    && !Has(e, ITEMS) && !Has(e, ANY_OF) && !Has(e, ALL_OF) && !Has(e, NOT)
    && |Others(e)| == 3 && Others(e)[0].key == DESCRIPTION
    && Others(e)[1] == Entry(REQUIRED, Array([String(MIMETYPE), String(NAME), String(SOURCE_URL)]))
    && Others(e)[2] == Entry(TYPE, String(Ascii("object")))
  }

  lemma OthersOfFive(e: seq<Entry>)
    requires |e| == 5 && IsApplicator(e[0].key) && IsApplicator(e[2].key)
    requires !IsApplicator(e[1].key) && !IsApplicator(e[3].key) && !IsApplicator(e[4].key)
    ensures Others(e) == [e[1], e[3], e[4]]
  {
    hide IsApplicator;
    assert e[1..][1..] == e[2..] && e[2..][1..] == e[3..] && e[3..][1..] == e[4..] && e[4..][1..] == [];
    assert Others(e[4..]) == [e[4]];
    assert Others(e[3..]) == [e[3], e[4]];
    assert Others(e[2..]) == [e[3], e[4]];
    assert Others(e[1..]) == [e[1], e[3], e[4]];
  }

  lemma SourceKeywordsRead()
    ensures SourceKeywords(STAGED_FILE_SOURCE.entries)
  {
    NamesDiffer();
    SourceSchemaRead();
    var e := STAGED_FILE_SOURCE.entries;
    hide Ascii, SourceProperties;
    KeywordAt(e, 0);
    KeywordAt(e, 2);
    KeywordAbsent(e, ITEMS);
    KeywordAbsent(e, ANY_OF);
    KeywordAbsent(e, ALL_OF);
    KeywordAbsent(e, NOT);
    OthersOfFive(e);
  }

  lemma OuterKeywords(texts: Texts, others: seq<Entry>, arg: Json)
    requires |others| == 3 && others[0].key == DESCRIPTION
    requires others[1] == Entry(REQUIRED, Array([String(MIMETYPE), String(NAME), String(SOURCE_URL)]))
    requires others[2] == Entry(TYPE, String(Ascii("object")))
    ensures Standard(texts)(others, arg) <==>
              arg.Record? && Has(arg.entries, MIMETYPE) && Has(arg.entries, NAME) && Has(arg.entries, SOURCE_URL)
  {
    NamesDiffer();
    hide Ascii;
    KeywordAt(others, 1);
    KeywordAt(others, 2);
    hide Has, Keyword;
    var names := [String(MIMETYPE), String(NAME), String(SOURCE_URL)];
    assert names[0].text == MIMETYPE && names[1].text == NAME && names[2].text == SOURCE_URL;
  }

  lemma MemberDecides(texts: Texts, e: seq<Entry>, member: Entry)
    requires SourceKeywords(e)
    ensures AcceptsMember(Plain(Standard(texts)), e, member) <==> IsSourceMember(texts, member)
  {
    PropertyAt(texts, member);
    hide SourceProperties, IsSourceMember, Standard, IsApplicator, Others, Ascii;
    var m := Plain(Standard(texts));
    assert !Accepts(m, Boolean(false), member.value);
    assert !AcceptsExtra(m, e, member);
  }

  lemma MembersDecide(texts: Texts, e: seq<Entry>, arg: Json)
    requires SourceKeywords(e) && arg.Record?
    ensures AcceptsMembers(Plain(Standard(texts)), e, arg) <==>
              forall j :: 0 <= j < |arg.entries| ==> IsSourceMember(texts, arg.entries[j])
  {
    hide IsSourceMember, Standard, SourceKeywords, AcceptsMember;
    forall j | 0 <= j < |arg.entries|
      ensures AcceptsMember(Plain(Standard(texts)), e, arg.entries[j]) <==> IsSourceMember(texts, arg.entries[j])
    {
      MemberDecides(texts, e, arg.entries[j]);
    }
  }

  /** Exactly the records of a media type, a file name and a URL are file sources. */
  lemma FileSourcesExactly(texts: Texts, arg: Json)
    ensures Accepts(Plain(Standard(texts)), STAGED_FILE_SOURCE, arg) <==> IsFileSource(texts, arg)
  {
    var e := STAGED_FILE_SOURCE.entries;
    SourceKeywordsRead();
    OuterKeywords(texts, Others(e), arg);
    if arg.Record? { MembersDecide(texts, e, arg); }
    hide Ascii, SourceProperties, IsSourceMember, Standard, Others, AcceptsMembers;
    assert Accepts(Plain(Standard(texts)), STAGED_FILE_SOURCE, arg) <==> AcceptsKeywords(Plain(Standard(texts)), e, arg);
  }
}
