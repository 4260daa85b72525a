/**
 Exposing file sources in a tool's JSON schema, and what the exposed schema means.

 The meaning of the keywords that hold no schema (types, bounds, `required`, `enum`, ...) is a parameter
 `leaf` that sees those keywords and the argument; the keywords that hold schemas are spelled out.
 */
module FileSourceSchemas {
  import opened JsonValues

  type Leaf = (seq<Entry>, Json) -> bool
  type Source = Json -> bool

  const PROPERTIES := Ascii("properties")
  const ADDITIONAL_PROPERTIES := Ascii("additionalProperties")
  const ITEMS := Ascii("items")
  const ANY_OF := Ascii("anyOf")
  const ALL_OF := Ascii("allOf")
  const NOT := Ascii("not")
  const DESCRIPTION := Ascii("description")
  const FILE_UPLOADABLE := Ascii("file_uploadable")

  const STAGED_FILE_SOURCE := Record([
    Entry(ADDITIONAL_PROPERTIES, Boolean(false)),
    Entry(DESCRIPTION, String(Ascii("A public HTTPS file for Crewhelm to stage privately before this action. Redirects, credentials, private hosts, and files over 20 MiB are rejected."))),
    Entry(PROPERTIES, Record([
      Entry(Ascii("mimetype"), Record([
        Entry(DESCRIPTION, String(Ascii("Exact expected media type, such as application/pdf."))),
        Entry(Ascii("maxLength"), Number(255)),
        Entry(Ascii("minLength"), Number(3)),
        Entry(Ascii("pattern"), String(Ascii("^[a-zA-Z0-9][a-zA-Z0-9!#$&^_.+-]*/[a-zA-Z0-9][a-zA-Z0-9!#$&^_.+-]*$"))),
        Entry(Ascii("type"), String(Ascii("string")))])),
      Entry(Ascii("name"), Record([
        Entry(DESCRIPTION, String(Ascii("Safe attachment filename without path separators."))),
        Entry(Ascii("maxLength"), Number(255)),
        Entry(Ascii("minLength"), Number(1)),
        Entry(Ascii("pattern"), String(Ascii("^[^\\\\/\\u0000-\\u001f\\u007f]+$"))),
        Entry(Ascii("type"), String(Ascii("string")))])),
      Entry(Ascii("source_url"), Record([
        Entry(DESCRIPTION, String(Ascii("Public HTTPS URL Crewhelm should download and stage."))),
        Entry(Ascii("format"), String(Ascii("uri"))),
        Entry(Ascii("maxLength"), Number(8192)),
        Entry(Ascii("type"), String(Ascii("string")))]))])),
    Entry(Ascii("required"), Array([String(Ascii("mimetype")), String(Ascii("name")), String(Ascii("source_url"))])),
    Entry(Ascii("type"), String(Ascii("object")))])

  const NOTE := Ascii(" You may also provide a Crewhelm public HTTPS file source.")
  const DEFAULT_NOTE := Ascii("Provide the provider file reference or a Crewhelm public HTTPS file source.")

  predicate IsApplicator(key: Text) {
    key == PROPERTIES || key == ADDITIONAL_PROPERTIES || key == ITEMS || key == ANY_OF || key == ALL_OF || key == NOT
  }

  lemma KeywordsDiffer()
    ensures |ITEMS| == |ANY_OF| == |ALL_OF| == 5 && |NOT| == 3
    ensures |PROPERTIES| == 10 && |DESCRIPTION| == 11 && |FILE_UPLOADABLE| == 15 && |ADDITIONAL_PROPERTIES| == 20
    ensures ANY_OF != ITEMS && ANY_OF != ALL_OF && ITEMS != ALL_OF
  {
    assert ANY_OF[1] != ALL_OF[1] && ANY_OF[0] != ITEMS[0] && ALL_OF[0] != ITEMS[0];
  }

  // ---------------------------------------------------------------- reading a schema record

  /** The keywords that hold no schema. */
  function Others(entries: seq<Entry>): seq<Entry> {
    if entries == [] then []
    else (if IsApplicator(entries[0].key) then [] else [entries[0]]) + Others(entries[1..])
  }

  predicate Marked(entries: seq<Entry>) {
    Has(entries, FILE_UPLOADABLE) && Get(entries, FILE_UPLOADABLE) == Boolean(true)
  }

  // ---------------------------------------------------------------- the transformation

  function ExposedDescription(entries: seq<Entry>): Text {
    if Has(entries, DESCRIPTION) && Get(entries, DESCRIPTION).String?
    then Get(entries, DESCRIPTION).text + NOTE
    else DEFAULT_NOTE
  }

  function Expose(v: Json): Json {
    match v
    case Array(items) => Array(seq(|items|, i requires 0 <= i < |items| => Expose(items[i])))
    case Record(entries) =>
      var transformed := seq(|entries|, i requires 0 <= i < |entries| => Entry(entries[i].key, Expose(entries[i].value)));
      if Marked(entries)
      then Record([
        Entry(ANY_OF, Array([Record(transformed), STAGED_FILE_SOURCE])),
        Entry(DESCRIPTION, String(ExposedDescription(entries)))])
      else Record(transformed)
    case _ => v
  }

  /** The entries of a record with every value exposed. */
  function Transformed(entries: seq<Entry>): (r: seq<Entry>)
    ensures |r| == |entries|
    ensures forall i :: 0 <= i < |r| ==> r[i] == Entry(entries[i].key, Expose(entries[i].value))
  {
    seq(|entries|, i requires 0 <= i < |entries| => Entry(entries[i].key, Expose(entries[i].value)))
  }

  lemma {:induction false} TransformedFind(entries: seq<Entry>, key: Text)
    ensures Find(Transformed(entries), key) == Find(entries, key)
    decreases |entries|
  {
    if entries != [] && entries[0].key != key {
      assert Transformed(entries)[1..] == Transformed(entries[1..]);
      TransformedFind(entries[1..], key);
    }
  }

  lemma TransformedGet(entries: seq<Entry>, key: Text)
    ensures Has(Transformed(entries), key) == Has(entries, key)
    ensures Has(entries, key) ==> Get(Transformed(entries), key) == Expose(Get(entries, key))
  {
    TransformedFind(entries, key);
  }

  lemma {:induction false} OthersCommute(entries: seq<Entry>)
    ensures Others(Transformed(entries)) == Transformed(Others(entries))
    decreases |entries|
  {
    if entries != [] {
      assert Transformed(entries)[1..] == Transformed(entries[1..]);
      OthersCommute(entries[1..]);
      if !IsApplicator(entries[0].key) {
        assert Others(entries) == [entries[0]] + Others(entries[1..]);
      }
    }
  }

  // ---------------------------------------------------------------- acceptance

  /**
   How a schema is read: what its plain keywords mean, which arguments an uploadable schema accepts besides,
   and whether a mark on a record of properties replaces them by `anyOf` and `description`, which accept
   everything.
   */
  datatype Reading = Reading(leaf: Leaf, source: Source, rewrites: bool)

  ghost predicate Accepts(m: Reading, schema: Json, arg: Json)
    decreases schema, 4
  {
    match schema
    case Boolean(flag) => flag
    case Record(entries) => (Marked(entries) && m.source(arg)) || AcceptsKeywords(m, entries, arg)
    case _ => true
  }

  ghost predicate AcceptsKeywords(m: Reading, entries: seq<Entry>, arg: Json)
    decreases entries, 3
  {
    && m.leaf(Others(entries), arg)
    && AcceptsMembers(m, entries, arg)
    && AcceptsItems(m, entries, arg)
    && AcceptsAny(m, entries, arg)
    && AcceptsAll(m, entries, arg)
    && (Has(entries, NOT) ==> !Accepts(m, Get(entries, NOT), arg))
  }

  predicate HasProperties(entries: seq<Entry>) {
    Has(entries, PROPERTIES) && Get(entries, PROPERTIES).Record?
  }

  function Properties(entries: seq<Entry>): seq<Entry>
    requires HasProperties(entries)
  {
    Get(entries, PROPERTIES).entries
  }

  ghost predicate AcceptsExtra(m: Reading, entries: seq<Entry>, member: Entry)
    decreases entries, 0
  {
    Has(entries, ADDITIONAL_PROPERTIES) ==> Accepts(m, Get(entries, ADDITIONAL_PROPERTIES), member.value)
  }

  ghost predicate AcceptsMember(m: Reading, entries: seq<Entry>, member: Entry)
    decreases entries, 1
  {
    if HasProperties(entries) && m.rewrites && Marked(Properties(entries))
    then member.key == ANY_OF || member.key == DESCRIPTION || AcceptsExtra(m, entries, member)
    else if HasProperties(entries) && Has(Properties(entries), member.key)
    then Accepts(m, Get(Properties(entries), member.key), member.value)
    else AcceptsExtra(m, entries, member)
  }

  ghost predicate AcceptsMembers(m: Reading, entries: seq<Entry>, arg: Json)
    decreases entries, 2
  {
    arg.Record? ==> forall j :: 0 <= j < |arg.entries| ==> AcceptsMember(m, entries, arg.entries[j])
  }

  ghost predicate AcceptsItems(m: Reading, entries: seq<Entry>, arg: Json)
    decreases entries, 0
  {
    Has(entries, ITEMS) && arg.Array? ==>
      forall i :: 0 <= i < |arg.items| ==> Accepts(m, Get(entries, ITEMS), arg.items[i])
  }

  ghost predicate AcceptsAny(m: Reading, entries: seq<Entry>, arg: Json)
    decreases entries, 0
  {
    Has(entries, ANY_OF) && Get(entries, ANY_OF).Array? ==>
      exists i :: 0 <= i < |Get(entries, ANY_OF).items| && Accepts(m, Get(entries, ANY_OF).items[i], arg)
  }

  ghost predicate AcceptsAll(m: Reading, entries: seq<Entry>, arg: Json)
    decreases entries, 0
  {
    Has(entries, ALL_OF) && Get(entries, ALL_OF).Array? ==>
      forall i :: 0 <= i < |Get(entries, ALL_OF).items| ==> Accepts(m, Get(entries, ALL_OF).items[i], arg)
  }

  function Nothing(): Source { _ => false }

  /** JSON Schema as it is. */
  function Plain(leaf: Leaf): Reading { Reading(leaf, Nothing(), false) }

  ghost function Staged(leaf: Leaf): Source {
    arg => Accepts(Plain(leaf), STAGED_FILE_SOURCE, arg)
  }

  /** Uploadable schemas accept file sources too, and plain keywords are read after their own exposure. */
  ghost function Exposed(leaf: Leaf): Reading {
    Reading((entries, arg) => leaf(Transformed(entries), arg), Staged(leaf), true)
  }

  /** A description restricts nothing. */
  ghost predicate Annotates(leaf: Leaf) {
    forall text, arg :: leaf([Entry(DESCRIPTION, String(text))], arg)
  }

  // ---------------------------------------------------------------- what exposure means

  ghost predicate SameMeaning(leaf: Leaf, schema: Json) {
    forall arg :: Accepts(Plain(leaf), Expose(schema), arg) <==> Accepts(Exposed(leaf), schema, arg)
  }

  /** Every schema directly under the keywords keeps its meaning. */
  ghost predicate PartsKeepMeaning(leaf: Leaf, entries: seq<Entry>) {
    && (HasProperties(entries) ==>
          forall key :: Has(Properties(entries), key) ==> SameMeaning(leaf, Get(Properties(entries), key)))
    && (Has(entries, ADDITIONAL_PROPERTIES) ==> SameMeaning(leaf, Get(entries, ADDITIONAL_PROPERTIES)))
    && (Has(entries, ITEMS) ==> SameMeaning(leaf, Get(entries, ITEMS)))
    && (Has(entries, NOT) ==> SameMeaning(leaf, Get(entries, NOT)))
    && (Has(entries, ANY_OF) ==> ListKeepsMeaning(leaf, Get(entries, ANY_OF)))
    && (Has(entries, ALL_OF) ==> ListKeepsMeaning(leaf, Get(entries, ALL_OF)))
  }

  ghost predicate ListKeepsMeaning(leaf: Leaf, v: Json) {
    v.Array? ==> forall i :: 0 <= i < |v.items| ==> SameMeaning(leaf, v.items[i])
  }

  /** What stands for an uploadable record once it is exposed. */
  function Wrapper(entries: seq<Entry>): seq<Entry> {
    [Entry(ANY_OF, Array([Record(Transformed(entries)), STAGED_FILE_SOURCE])),
     Entry(DESCRIPTION, String(ExposedDescription(entries)))]
  }

  lemma ExposedRecord(entries: seq<Entry>)
    ensures Expose(Record(entries)) == Record(if Marked(entries) then Wrapper(entries) else Transformed(entries))
  {
    assert Transformed(entries) ==
      seq(|entries|, i requires 0 <= i < |entries| => Entry(entries[i].key, Expose(entries[i].value)));
  }

  lemma WrapperFields(entries: seq<Entry>)
    ensures var w := Wrapper(entries);
      && Has(w, ANY_OF) && Get(w, ANY_OF) == Array([Record(Transformed(entries)), STAGED_FILE_SOURCE])
      && Has(w, DESCRIPTION) && Get(w, DESCRIPTION).String?
      && (forall key :: key != ANY_OF && key != DESCRIPTION ==> !Has(w, key))
      && Others(w) == [Entry(DESCRIPTION, String(ExposedDescription(entries)))]
      && !Marked(w)
  {
    KeywordsDiffer();
    var w := Wrapper(entries);
    assert w[1..] == [w[1]] && w[1..][1..] == [];
    assert Others(w[1..][1..]) == [];
    assert Others(w[1..]) == [w[1]];
  }

  /** An exposed schema keeps its description and says that a file source will do; the schema itself is the first choice. */
  lemma ExposureSaysSo(entries: seq<Entry>)
    requires Marked(entries)
    ensures
      var w := Expose(Record(entries)).entries;
      && Has(w, DESCRIPTION) && Get(w, DESCRIPTION).String?
      && Get(w, DESCRIPTION).text ==
           (if Has(entries, DESCRIPTION) && Get(entries, DESCRIPTION).String?
            then Get(entries, DESCRIPTION).text + Ascii(" You may also provide a Crewhelm public HTTPS file source.")
            else Ascii("Provide the provider file reference or a Crewhelm public HTTPS file source."))
      && Has(w, ANY_OF) && Get(w, ANY_OF).Array? && |Get(w, ANY_OF).items| == 2
      && Get(w, ANY_OF).items[1] == STAGED_FILE_SOURCE
      && |w| == 2
  {
    ExposedRecord(entries);
    hide Ascii, Transformed;
    WrapperFields(entries);
    assert Get(Wrapper(entries), DESCRIPTION) == String(ExposedDescription(entries)) by { WrapperDescription(entries); }
  }

  lemma WrapperDescription(entries: seq<Entry>)
    ensures Has(Wrapper(entries), DESCRIPTION) && Get(Wrapper(entries), DESCRIPTION) == String(ExposedDescription(entries))
  {
    KeywordsDiffer();
    hide Ascii, Transformed;
    assert Wrapper(entries)[1..][0] == Wrapper(entries)[1];
  }

  lemma PropertiesTransform(entries: seq<Entry>)
    ensures HasProperties(Transformed(entries)) == HasProperties(entries)
    ensures HasProperties(entries) ==>
      Properties(Transformed(entries))
      == if Marked(Properties(entries)) then Wrapper(Properties(entries)) else Transformed(Properties(entries))
  {
    TransformedGet(entries, PROPERTIES);
    if HasProperties(entries) {
      ExposedRecord(Properties(entries));
    } else if Has(entries, PROPERTIES) {
      assert !Expose(Get(entries, PROPERTIES)).Record?;
    }
  }

  lemma MemberKeepsMeaning(leaf: Leaf, entries: seq<Entry>, member: Entry)
    requires PartsKeepMeaning(leaf, entries)
    ensures AcceptsMember(Plain(leaf), Transformed(entries), member) <==> AcceptsMember(Exposed(leaf), entries, member)
  {
    ExtraKeepsMeaning(leaf, entries, member);
    PropertiesTransform(entries);
    hide AcceptsExtra, Wrapper, Transformed;
    if HasProperties(entries) {
      var p := Properties(entries);
      if Marked(p) {
        WrapperFields(p);
        KeywordsDiffer();
      } else {
        TransformedGet(p, member.key);
      }
    }
  }

  lemma ExtraKeepsMeaning(leaf: Leaf, entries: seq<Entry>, member: Entry)
    requires PartsKeepMeaning(leaf, entries)
    ensures AcceptsExtra(Plain(leaf), Transformed(entries), member) <==> AcceptsExtra(Exposed(leaf), entries, member)
  {
    TransformedGet(entries, ADDITIONAL_PROPERTIES);
  }

  lemma ListExposes(leaf: Leaf, v: Json)
    requires v.Array? && ListKeepsMeaning(leaf, v)
    ensures Expose(v).Array? && |Expose(v).items| == |v.items|
    ensures forall i, arg :: 0 <= i < |v.items| ==>
      (Accepts(Plain(leaf), Expose(v).items[i], arg) <==> Accepts(Exposed(leaf), v.items[i], arg))
  {
    forall i, arg | 0 <= i < |v.items|
      ensures Accepts(Plain(leaf), Expose(v).items[i], arg) <==> Accepts(Exposed(leaf), v.items[i], arg)
    {
      assert SameMeaning(leaf, v.items[i]);
    }
  }

  lemma AnyKeepsMeaning(leaf: Leaf, entries: seq<Entry>, arg: Json)
    requires PartsKeepMeaning(leaf, entries)
    ensures AcceptsAny(Plain(leaf), Transformed(entries), arg) <==> AcceptsAny(Exposed(leaf), entries, arg)
  {
    TransformedGet(entries, ANY_OF);
    if Has(entries, ANY_OF) {
      var v := Get(entries, ANY_OF);
      if v.Array? { ListExposes(leaf, v); } else { assert !Expose(v).Array?; }
    }
  }

  lemma AllKeepsMeaning(leaf: Leaf, entries: seq<Entry>, arg: Json)
    requires PartsKeepMeaning(leaf, entries)
    ensures AcceptsAll(Plain(leaf), Transformed(entries), arg) <==> AcceptsAll(Exposed(leaf), entries, arg)
  {
    TransformedGet(entries, ALL_OF);
    if Has(entries, ALL_OF) {
      var v := Get(entries, ALL_OF);
      if v.Array? { ListExposes(leaf, v); } else { assert !Expose(v).Array?; }
    }
  }

  lemma ItemsKeepMeaning(leaf: Leaf, entries: seq<Entry>, arg: Json)
    requires PartsKeepMeaning(leaf, entries)
    ensures AcceptsItems(Plain(leaf), Transformed(entries), arg) <==> AcceptsItems(Exposed(leaf), entries, arg)
  {
    TransformedGet(entries, ITEMS);
  }

  lemma MembersKeepMeaning(leaf: Leaf, entries: seq<Entry>, arg: Json)
    requires PartsKeepMeaning(leaf, entries)
    ensures AcceptsMembers(Plain(leaf), Transformed(entries), arg) <==> AcceptsMembers(Exposed(leaf), entries, arg)
  {
    if arg.Record? {
      forall j | 0 <= j < |arg.entries| { MemberKeepsMeaning(leaf, entries, arg.entries[j]); }
    }
  }

  lemma KeywordsKeepMeaning(leaf: Leaf, entries: seq<Entry>, arg: Json)
    requires PartsKeepMeaning(leaf, entries)
    ensures AcceptsKeywords(Plain(leaf), Transformed(entries), arg) <==> AcceptsKeywords(Exposed(leaf), entries, arg)
  {
    hide AcceptsMembers, AcceptsItems, AcceptsAny, AcceptsAll;
    OthersCommute(entries);
    MembersKeepMeaning(leaf, entries, arg);
    ItemsKeepMeaning(leaf, entries, arg);
    AnyKeepsMeaning(leaf, entries, arg);
    AllKeepsMeaning(leaf, entries, arg);
    TransformedGet(entries, NOT);
  }

  /** Keywords that are absent restrict nothing. */
  lemma OnlyAny(m: Reading, entries: seq<Entry>, arg: Json)
    requires forall key :: IsApplicator(key) && key != ANY_OF ==> !Has(entries, key)
    ensures AcceptsKeywords(m, entries, arg) <==> m.leaf(Others(entries), arg) && AcceptsAny(m, entries, arg)
  {
    KeywordsDiffer();
    assert !Has(entries, PROPERTIES) && !Has(entries, ADDITIONAL_PROPERTIES) && !Has(entries, ITEMS);
    assert !Has(entries, ALL_OF) && !Has(entries, NOT);
    assert AcceptsItems(m, entries, arg) && AcceptsAll(m, entries, arg);
    if arg.Record? {
      forall j | 0 <= j < |arg.entries| ensures AcceptsMember(m, entries, arg.entries[j]) {
        assert AcceptsExtra(m, entries, arg.entries[j]);
      }
    }
    assert AcceptsMembers(m, entries, arg);
  }

  lemma EitherAccepts(m: Reading, entries: seq<Entry>, x: Json, y: Json, arg: Json)
    requires Has(entries, ANY_OF) && Get(entries, ANY_OF) == Array([x, y])
    ensures AcceptsAny(m, entries, arg) <==> Accepts(m, x, arg) || Accepts(m, y, arg)
  {
    var either := Get(entries, ANY_OF);
    assert either.items[0] == x && either.items[1] == y;
  }

  /** The wrapper around an uploadable schema accepts what either alternative accepts. */
  lemma WrapperIsEither(leaf: Leaf, entries: seq<Entry>, arg: Json)
    requires Annotates(leaf)
    ensures Accepts(Plain(leaf), Record(Wrapper(entries)), arg)
       <==> Accepts(Plain(leaf), Record(Transformed(entries)), arg) || Staged(leaf)(arg)
  {
    KeywordsDiffer();
    WrapperFields(entries);
    var w, m := Wrapper(entries), Plain(leaf);
    hide Wrapper, Transformed, AcceptsAny, AcceptsKeywords;
    OnlyAny(m, w, arg);
    EitherAccepts(m, w, Record(Transformed(entries)), STAGED_FILE_SOURCE, arg);
    assert leaf([Entry(DESCRIPTION, String(ExposedDescription(entries)))], arg);
  }

  /**
   What exposure means, exactly and for every schema: the exposed schema accepts an argument when the original,
   read with file sources where they may be uploaded and with its plain keywords exposed, does, and only then.
   */
  lemma {:induction false} ExposureMeansStaging(leaf: Leaf, schema: Json, arg: Json)
    requires Annotates(leaf)
    ensures Accepts(Plain(leaf), Expose(schema), arg) <==> Accepts(Exposed(leaf), schema, arg)
    decreases schema, 3
  {
    if schema.Record? {
      var entries := schema.entries;
      PartsByInduction(leaf, entries);
      KeywordsKeepMeaning(leaf, entries, arg);
      ExposedRecord(entries);
      if Marked(entries) {
        WrapperIsEither(leaf, entries, arg);
      }
      TransformedGet(entries, FILE_UPLOADABLE);
    }
  }

  lemma {:induction false} PartsByInduction(leaf: Leaf, entries: seq<Entry>)
    requires Annotates(leaf)
    ensures PartsKeepMeaning(leaf, entries)
    decreases entries, 2
  {
    if HasProperties(entries) {
      forall key | Has(Properties(entries), key) ensures SameMeaning(leaf, Get(Properties(entries), key)) {
        forall arg { ExposureMeansStaging(leaf, Get(Properties(entries), key), arg); }
      }
    }
    forall key | Has(entries, key) ensures SameMeaning(leaf, Get(entries, key)) {
      forall arg { ExposureMeansStaging(leaf, Get(entries, key), arg); }
    }
    if Has(entries, ANY_OF) { ListByInduction(leaf, entries, ANY_OF); }
    if Has(entries, ALL_OF) { ListByInduction(leaf, entries, ALL_OF); }
  }

  lemma {:induction false} ListByInduction(leaf: Leaf, entries: seq<Entry>, key: Text)
    requires Annotates(leaf) && Has(entries, key)
    ensures ListKeepsMeaning(leaf, Get(entries, key))
    decreases entries, 1
  {
    var v := Get(entries, key);
    if v.Array? {
      forall i, arg | 0 <= i < |v.items| { ExposureMeansStaging(leaf, v.items[i], arg); }
    }
  }

  /** Where a file may be uploaded, a file source is accepted. */
  lemma UploadableAcceptsSources(leaf: Leaf, entries: seq<Entry>, arg: Json)
    requires Annotates(leaf) && Marked(entries)
    requires Accepts(Plain(leaf), STAGED_FILE_SOURCE, arg)
    ensures Accepts(Plain(leaf), Expose(Record(entries)), arg)
  {
    ExposureMeansStaging(leaf, Record(entries), arg);
  }
}
