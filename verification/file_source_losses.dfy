/**
 The three kinds of mark that make exposure lose arguments, each with an argument it loses.
 */
module FileSourceLosses {
  import opened JsonValues
  import opened FileSourceSchemas
  import opened FileSourceAcceptance

  /** A schema that accepts nothing, marked as uploadable. */
  const UPLOADABLE := [Entry(FILE_UPLOADABLE, Boolean(true)), Entry(NOT, Boolean(true))]

  lemma UploadableFields()
    ensures Marked(UPLOADABLE) && Has(UPLOADABLE, NOT) && Get(UPLOADABLE, NOT) == Boolean(true)
    ensures WellPlaced(Record(UPLOADABLE))
  {
    KeywordsDiffer();
    assert UPLOADABLE[1..] == [UPLOADABLE[1]];
    assert WellPlacedEntry(UPLOADABLE[0]) && WellPlacedEntry(UPLOADABLE[1]);
  }

  function Negated(schema: Json): seq<Entry> { [Entry(NOT, schema)] }

  lemma NegatedFields(schema: Json)
    ensures Has(Negated(schema), NOT) && Get(Negated(schema), NOT) == schema && !Marked(Negated(schema))
    ensures forall key :: key != NOT ==> !Has(Negated(schema), key)
    ensures Others(Negated(schema)) == []
  {
    KeywordsDiffer();
    assert Negated(schema)[1..] == [];
  }

  /** A negation refuses what the negated schema accepts. */
  lemma NegationRefuses(m: Reading, schema: Json, arg: Json)
    requires Accepts(m, schema, arg)
    ensures !Accepts(m, Record(Negated(schema)), arg)
  {
    NegatedFields(schema);
    assert !AcceptsKeywords(m, Negated(schema), arg);
  }

  lemma NegationAccepts(m: Reading, schema: Json, arg: Json)
    requires !Accepts(m, schema, arg) && m.leaf([], arg)
    ensures Accepts(m, Record(Negated(schema)), arg)
  {
    NegatedFields(schema);
    KeywordsDiffer();
    var entries := Negated(schema);
    hide Negated;
    if arg.Record? {
      forall j | 0 <= j < |arg.entries| ensures AcceptsMember(m, entries, arg.entries[j]) {
        assert AcceptsExtra(m, entries, arg.entries[j]);
      }
    }
    assert AcceptsMembers(m, entries, arg) && AcceptsItems(m, entries, arg);
    assert AcceptsAny(m, entries, arg) && AcceptsAll(m, entries, arg);
    assert AcceptsKeywords(m, entries, arg);
  }

  /** Under a negation, an argument accepted before exposure can be refused after it: any file source is. */
  lemma NegationLosesArguments(leaf: Leaf, arg: Json)
    returns (schema: Json)
    requires Annotates(leaf) && leaf([], arg)
    requires Accepts(Plain(leaf), STAGED_FILE_SOURCE, arg)
    ensures WellPlaced(schema)
    ensures Accepts(Plain(leaf), schema, arg) && !Accepts(Plain(leaf), Expose(schema), arg)
  {
    KeywordsDiffer();
    UploadableFields();
    schema := Record(Negated(Record(UPLOADABLE)));
    assert WellPlacedEntry(schema.entries[0]);
    assert Accepts(Plain(leaf), Boolean(true), arg);
    assert !AcceptsKeywords(Plain(leaf), UPLOADABLE, arg);
    hide Negated, AcceptsKeywords;
    NegationAccepts(Plain(leaf), Record(UPLOADABLE), arg);
    assert Accepts(Exposed(leaf), Record(UPLOADABLE), arg);
    NegationRefuses(Exposed(leaf), Record(UPLOADABLE), arg);
    ExposureMeansStaging(leaf, schema, arg);
  }

  // ---------------------------------------------------------------- a property called `file_uploadable`

  const OTHER := Ascii("other")

  /** A closed record schema with a property that happens to be called `file_uploadable`, and one more. */
  const CLOSED := [
    Entry(PROPERTIES, Record([Entry(FILE_UPLOADABLE, Boolean(true)), Entry(OTHER, Boolean(true))])),
    Entry(ADDITIONAL_PROPERTIES, Boolean(false))]

  lemma ClosedFields()
    ensures HasProperties(CLOSED) && Properties(CLOSED) == CLOSED[0].value.entries && Marked(Properties(CLOSED))
    ensures Has(Properties(CLOSED), OTHER) && Get(Properties(CLOSED), OTHER) == Boolean(true)
    ensures Has(CLOSED, ADDITIONAL_PROPERTIES) && Get(CLOSED, ADDITIONAL_PROPERTIES) == Boolean(false)
    ensures forall key :: key != PROPERTIES && key != ADDITIONAL_PROPERTIES ==> !Has(CLOSED, key)
    ensures Others(CLOSED) == [] && !Marked(CLOSED)
    ensures OTHER != ANY_OF && OTHER != DESCRIPTION
  {
    KeywordsDiffer();
    assert CLOSED[1..] == [CLOSED[1]] && CLOSED[1..][1..] == [];
    assert Others(CLOSED[1..]) == [];
    var properties := CLOSED[0].value.entries;
    assert properties[1..] == [properties[1]];
    assert |OTHER| == 5 && OTHER[0] != ANY_OF[0];
  }

  lemma ClosedAccepts(m: Reading, arg: Json)
    requires arg == Record([Entry(OTHER, Null)]) && m.leaf([], arg) && !m.rewrites
    ensures Accepts(m, Record(CLOSED), arg)
  {
    ClosedFields();
    KeywordsDiffer();
    assert Accepts(m, Boolean(true), Null);
    hide Properties;
    assert AcceptsMember(m, CLOSED, arg.entries[0]);
    assert AcceptsMembers(m, CLOSED, arg);
    assert !Has(CLOSED, ANY_OF) && !Has(CLOSED, ALL_OF) && !Has(CLOSED, ITEMS) && !Has(CLOSED, NOT);
    assert AcceptsItems(m, CLOSED, arg) && AcceptsAny(m, CLOSED, arg) && AcceptsAll(m, CLOSED, arg);
    assert AcceptsKeywords(m, CLOSED, arg);
  }

  lemma ExposedClosedRefuses(m: Reading, arg: Json)
    requires arg == Record([Entry(OTHER, Null)]) && !m.rewrites
    ensures !Accepts(m, Expose(Record(CLOSED)), arg)
  {
    ClosedFields();
    KeywordsDiffer();
    ExposedRecord(CLOSED);
    var exposed := Transformed(CLOSED);
    TransformedGet(CLOSED, FILE_UPLOADABLE);
    TransformedGet(CLOSED, ADDITIONAL_PROPERTIES);
    PropertiesTransform(CLOSED);
    WrapperFields(Properties(CLOSED));
    assert !Accepts(m, Boolean(false), Null);
    hide Properties, Transformed, Wrapper;
    assert !AcceptsExtra(m, exposed, arg.entries[0]);
    assert !AcceptsMember(m, exposed, arg.entries[0]);
    assert !AcceptsMembers(m, exposed, arg);
    assert !AcceptsKeywords(m, exposed, arg);
  }

  /** A mark on the record of properties replaces the properties themselves, and loses an argument. */
  lemma MarkedPropertiesLoseArguments(leaf: Leaf)
    requires leaf([], Record([Entry(OTHER, Null)]))
    ensures NegationFree(Record(CLOSED))
    ensures Accepts(Plain(leaf), Record(CLOSED), Record([Entry(OTHER, Null)]))
    ensures !Accepts(Plain(leaf), Expose(Record(CLOSED)), Record([Entry(OTHER, Null)]))
  {
    KeywordsDiffer();
    var arg := Record([Entry(OTHER, Null)]);
    ClosedAccepts(Plain(leaf), arg);
    ExposedClosedRefuses(Plain(leaf), arg);
    assert NegationFreeEntry(CLOSED[0]) && NegationFreeEntry(CLOSED[1]);
  }

  // ---------------------------------------------------------------- a mark inside `enum`

  const ENUM := Ascii("enum")
  const MARK := Record([Entry(FILE_UPLOADABLE, Boolean(true))])
  const LISTED := [Entry(ENUM, Array([MARK]))]

  /** A reading of plain keywords that knows `enum`. */
  ghost function EnumLeaf(): Leaf {
    (entries, arg) => Has(entries, ENUM) && Get(entries, ENUM).Array? ==> arg in Get(entries, ENUM).items
  }

  lemma EnumAnnotates()
    ensures Annotates(EnumLeaf())
  {
    KeywordsDiffer();
    assert |ENUM| == 4;
    forall text, arg ensures EnumLeaf()([Entry(DESCRIPTION, String(text))], arg) {
      assert [Entry(DESCRIPTION, String(text))][1..] == [];
    }
  }

  lemma ListedFields()
    ensures Others(LISTED) == LISTED && Others(Transformed(LISTED)) == Transformed(LISTED)
    ensures forall key :: key != ENUM ==> !Has(LISTED, key) && !Has(Transformed(LISTED), key)
    ensures Has(LISTED, ENUM) && Get(LISTED, ENUM) == Array([MARK])
    ensures Has(Transformed(LISTED), ENUM) && Get(Transformed(LISTED), ENUM) == Array([Expose(MARK)])
    ensures !IsApplicator(ENUM) && ENUM != FILE_UPLOADABLE
  {
    KeywordsDiffer();
    assert |ENUM| == 4;
    assert LISTED[1..] == [] && Transformed(LISTED)[1..] == [];
    assert Expose(Array([MARK])).items == [Expose(MARK)];
  }

  lemma MarkIsRewritten()
    ensures Expose(MARK) != MARK
  {
    KeywordsDiffer();
    ExposedRecord(MARK.entries);
    assert Marked(MARK.entries);
  }

  /** A plain keyword alone decides. */
  lemma KeywordDecides(m: Reading, entries: seq<Entry>, arg: Json)
    requires !Marked(entries) && forall key :: IsApplicator(key) ==> !Has(entries, key)
    ensures Accepts(m, Record(entries), arg) <==> m.leaf(Others(entries), arg)
  {
    KeywordsDiffer();
    OnlyAny(m, entries, arg);
    assert AcceptsAny(m, entries, arg);
  }

  /** A mark inside an `enum` is rewritten too, and loses the value listed. */
  lemma MarkedEnumLosesArguments()
    ensures Annotates(EnumLeaf()) && NegationFree(Record(LISTED)) && MarksAllow(Up, Record(LISTED))
    ensures Accepts(Plain(EnumLeaf()), Record(LISTED), MARK)
    ensures !Accepts(Plain(EnumLeaf()), Expose(Record(LISTED)), MARK)
  {
    EnumAnnotates();
    ListedFields();
    MarkIsRewritten();
    ExposedRecord(LISTED);
    KeywordsDiffer();
    hide Transformed;
    assert NegationFreeEntry(LISTED[0]) && MarksAllowEntry(Up, LISTED[0]);
    KeywordDecides(Plain(EnumLeaf()), LISTED, MARK);
    KeywordDecides(Plain(EnumLeaf()), Transformed(LISTED), MARK);
  }
}
