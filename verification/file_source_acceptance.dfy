/**
 Which arguments exposure gains and loses. Three kinds of mark lose arguments: under an odd number of
 negations, on a record of properties, and inside a plain keyword such as `enum`. Without them none is lost.
 */
module FileSourceAcceptance {
  import opened JsonValues
  import opened FileSourceSchemas

  // ---------------------------------------------------------------- where marks stand

  ghost predicate Unmarked(v: Json) {
    match v
    case Array(items) => forall i :: 0 <= i < |items| ==> Unmarked(items[i])
    case Record(entries) => !Marked(entries) && forall i :: 0 <= i < |entries| ==> Unmarked(entries[i].value)
    case _ => true
  }

  ghost predicate AllUnmarked(entries: seq<Entry>) {
    forall i :: 0 <= i < |entries| ==> Unmarked(entries[i].value)
  }

  /** Marks stand on schemas only: not inside an `enum` or a default, and not on the record of properties. */
  ghost predicate WellPlaced(schema: Json)
    decreases schema, 1
  {
    schema.Record? ==> forall i :: 0 <= i < |schema.entries| ==> WellPlacedEntry(schema.entries[i])
  }

  ghost predicate WellPlacedEntry(entry: Entry)
    decreases entry, 0
  {
    if entry.key == PROPERTIES then
      entry.value.Record? ==>
        && !Marked(entry.value.entries)
        && forall i :: 0 <= i < |entry.value.entries| ==> WellPlaced(entry.value.entries[i].value)
    else if entry.key == ANY_OF || entry.key == ALL_OF then
      entry.value.Array? ==> forall i :: 0 <= i < |entry.value.items| ==> WellPlaced(entry.value.items[i])
    else if IsApplicator(entry.key) then WellPlaced(entry.value)
    else Unmarked(entry.value)
  }

  /** How the arguments that two readings accept compare: fewer and more, more and fewer, or the same. */
  datatype Direction = Up | Down | Same {
    function Flip(): Direction {
      match this case Up => Down case Down => Up case Same => Same
    }
    predicate Holds(p: bool, q: bool) {
      (this.Down? || (p ==> q)) && (this.Up? || (q ==> p))
    }
  }

  /** In direction `Up`: no mark stands under an odd number of negations; in `Down`, under an even one. */
  ghost predicate MarksAllow(d: Direction, schema: Json)
    decreases schema, 1
  {
    schema.Record? ==>
      && (d.Down? ==> !Marked(schema.entries))
      && forall i :: 0 <= i < |schema.entries| ==> MarksAllowEntry(d, schema.entries[i])
  }

  ghost predicate MarksAllowEntry(d: Direction, entry: Entry)
    decreases entry, 0
  {
    if entry.key == PROPERTIES then
      entry.value.Record? ==>
        forall i :: 0 <= i < |entry.value.entries| ==> MarksAllow(d, entry.value.entries[i].value)
    else if entry.key == ANY_OF || entry.key == ALL_OF then
      entry.value.Array? ==> forall i :: 0 <= i < |entry.value.items| ==> MarksAllow(d, entry.value.items[i])
    else if entry.key == NOT then MarksAllow(d.Flip(), entry.value)
    else IsApplicator(entry.key) ==> MarksAllow(d, entry.value)
  }

  // ---------------------------------------------------------------- comparing two readings

  lemma {:induction false} UnmarkedStays(v: Json)
    requires Unmarked(v)
    ensures Expose(v) == v
  {
    match v
    case Array(items) =>
      forall i | 0 <= i < |items| { UnmarkedStays(items[i]); }
      assert Expose(v).items == items;
    case Record(entries) =>
      forall i | 0 <= i < |entries| { UnmarkedStays(entries[i].value); }
      assert Expose(v).entries == entries;
    case _ =>
  }

  lemma UnmarkedEntriesStay(entries: seq<Entry>)
    requires AllUnmarked(entries)
    ensures Transformed(entries) == entries
  {
    forall i | 0 <= i < |entries| { UnmarkedStays(entries[i].value); }
  }

  lemma {:induction false} OthersUnmarked(entries: seq<Entry>)
    requires forall i :: 0 <= i < |entries| ==> WellPlacedEntry(entries[i])
    ensures AllUnmarked(Others(entries))
    decreases |entries|
  {
    if entries != [] { OthersUnmarked(entries[1..]); }
  }

  /** The readings agree on plain keywords without marks. */
  ghost predicate LeavesAgree(m: Reading, n: Reading) {
    forall entries, arg {:trigger m.leaf(entries, arg)} :: AllUnmarked(entries) ==> m.leaf(entries, arg) == n.leaf(entries, arg)
  }

  /** Everywhere inside the argument the second reading knows at least, or exactly, the sources of the first. */
  ghost predicate SourcesAllow(d: Direction, m: Reading, n: Reading, arg: Json)
    decreases arg
  {
    && (m.source(arg) ==> n.source(arg)) && (d.Same? ==> m.source(arg) == n.source(arg))
    && match arg
       case Array(items) => forall i :: 0 <= i < |items| ==> SourcesAllow(d, m, n, items[i])
       case Record(entries) => forall i :: 0 <= i < |entries| ==> SourcesAllow(d, m, n, entries[i].value)
       case _ => true
  }

  lemma {:induction false} SourcesFlip(d: Direction, m: Reading, n: Reading, arg: Json)
    requires SourcesAllow(d, m, n, arg)
    ensures SourcesAllow(d.Flip(), m, n, arg)
    decreases arg
  {
    match arg
    case Array(items) => forall i | 0 <= i < |items| { SourcesFlip(d, m, n, items[i]); }
    case Record(entries) => forall i | 0 <= i < |entries| { SourcesFlip(d, m, n, entries[i].value); }
    case _ =>
  }

  ghost predicate Comparable(d: Direction, m: Reading, n: Reading, schema: Json) {
    WellPlaced(schema) && MarksAllow(d, schema) && LeavesAgree(m, n)
  }

  /** What two readings accept compares as their sources do, the other way round under a negation. */
  lemma {:induction false} ReadingsCompare(d: Direction, m: Reading, n: Reading, schema: Json, arg: Json)
    requires Comparable(d, m, n, schema) && SourcesAllow(d, m, n, arg)
    ensures d.Holds(Accepts(m, schema, arg), Accepts(n, schema, arg))
    decreases schema, 3
  {
    if schema.Record? {
      var entries := schema.entries;
      OthersUnmarked(entries);
      assert m.leaf(Others(entries), arg) == n.leaf(Others(entries), arg);
      MembersCompare(d, m, n, entries, arg);
      ItemsCompare(d, m, n, entries, arg);
      OptionsCompare(d, m, n, entries, arg);
      if Has(entries, NOT) {
        assert WellPlacedEntry(entries[Find(entries, NOT)]) && MarksAllowEntry(d, entries[Find(entries, NOT)]);
        KeywordsDiffer();
        SourcesFlip(d, m, n, arg);
        ReadingsCompare(d.Flip(), m, n, Get(entries, NOT), arg);
      }
      hide AcceptsMembers, AcceptsItems, AcceptsAny, AcceptsAll, WellPlaced, MarksAllowEntry, LeavesAgree, AllUnmarked;
      assert d.Holds(AcceptsKeywords(m, entries, arg), AcceptsKeywords(n, entries, arg));
    }
  }

  lemma {:induction false} MembersCompare(d: Direction, m: Reading, n: Reading, entries: seq<Entry>, arg: Json)
    requires Comparable(d, m, n, Record(entries)) && SourcesAllow(d, m, n, arg)
    ensures d.Holds(AcceptsMembers(m, entries, arg), AcceptsMembers(n, entries, arg))
    decreases entries, 2
  {
    if arg.Record? {
      forall j | 0 <= j < |arg.entries|
        ensures d.Holds(AcceptsMember(m, entries, arg.entries[j]), AcceptsMember(n, entries, arg.entries[j]))
      {
        MemberCompare(d, m, n, entries, arg.entries[j]);
      }
    }
  }

  lemma {:induction false} MemberCompare(d: Direction, m: Reading, n: Reading, entries: seq<Entry>, member: Entry)
    requires Comparable(d, m, n, Record(entries)) && SourcesAllow(d, m, n, member.value)
    ensures d.Holds(AcceptsMember(m, entries, member), AcceptsMember(n, entries, member))
    decreases entries, 1
  {
    KeywordsDiffer();
    if Has(entries, ADDITIONAL_PROPERTIES) {
      var i := Find(entries, ADDITIONAL_PROPERTIES);
      assert WellPlacedEntry(entries[i]) && MarksAllowEntry(d, entries[i]);
      ReadingsCompare(d, m, n, Get(entries, ADDITIONAL_PROPERTIES), member.value);
    }
    if HasProperties(entries) {
      var i := Find(entries, PROPERTIES);
      assert WellPlacedEntry(entries[i]) && MarksAllowEntry(d, entries[i]);
      if Has(Properties(entries), member.key) {
        ReadingsCompare(d, m, n, Get(Properties(entries), member.key), member.value);
      }
    }
  }

  lemma {:induction false} ItemsCompare(d: Direction, m: Reading, n: Reading, entries: seq<Entry>, arg: Json)
    requires Comparable(d, m, n, Record(entries)) && SourcesAllow(d, m, n, arg)
    ensures d.Holds(AcceptsItems(m, entries, arg), AcceptsItems(n, entries, arg))
    decreases entries, 1
  {
    KeywordsDiffer();
    if Has(entries, ITEMS) && arg.Array? {
      var i := Find(entries, ITEMS);
      assert WellPlacedEntry(entries[i]) && MarksAllowEntry(d, entries[i]);
      forall k | 0 <= k < |arg.items| ensures d.Holds(Accepts(m, Get(entries, ITEMS), arg.items[k]), Accepts(n, Get(entries, ITEMS), arg.items[k])) {
        ReadingsCompare(d, m, n, Get(entries, ITEMS), arg.items[k]);
      }
    }
  }

  lemma {:induction false} OptionsCompare(d: Direction, m: Reading, n: Reading, entries: seq<Entry>, arg: Json)
    requires Comparable(d, m, n, Record(entries)) && SourcesAllow(d, m, n, arg)
    ensures d.Holds(AcceptsAny(m, entries, arg), AcceptsAny(n, entries, arg))
    ensures d.Holds(AcceptsAll(m, entries, arg), AcceptsAll(n, entries, arg))
    decreases entries, 2
  {
    if Has(entries, ANY_OF) && Get(entries, ANY_OF).Array? { ListCompares(d, m, n, entries, ANY_OF, arg); }
    if Has(entries, ALL_OF) && Get(entries, ALL_OF).Array? { ListCompares(d, m, n, entries, ALL_OF, arg); }
  }

  lemma {:induction false} ListCompares(d: Direction, m: Reading, n: Reading, entries: seq<Entry>, key: Text, arg: Json)
    requires Comparable(d, m, n, Record(entries)) && SourcesAllow(d, m, n, arg)
    requires (key == ANY_OF || key == ALL_OF) && Has(entries, key) && Get(entries, key).Array?
    ensures forall i :: 0 <= i < |Get(entries, key).items| ==>
      d.Holds(Accepts(m, Get(entries, key).items[i], arg), Accepts(n, Get(entries, key).items[i], arg))
    decreases entries, 1
  {
    KeywordsDiffer();
    var place := Find(entries, key);
    assert WellPlacedEntry(entries[place]) && MarksAllowEntry(d, entries[place]);
    forall i | 0 <= i < |Get(entries, key).items| { ReadingsCompare(d, m, n, Get(entries, key).items[i], arg); }
  }

  // ---------------------------------------------------------------- what exposure gains and loses

  lemma PlainLeavesAgree(leaf: Leaf)
    ensures LeavesAgree(Plain(leaf), Exposed(leaf)) && LeavesAgree(Exposed(leaf), Reading(leaf, Staged(leaf), false))
  {
    forall entries | AllUnmarked(entries) ensures Transformed(entries) == entries { UnmarkedEntriesStay(entries); }
  }

  lemma {:induction false} NothingAllowsAll(n: Reading, leaf: Leaf, arg: Json)
    ensures SourcesAllow(Up, Plain(leaf), n, arg)
    decreases arg
  {
    match arg
    case Array(items) => forall i | 0 <= i < |items| { NothingAllowsAll(n, leaf, items[i]); }
    case Record(entries) => forall i | 0 <= i < |entries| { NothingAllowsAll(n, leaf, entries[i].value); }
    case _ =>
  }

  /**
   When marks stand on schemas only, and none under an odd number of negations, an argument accepted before
   exposure is accepted after it.
   */
  lemma AcceptedStaysAccepted(leaf: Leaf, schema: Json, arg: Json)
    requires Annotates(leaf) && WellPlaced(schema) && MarksAllow(Up, schema)
    requires Accepts(Plain(leaf), schema, arg)
    ensures Accepts(Plain(leaf), Expose(schema), arg)
  {
    PlainLeavesAgree(leaf);
    NothingAllowsAll(Exposed(leaf), leaf, arg);
    hide Accepts, SourcesAllow, LeavesAgree, WellPlaced, MarksAllow;
    ReadingsCompare(Up, Plain(leaf), Exposed(leaf), schema, arg);
    ExposureMeansStaging(leaf, schema, arg);
  }

  /** Where even a negated schema holds no mark, exposure loses nothing; negation-free schemas are such. */
  ghost predicate NegationFree(schema: Json)
    decreases schema, 1
  {
    schema.Record? ==> forall i :: 0 <= i < |schema.entries| ==> NegationFreeEntry(schema.entries[i])
  }

  ghost predicate NegationFreeEntry(entry: Entry)
    decreases entry, 0
  {
    && entry.key != NOT
    && (entry.key == PROPERTIES && entry.value.Record? ==>
          forall i :: 0 <= i < |entry.value.entries| ==> NegationFree(entry.value.entries[i].value))
    && ((entry.key == ANY_OF || entry.key == ALL_OF) && entry.value.Array? ==>
          forall i :: 0 <= i < |entry.value.items| ==> NegationFree(entry.value.items[i]))
    && (entry.key == ADDITIONAL_PROPERTIES || entry.key == ITEMS ==> NegationFree(entry.value))
  }

  /** Without negations marks may stand anywhere. */
  lemma {:induction false} NegationFreeAllowsMarks(schema: Json)
    requires NegationFree(schema)
    ensures MarksAllow(Up, schema)
    decreases schema
  {
    if schema.Record? {
      forall i | 0 <= i < |schema.entries| ensures MarksAllowEntry(Up, schema.entries[i]) {
        var entry := schema.entries[i];
        assert NegationFreeEntry(entry);
        KeywordsDiffer();
        if entry.key == PROPERTIES && entry.value.Record? {
          forall k | 0 <= k < |entry.value.entries| { NegationFreeAllowsMarks(entry.value.entries[k].value); }
        } else if (entry.key == ANY_OF || entry.key == ALL_OF) && entry.value.Array? {
          forall k | 0 <= k < |entry.value.items| { NegationFreeAllowsMarks(entry.value.items[k]); }
        } else if entry.key == ADDITIONAL_PROPERTIES || entry.key == ITEMS {
          NegationFreeAllowsMarks(entry.value);
        }
      }
    }
  }

  /** No value inside the argument, itself included, is a file source. */
  ghost predicate SourceFree(source: Source, arg: Json) {
    && !source(arg)
    && match arg
       case Array(items) => forall i :: 0 <= i < |items| ==> SourceFree(source, items[i])
       case Record(entries) => forall i :: 0 <= i < |entries| ==> SourceFree(source, entries[i].value)
       case _ => true
  }

  lemma {:induction false} NoSourcesAgree(leaf: Leaf, n: Reading, arg: Json)
    requires SourceFree(n.source, arg)
    ensures SourcesAllow(Same, Plain(leaf), n, arg)
    decreases arg
  {
    match arg
    case Array(items) => forall i | 0 <= i < |items| { NoSourcesAgree(leaf, n, items[i]); }
    case Record(entries) => forall i | 0 <= i < |entries| { NoSourcesAgree(leaf, n, entries[i].value); }
    case _ =>
  }

  lemma {:induction false} AnyMarksSame(schema: Json)
    ensures MarksAllow(Same, schema)
    decreases schema
  {
    if schema.Record? {
      forall i | 0 <= i < |schema.entries| ensures MarksAllowEntry(Same, schema.entries[i]) {
        var value := schema.entries[i].value;
        AnyMarksSame(value);
        if value.Record? { forall k | 0 <= k < |value.entries| { AnyMarksSame(value.entries[k].value); } }
        if value.Array? { forall k | 0 <= k < |value.items| { AnyMarksSame(value.items[k]); } }
      }
    }
  }

  /** Exposure changes nothing for arguments without file sources, whatever the schema negates. */
  lemma SourceFreeArgumentsUnaffected(leaf: Leaf, schema: Json, arg: Json)
    requires Annotates(leaf) && WellPlaced(schema) && SourceFree(Staged(leaf), arg)
    ensures Accepts(Plain(leaf), Expose(schema), arg) <==> Accepts(Plain(leaf), schema, arg)
  {
    PlainLeavesAgree(leaf);
    NoSourcesAgree(leaf, Exposed(leaf), arg);
    AnyMarksSame(schema);
    hide Accepts, SourcesAllow, LeavesAgree, WellPlaced, MarksAllow;
    ReadingsCompare(Same, Plain(leaf), Exposed(leaf), schema, arg);
    ExposureMeansStaging(leaf, schema, arg);
  }

  lemma {:induction false} SameSourcesAgree(m: Reading, n: Reading, arg: Json)
    requires m.source == n.source
    ensures SourcesAllow(Same, m, n, arg)
    decreases arg
  {
    match arg
    case Array(items) => forall i | 0 <= i < |items| { SameSourcesAgree(m, n, items[i]); }
    case Record(entries) => forall i | 0 <= i < |entries| { SameSourcesAgree(m, n, entries[i].value); }
    case _ =>
  }

  /** When marks stand on schemas only, exposure adds file sources where they may be uploaded, and nothing else. */
  lemma WellPlacedMarksAddSources(leaf: Leaf, schema: Json, arg: Json)
    requires Annotates(leaf) && WellPlaced(schema)
    ensures Accepts(Plain(leaf), Expose(schema), arg) <==> Accepts(Reading(leaf, Staged(leaf), false), schema, arg)
  {
    var m := Reading(leaf, Staged(leaf), false);
    PlainLeavesAgree(leaf);
    SameSourcesAgree(Exposed(leaf), m, arg);
    AnyMarksSame(schema);
    hide Accepts, SourcesAllow, LeavesAgree, WellPlaced, MarksAllow;
    ReadingsCompare(Same, Exposed(leaf), m, schema, arg);
    ExposureMeansStaging(leaf, schema, arg);
  }
}
