/**
 Replacing the file sources of an action's arguments by staged files.

 `parse` recognises a file source; the model works for every recogniser. `replies` answers the staging
 requests in the order they are made: the storage key, or the failure.
 */
module FileStaging {
  import opened Options
  import opened JsonValues

  datatype FileSource = FileSource(mimetype: Text, name: Text, url: Text)

  datatype Upload = Stored(key: Text) | Rejected(code: nat)

  datatype Failure = TooManySources | UploadFailed(code: nat)

  datatype Outcome = Staged(value: Json) | Failed(failure: Failure)

  type Parser = Json -> Option<FileSource>
  type Replies = nat -> Upload

  const MAXIMUM_STAGED_FILES := 4
  const PROTO := Ascii("__proto__")

  function StagedRecord(file: FileSource, key: Text): Json {
    Record([Entry(Ascii("mimetype"), String(file.mimetype)), Entry(Ascii("name"), String(file.name)), Entry(Ascii("s3key"), String(key))])
  }

  /** What the provider is given: the file's type and name and the key it is stored under, and nothing else. */
  lemma StagedRecordHolds(file: FileSource, key: Text)
    ensures
      var members := StagedRecord(file, key).entries;
      && Has(members, Ascii("mimetype")) && Get(members, Ascii("mimetype")) == String(file.mimetype)
      && Has(members, Ascii("name")) && Get(members, Ascii("name")) == String(file.name)
      && Has(members, Ascii("s3key")) && Get(members, Ascii("s3key")) == String(key)
      && |members| == 3
  {
    var members := StagedRecord(file, key).entries;
    assert |Ascii("mimetype")| == 8 && |Ascii("name")| == 4 && |Ascii("s3key")| == 5;
    assert members[1..][0] == members[1] && members[1..][1..][0] == members[2];
  }

  // ---------------------------------------------------------------- the sources of a value, in order

  function Sources(parse: Parser, v: Json): seq<FileSource>
    decreases v, 1
  {
    if parse(v).Some? then [parse(v).value]
    else match v
      case Array(items) => SourcesOfItems(parse, items)
      case Record(entries) => SourcesOfEntries(parse, entries)
      case _ => []
  }

  function SourcesOfItems(parse: Parser, items: seq<Json>): seq<FileSource>
    decreases items, 0
  {
    if items == [] then [] else Sources(parse, items[0]) + SourcesOfItems(parse, items[1..])
  }

  function SourcesOfEntries(parse: Parser, entries: seq<Entry>): seq<FileSource>
    decreases entries, 0
  {
    if entries == [] then [] else Sources(parse, entries[0].value) + SourcesOfEntries(parse, entries[1..])
  }

  // ---------------------------------------------------------------- the value with its sources replaced

  /**
   The value with its i-th source replaced by the file stored under `keys(i)`, and nothing else changed,
   save that assigning to the member `__proto__` leaves no member behind.
   */
  function Rewrite(parse: Parser, keys: nat -> Text, v: Json, n: nat): Json
    decreases v, 1
  {
    if parse(v).Some? then StagedRecord(parse(v).value, keys(n))
    else match v
      case Array(items) => Array(RewriteItems(parse, keys, items, n))
      case Record(entries) => Record(RewriteEntries(parse, keys, entries, n))
      case _ => v
  }

  function RewriteItems(parse: Parser, keys: nat -> Text, items: seq<Json>, n: nat): seq<Json>
    decreases items, 0
  {
    if items == [] then []
    else [Rewrite(parse, keys, items[0], n)] + RewriteItems(parse, keys, items[1..], n + |Sources(parse, items[0])|)
  }

  function RewriteEntries(parse: Parser, keys: nat -> Text, entries: seq<Entry>, n: nat): seq<Entry>
    decreases entries, 0
  {
    if entries == [] then []
    else Put([], entries[0].key, Rewrite(parse, keys, entries[0].value, n))
         + RewriteEntries(parse, keys, entries[1..], n + |Sources(parse, entries[0].value)|)
  }

  /** Assigning a member that is not there yet. */
  function Put(members: seq<Entry>, key: Text, value: Json): seq<Entry> {
    if key == PROTO then members else members + [Entry(key, value)]
  }

  // ---------------------------------------------------------------- one pass over a list of sources

  datatype Progress = Progress(count: nat, calls: seq<FileSource>)

  datatype Pass = Pass(failure: Option<Failure>, progress: Progress)

  /** Staging the sources one by one, until the first failure. */
  function StageAll(replies: Replies, files: seq<FileSource>, p: Progress): Pass
    decreases |files|
  {
    if files == [] then Pass(None, p)
    else if p.count + 1 > MAXIMUM_STAGED_FILES then Pass(Some(TooManySources), p.(count := p.count + 1))
    else
      var next := Progress(p.count + 1, p.calls + [files[0]]);
      match replies(p.count)
      case Rejected(code) => Pass(Some(UploadFailed(code)), next)
      case Stored(_) => StageAll(replies, files[1..], next)
  }

  /** The key under which the count-th source is stored. */
  function KeyOf(replies: Replies): nat -> Text {
    n => match replies(n) case Stored(key) => key case Rejected(_) => []
  }

  /** What staging the value comes to: one pass over its sources, then the rewritten value. */
  function StagedOutcome(parse: Parser, replies: Replies, v: Json, p: Progress): (Outcome, Progress) {
    var pass := StageAll(replies, Sources(parse, v), p);
    (if pass.failure.Some? then Failed(pass.failure.value) else Staged(Rewrite(parse, KeyOf(replies), v, p.count)),
     pass.progress)
  }

  lemma {:induction false} StageAllAppend(replies: Replies, a: seq<FileSource>, b: seq<FileSource>, p: Progress)
    ensures
      var first := StageAll(replies, a, p);
      StageAll(replies, a + b, p) == if first.failure.Some? then first else StageAll(replies, b, first.progress)
    ensures StageAll(replies, a, p).failure.None? ==> StageAll(replies, a, p).progress == Progress(p.count + |a|, p.calls + a)
    decreases |a|
  {
    if a == [] {
      assert a + b == b;
      assert p.calls + a == p.calls;
    } else {
      assert (a + b)[1..] == a[1..] + b && (a + b)[0] == a[0];
      var next := Progress(p.count + 1, p.calls + [a[0]]);
      StageAllAppend(replies, a[1..], b, next);
      assert p.calls + [a[0]] + a[1..] == p.calls + a;
    }
  }

  /** Staging succeeds exactly when no more than four sources are staged in all and every one is stored. */
  lemma {:induction false} StagingSucceedsExactly(replies: Replies, files: seq<FileSource>, p: Progress)
    requires p.count <= MAXIMUM_STAGED_FILES
    ensures StageAll(replies, files, p).failure.None? <==>
              && p.count + |files| <= MAXIMUM_STAGED_FILES
              && forall i :: p.count <= i < p.count + |files| ==> replies(i).Stored?
    decreases |files|
  {
    if files != [] && p.count < MAXIMUM_STAGED_FILES && replies(p.count).Stored? {
      StagingSucceedsExactly(replies, files[1..], Progress(p.count + 1, p.calls + [files[0]]));
    }
  }

  /** However staging ends, the requests made are the first few sources, in order, and at most four. */
  lemma {:induction false} RequestsFollowTheSources(replies: Replies, files: seq<FileSource>, p: Progress)
    requires p.count <= MAXIMUM_STAGED_FILES
    ensures
      var calls := StageAll(replies, files, p).progress.calls;
      exists k :: 0 <= k <= |files| && p.count + k <= MAXIMUM_STAGED_FILES && calls == p.calls + files[..k]
    decreases |files|
  {
    var calls := StageAll(replies, files, p).progress.calls;
    if files == [] || p.count == MAXIMUM_STAGED_FILES {
      assert calls == p.calls + files[..0];
    } else if replies(p.count).Rejected? {
      assert calls == p.calls + files[..1];
    } else {
      var next := Progress(p.count + 1, p.calls + [files[0]]);
      RequestsFollowTheSources(replies, files[1..], next);
      var k :| 0 <= k <= |files[1..]| && next.count + k <= MAXIMUM_STAGED_FILES && calls == next.calls + files[1..][..k];
      assert calls == p.calls + files[..k + 1];
    }
  }

  lemma ItemStep(parse: Parser, replies: Replies, items: seq<Json>, i: nat, p: Progress)
    requires i < |items|
    ensures
      var pass := StageAll(replies, Sources(parse, items[i]), p);
      && (StageAll(replies, SourcesOfItems(parse, items[i..]), p)
          == if pass.failure.Some? then pass else StageAll(replies, SourcesOfItems(parse, items[i + 1..]), pass.progress))
      && (pass.failure.None? ==> pass.progress.count == p.count + |Sources(parse, items[i])|)
    ensures RewriteItems(parse, KeyOf(replies), items[i..], p.count)
         == [Rewrite(parse, KeyOf(replies), items[i], p.count)]
            + RewriteItems(parse, KeyOf(replies), items[i + 1..], p.count + |Sources(parse, items[i])|)
  {
    assert items[i..][0] == items[i] && items[i..][1..] == items[i + 1..];
    StageAllAppend(replies, Sources(parse, items[i]), SourcesOfItems(parse, items[i + 1..]), p);
  }

  lemma EntryStep(parse: Parser, replies: Replies, entries: seq<Entry>, i: nat, p: Progress)
    requires i < |entries|
    ensures
      var pass := StageAll(replies, Sources(parse, entries[i].value), p);
      && (StageAll(replies, SourcesOfEntries(parse, entries[i..]), p)
          == if pass.failure.Some? then pass else StageAll(replies, SourcesOfEntries(parse, entries[i + 1..]), pass.progress))
      && (pass.failure.None? ==> pass.progress.count == p.count + |Sources(parse, entries[i].value)|)
    ensures RewriteEntries(parse, KeyOf(replies), entries[i..], p.count)
         == Put([], entries[i].key, Rewrite(parse, KeyOf(replies), entries[i].value, p.count))
            + RewriteEntries(parse, KeyOf(replies), entries[i + 1..], p.count + |Sources(parse, entries[i].value)|)
  {
    assert entries[i..][0] == entries[i] && entries[i..][1..] == entries[i + 1..];
    StageAllAppend(replies, Sources(parse, entries[i].value), SourcesOfEntries(parse, entries[i + 1..]), p);
  }

  lemma NothingLeft(parse: Parser, replies: Replies, items: seq<Json>, entries: seq<Entry>, p: Progress)
    requires items == [] && entries == []
    ensures StageAll(replies, SourcesOfItems(parse, items), p) == Pass(None, p)
    ensures StageAll(replies, SourcesOfEntries(parse, entries), p) == Pass(None, p)
    ensures RewriteItems(parse, KeyOf(replies), items, p.count) == []
    ensures RewriteEntries(parse, KeyOf(replies), entries, p.count) == []
  {
  }

  // ---------------------------------------------------------------- the context and the walk

  class StagingContext {
    const parse: Parser
    const replies: Replies
    var count: nat
    /** The sources for which staging was requested. */
    ghost var calls: seq<FileSource>

    constructor (parse: Parser, replies: Replies)
      ensures this.parse == parse && this.replies == replies
      ensures count == 0 && calls == []
    {
      this.parse := parse;
      this.replies := replies;
      count := 0;
      calls := [];
    }

    ghost function Now(): Progress
      reads this
    {
      Progress(count, calls)
    }

    method StageFileSource(file: FileSource) returns (upload: Upload)
      requires count > 0
      modifies `calls
      ensures upload == replies(count - 1)
      ensures calls == old(calls) + [file]
    {
      calls := calls + [file];
      upload := replies(count - 1);
    }

    method StageFileSources(value: Json) returns (r: Outcome)
      modifies this
      ensures (r, Now()) == StagedOutcome(parse, replies, value, old(Now()))
      decreases value, 1
    {
      var source := parse(value);
      if source.Some? {
        count := count + 1;
        if count > MAXIMUM_STAGED_FILES {
          return Failed(TooManySources);
        }
        var upload := StageFileSource(source.value);
        if upload.Rejected? {
          return Failed(UploadFailed(upload.code));
        }
        assert Sources(parse, value) == [source.value] && [source.value][1..] == [];
        assert StageAll(replies, [source.value][1..], Now()) == Pass(None, Now());
        assert StageAll(replies, [source.value], old(Now())) == Pass(None, Now());
        assert KeyOf(replies)(old(Now()).count) == upload.key;
        return Staged(StagedRecord(source.value, upload.key));
      }
      if value.Array? {
        r := StageItems(value.items);
      } else if value.Record? {
        r := StageMembers(value.entries);
      } else {
        r := Staged(value);
      }
    }

    method StageItems(items: seq<Json>) returns (r: Outcome)
      modifies this
      ensures
        var pass := StageAll(replies, SourcesOfItems(parse, items), old(Now()));
        && Now() == pass.progress
        && r == if pass.failure.Some? then Failed(pass.failure.value)
                else Staged(Array(RewriteItems(parse, KeyOf(replies), items, old(count))))
      decreases items, 0
    {
      hide StageAll, Sources, SourcesOfItems, Rewrite, RewriteItems;
      var result := [];
      assert items[0..] == items;
      for i := 0 to |items|
        invariant StageAll(replies, SourcesOfItems(parse, items), old(Now()))
                  == StageAll(replies, SourcesOfItems(parse, items[i..]), Now())
        invariant RewriteItems(parse, KeyOf(replies), items, old(count))
                  == result + RewriteItems(parse, KeyOf(replies), items[i..], count)
      {
        ItemStep(parse, replies, items, i, Now());
        var item := StageFileSources(items[i]);
        if item.Failed? {
          return item;
        }
        result := result + [item.value];
      }
      NothingLeft(parse, replies, items[|items|..], [], Now());
      assert result + [] == result;
      return Staged(Array(result));
    }

    method StageMembers(entries: seq<Entry>) returns (r: Outcome)
      modifies this
      ensures
        var pass := StageAll(replies, SourcesOfEntries(parse, entries), old(Now()));
        && Now() == pass.progress
        && r == if pass.failure.Some? then Failed(pass.failure.value)
                else Staged(Record(RewriteEntries(parse, KeyOf(replies), entries, old(count))))
      decreases entries, 0
    {
      hide StageAll, Sources, SourcesOfEntries, Rewrite, RewriteEntries;
      var members := [];
      assert entries[0..] == entries;
      for i := 0 to |entries|
        invariant StageAll(replies, SourcesOfEntries(parse, entries), old(Now()))
                  == StageAll(replies, SourcesOfEntries(parse, entries[i..]), Now())
        invariant RewriteEntries(parse, KeyOf(replies), entries, old(count))
                  == members + RewriteEntries(parse, KeyOf(replies), entries[i..], count)
      {
        EntryStep(parse, replies, entries, i, Now());
        var item := StageFileSources(entries[i].value);
        if item.Failed? {
          return item;
        }
        members := Put(members, entries[i].key, item.value);
      }
      NothingLeft(parse, replies, [], entries[|entries|..], Now());
      assert members + [] == members;
      return Staged(Record(members));
    }
  }

  // ---------------------------------------------------------------- values without sources

  /** No record at any depth has a member called `__proto__`. */
  predicate ProtoFree(v: Json) {
    match v
    case Array(items) => forall i :: 0 <= i < |items| ==> ProtoFree(items[i])
    case Record(entries) =>
      forall i :: 0 <= i < |entries| ==> entries[i].key != PROTO && ProtoFree(entries[i].value)
    case _ => true
  }

  lemma {:induction false} RewriteShape(parse: Parser, keys: nat -> Text, entries: seq<Entry>, n: nat)
    ensures |RewriteEntries(parse, keys, entries, n)| <= |entries|
    ensures |RewriteEntries(parse, keys, entries, n)| == |entries| <==>
              forall i :: 0 <= i < |entries| ==> entries[i].key != PROTO
    decreases |entries|
  {
    if entries != [] {
      RewriteShape(parse, keys, entries[1..], n + |Sources(parse, entries[0].value)|);
      if forall i :: 0 <= i < |entries| ==> entries[i].key != PROTO {
        forall i | 0 <= i < |entries[1..]| ensures entries[1..][i].key != PROTO { assert entries[1..][i] == entries[i + 1]; }
      } else if entries[0].key != PROTO {
        var i :| 0 <= i < |entries| && entries[i].key == PROTO;
        assert entries[1..][i - 1].key == PROTO;
      }
    }
  }

  /** On a value without sources staging is the identity, exactly when no member is called `__proto__`. */
  lemma {:induction false} SourceFreeStays(parse: Parser, keys: nat -> Text, v: Json, n: nat)
    requires Sources(parse, v) == []
    ensures Rewrite(parse, keys, v, n) == v <==> ProtoFree(v)
    decreases v, 1
  {
    match v
    case Array(items) => SourceFreeItemsStay(parse, keys, items, n);
    case Record(entries) => SourceFreeEntriesStay(parse, keys, entries, n);
    case _ =>
  }

  lemma {:induction false} SourceFreeItemsStay(parse: Parser, keys: nat -> Text, items: seq<Json>, n: nat)
    requires SourcesOfItems(parse, items) == []
    ensures RewriteItems(parse, keys, items, n) == items <==> forall i :: 0 <= i < |items| ==> ProtoFree(items[i])
    decreases items, 0
  {
    if items != [] {
      SourceFreeStays(parse, keys, items[0], n);
      SourceFreeItemsStay(parse, keys, items[1..], n);
      var rest := RewriteItems(parse, keys, items[1..], n);
      assert RewriteItems(parse, keys, items, n) == [Rewrite(parse, keys, items[0], n)] + rest;
      assert items == [items[0]] + items[1..];
      assert RewriteItems(parse, keys, items, n)[1..] == rest;
      assert (forall i :: 0 <= i < |items| ==> ProtoFree(items[i])) <==>
        ProtoFree(items[0]) && forall i :: 0 <= i < |items[1..]| ==> ProtoFree(items[1..][i]) by {
        assert forall i :: 0 < i < |items| ==> items[i] == items[1..][i - 1];
      }
    }
  }

  lemma {:induction false} SourceFreeEntriesStay(parse: Parser, keys: nat -> Text, entries: seq<Entry>, n: nat)
    requires SourcesOfEntries(parse, entries) == []
    ensures RewriteEntries(parse, keys, entries, n) == entries <==>
              forall i :: 0 <= i < |entries| ==> entries[i].key != PROTO && ProtoFree(entries[i].value)
    decreases entries, 0
  {
    RewriteShape(parse, keys, entries, n);
    if entries != [] && entries[0].key != PROTO {
      SourceFreeStays(parse, keys, entries[0].value, n);
      SourceFreeEntriesStay(parse, keys, entries[1..], n);
      var rest := RewriteEntries(parse, keys, entries[1..], n);
      var head := Entry(entries[0].key, Rewrite(parse, keys, entries[0].value, n));
      assert RewriteEntries(parse, keys, entries, n) == [head] + rest;
      assert entries == [entries[0]] + entries[1..];
      assert RewriteEntries(parse, keys, entries, n)[1..] == rest;
      assert forall i :: 0 < i < |entries| ==> entries[i] == entries[1..][i - 1];
      assert forall i :: 0 <= i < |entries[1..]| ==> entries[1..][i] == entries[i + 1];
    }
  }

  /** Staging a value without sources requests nothing, cannot fail, and keeps every `__proto__`-free value. */
  lemma StagingIsIdentityOffSources(parse: Parser, replies: Replies, v: Json, p: Progress)
    requires Sources(parse, v) == []
    ensures
      var (outcome, after) := StagedOutcome(parse, replies, v, p);
      after == p && outcome.Staged? && (outcome.value == v <==> ProtoFree(v))
  {
    SourceFreeStays(parse, KeyOf(replies), v, p.count);
  }

  /** When every upload is stored, staging a fresh value fails exactly when it has more than four sources. */
  lemma OnlyTooManySourcesFail(parse: Parser, replies: Replies, v: Json)
    requires forall i :: replies(i).Stored?
    ensures StagedOutcome(parse, replies, v, Progress(0, [])).0.Failed? <==> |Sources(parse, v)| > MAXIMUM_STAGED_FILES
    ensures
      var (outcome, after) := StagedOutcome(parse, replies, v, Progress(0, []));
      outcome.Staged? ==> after.calls == Sources(parse, v)
  {
    StagingSucceedsExactly(replies, Sources(parse, v), Progress(0, []));
    StageAllAppend(replies, Sources(parse, v), [], Progress(0, []));
  }
}
