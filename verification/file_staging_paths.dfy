/**
 What staging leaves at every path of the arguments: each source gives way to its staged file, in depth-first
 order, and nothing else changes.
 */
module FileStagingPaths {
  import opened Options
  import opened JsonValues
  import opened FileStaging

  datatype Step = Index(i: nat) | Member(key: Text)

  type Path = seq<Step>

  function Child(v: Json, step: Step): Option<Json> {
    match step
    case Index(i) => if v.Array? && i < |v.items| then Some(v.items[i]) else None
    case Member(key) => if v.Record? && Has(v.entries, key) then Some(Get(v.entries, key)) else None
  }

  /** The value at the path, if there is one. */
  function At(v: Json, path: Path): Option<Json>
    decreases |path|
  {
    if path == [] then Some(v)
    else match Child(v, path[0])
      case None => None
      case Some(child) => At(child, path[1..])
  }

  /** The path leads to a value and enters no source on the way. */
  predicate Open(parse: Parser, v: Json, path: Path)
    decreases |path|
  {
    path == [] || (parse(v).None? && Child(v, path[0]).Some? && Open(parse, Child(v, path[0]).value, path[1..]))
  }

  /** Neither does it go through a member called `__proto__`. */
  predicate Kept(parse: Parser, v: Json, path: Path) {
    Open(parse, v, path) && Member(PROTO) !in path
  }

  /** The number of sources that stand before the step, among the parts of the value. */
  function SourcesLeft(parse: Parser, v: Json, step: Step): nat
    requires Child(v, step).Some?
  {
    match step
    case Index(i) => |SourcesOfItems(parse, v.items[..i])|
    case Member(key) => |SourcesOfEntries(parse, v.entries[..Find(v.entries, key)])|
  }

  /** The number of sources that stand before the path. */
  function SourcesBefore(parse: Parser, v: Json, path: Path): nat
    requires Open(parse, v, path)
    decreases |path|
  {
    if path == [] then 0
    else SourcesLeft(parse, v, path[0]) + SourcesBefore(parse, Child(v, path[0]).value, path[1..])
  }

  lemma {:induction false} OpenLeads(parse: Parser, v: Json, path: Path)
    requires Open(parse, v, path)
    ensures At(v, path).Some?
    decreases |path|
  {
    if path != [] { OpenLeads(parse, Child(v, path[0]).value, path[1..]); }
  }

  // ---------------------------------------------------------------- rewriting step by step

  lemma {:induction false} RewriteItem(parse: Parser, keys: nat -> Text, items: seq<Json>, n: nat, i: nat)
    requires i < |items|
    ensures |RewriteItems(parse, keys, items, n)| == |items|
    ensures RewriteItems(parse, keys, items, n)[i] == Rewrite(parse, keys, items[i], n + |SourcesOfItems(parse, items[..i])|)
    decreases i
  {
    RewriteLength(parse, keys, items, n);
    if i > 0 {
      RewriteItem(parse, keys, items[1..], n + |Sources(parse, items[0])|, i - 1);
      assert items[..i][0] == items[0] && items[..i][1..] == items[1..][..i - 1];
    } else {
      assert items[..0] == [];
    }
  }

  lemma {:induction false} RewriteLength(parse: Parser, keys: nat -> Text, items: seq<Json>, n: nat)
    ensures |RewriteItems(parse, keys, items, n)| == |items|
    decreases |items|
  {
    if items != [] { RewriteLength(parse, keys, items[1..], n + |Sources(parse, items[0])|); }
  }

  lemma {:induction false} RewriteMember(parse: Parser, keys: nat -> Text, entries: seq<Entry>, n: nat, key: Text)
    requires key != PROTO
    ensures
      var r := RewriteEntries(parse, keys, entries, n);
      && Has(r, key) == Has(entries, key)
      && (Has(entries, key) ==>
            Get(r, key) == Rewrite(parse, keys, Get(entries, key), n + |SourcesOfEntries(parse, entries[..Find(entries, key)])|))
    decreases |entries|
  {
    if entries != [] {
      var rest := entries[1..];
      var before := |Sources(parse, entries[0].value)|;
      var tail := RewriteEntries(parse, keys, rest, n + before);
      var r := RewriteEntries(parse, keys, entries, n);
      RewriteMember(parse, keys, rest, n + before, key);
      if entries[0].key == PROTO {
        assert r == tail;
      } else {
        assert r[0].key == entries[0].key && r[1..] == tail;
      }
      if entries[0].key == key {
        assert entries[..0] == [];
      } else if Has(entries, key) {
        var at := Find(entries, key);
        assert entries[..at][0] == entries[0] && entries[..at][1..] == rest[..at - 1];
      }
    }
  }

  lemma {:induction false} NoProtoLeft(parse: Parser, keys: nat -> Text, entries: seq<Entry>, n: nat)
    ensures !Has(RewriteEntries(parse, keys, entries, n), PROTO)
    decreases |entries|
  {
    if entries != [] {
      var m := n + |Sources(parse, entries[0].value)|;
      var head := Put([], entries[0].key, Rewrite(parse, keys, entries[0].value, n));
      assert RewriteEntries(parse, keys, entries, n) == head + RewriteEntries(parse, keys, entries[1..], m);
      NoProtoLeft(parse, keys, entries[1..], m);
      hide RewriteEntries, Rewrite, Sources;
      var tail := RewriteEntries(parse, keys, entries[1..], m);
      if entries[0].key == PROTO { assert head + tail == tail; } else { assert (head + tail)[1..] == tail; }
    }
  }

  lemma RewriteIndex(parse: Parser, keys: nat -> Text, v: Json, n: nat, i: nat)
    requires parse(v).None?
    ensures Child(Rewrite(parse, keys, v, n), Index(i)) ==
      if Child(v, Index(i)).None? then None
      else Some(Rewrite(parse, keys, Child(v, Index(i)).value, n + SourcesLeft(parse, v, Index(i))))
  {
    if v.Array? {
      RewriteLength(parse, keys, v.items, n);
      if i < |v.items| { RewriteItem(parse, keys, v.items, n, i); }
    }
  }

  /** Outside sources the steps that can be taken stay the same, save `__proto__`. */
  lemma RewriteChild(parse: Parser, keys: nat -> Text, v: Json, n: nat, step: Step)
    requires parse(v).None?
    ensures Child(Rewrite(parse, keys, v, n), step) ==
      if step == Member(PROTO) || Child(v, step).None? then None
      else Some(Rewrite(parse, keys, Child(v, step).value, n + SourcesLeft(parse, v, step)))
  {
    if step.Index? {
      RewriteIndex(parse, keys, v, n, step.i);
    } else if v.Record? && step.key == PROTO {
      NoProtoLeft(parse, keys, v.entries, n);
    } else if v.Record? {
      RewriteMember(parse, keys, v.entries, n, step.key);
    }
  }

  lemma AtStep(v: Json, path: Path)
    requires path != [] && Child(v, path[0]).Some?
    ensures At(v, path) == At(Child(v, path[0]).value, path[1..])
  {
  }

  /** Rewriting and following a path commute. */
  lemma {:induction false} RewriteAt(parse: Parser, keys: nat -> Text, v: Json, n: nat, path: Path)
    requires Kept(parse, v, path)
    ensures At(v, path).Some?
    ensures At(Rewrite(parse, keys, v, n), path)
         == Some(Rewrite(parse, keys, At(v, path).value, n + SourcesBefore(parse, v, path)))
    decreases |path|
  {
    if path != [] {
      var child, m := Child(v, path[0]).value, n + SourcesLeft(parse, v, path[0]);
      assert SourcesBefore(parse, v, path) == SourcesLeft(parse, v, path[0]) + SourcesBefore(parse, child, path[1..]);
      assert Kept(parse, child, path[1..]) && path[0] != Member(PROTO);
      hide Rewrite, Child, SourcesLeft, Sources, At, SourcesBefore, Kept, Open;
      RewriteChild(parse, keys, v, n, path[0]);
      AtStep(v, path);
      AtStep(Rewrite(parse, keys, v, n), path);
      RewriteAt(parse, keys, child, m, path[1..]);
    }
  }

  /** The path ends at a source, or inside the record that replaces one. */
  predicate InStaged(parse: Parser, v: Json, path: Path)
    decreases |path|
  {
    parse(v).Some?
    || (path != [] && path[0] != Member(PROTO) && Child(v, path[0]).Some? && InStaged(parse, Child(v, path[0]).value, path[1..]))
  }

  /** Every path of the rewritten value is a path of the original, or lies in a staged record. */
  lemma {:induction false} NoOtherPaths(parse: Parser, keys: nat -> Text, v: Json, n: nat, path: Path)
    requires At(Rewrite(parse, keys, v, n), path).Some?
    ensures Kept(parse, v, path) || InStaged(parse, v, path)
    decreases |path|
  {
    if path != [] && parse(v).None? {
      RewriteChild(parse, keys, v, n, path[0]);
      hide Rewrite, Child;
      NoOtherPaths(parse, keys, Child(v, path[0]).value, n + SourcesLeft(parse, v, path[0]), path[1..]);
    }
  }

  // ---------------------------------------------------------------- the sources in depth-first order

  lemma {:induction false} ItemsSplit(parse: Parser, items: seq<Json>, i: nat)
    requires i <= |items|
    ensures SourcesOfItems(parse, items) == SourcesOfItems(parse, items[..i]) + SourcesOfItems(parse, items[i..])
    decreases i
  {
    if i == 0 {
      assert items[..0] == [] && items[0..] == items;
    } else {
      ItemsSplit(parse, items[1..], i - 1);
      assert items[..i][0] == items[0] && items[..i][1..] == items[1..][..i - 1] && items[1..][i - 1..] == items[i..];
    }
  }

  lemma {:induction false} EntriesSplit(parse: Parser, entries: seq<Entry>, i: nat)
    requires i <= |entries|
    ensures SourcesOfEntries(parse, entries) == SourcesOfEntries(parse, entries[..i]) + SourcesOfEntries(parse, entries[i..])
    decreases i
  {
    if i == 0 {
      assert entries[..0] == [] && entries[0..] == entries;
    } else {
      EntriesSplit(parse, entries[1..], i - 1);
      assert entries[..i][0] == entries[0] && entries[..i][1..] == entries[1..][..i - 1] && entries[1..][i - 1..] == entries[i..];
    }
  }

  /** The sources of a part are a stretch of the sources of the whole. */
  lemma ChildSources(parse: Parser, v: Json, step: Step)
    requires parse(v).None? && Child(v, step).Some?
    ensures
      var k, part := SourcesLeft(parse, v, step), Sources(parse, Child(v, step).value);
      k + |part| <= |Sources(parse, v)| && Sources(parse, v)[k..k + |part|] == part
  {
    match step
    case Index(i) =>
      ItemsSplit(parse, v.items, i);
      assert v.items[i..][0] == v.items[i];
    case Member(key) =>
      var i := Find(v.entries, key);
      EntriesSplit(parse, v.entries, i);
      assert v.entries[i..][0] == v.entries[i];
  }

  lemma SliceOfSlice<T>(s: seq<T>, a: nat, b: nat, c: nat, d: nat)
    requires a <= b <= |s| && c <= d <= b - a
    ensures s[a..b][c..d] == s[a + c..a + d]
  {
    forall i | 0 <= i < d - c ensures s[a..b][c..d][i] == s[a + c..a + d][i] {
      assert s[a..b][c..d][i] == s[a..b][c + i] == s[a + c + i];
    }
  }

  /** The sources at a path are a stretch of the sources of the whole, after those that stand before it. */
  lemma {:induction false} SourcesAt(parse: Parser, v: Json, path: Path)
    requires Open(parse, v, path)
    ensures At(v, path).Some?
    ensures
      var k, part := SourcesBefore(parse, v, path), Sources(parse, At(v, path).value);
      k + |part| <= |Sources(parse, v)| && Sources(parse, v)[k..k + |part|] == part
    decreases |path|
  {
    if path != [] {
      hide Sources, Child;
      var child := Child(v, path[0]).value;
      ChildSources(parse, v, path[0]);
      SourcesAt(parse, child, path[1..]);
      var j, k := SourcesLeft(parse, v, path[0]), SourcesBefore(parse, child, path[1..]);
      var all, inner, part := Sources(parse, v), Sources(parse, child), Sources(parse, At(v, path).value);
      SliceOfSlice(all, j, j + |inner|, k, k + |part|);
    }
  }

  /** Position of a step among the parts of the value. */
  function Position(v: Json, step: Step): nat {
    match step
    case Index(i) => i
    case Member(key) => if v.Record? then Find(v.entries, key) else 0
  }

  /** The one path comes before the other: where they part, its step is the earlier one. */
  predicate Precedes(v: Json, p: Path, q: Path)
    decreases |p|
  {
    p != [] && q != [] && Child(v, p[0]).Some? && Child(v, q[0]).Some? &&
    if p[0] == q[0] then Precedes(Child(v, p[0]).value, p[1..], q[1..]) else Position(v, p[0]) < Position(v, q[0])
  }

  lemma LaterHasMore(parse: Parser, v: Json, step: Step, other: Step)
    requires parse(v).None? && Child(v, step).Some? && Child(v, other).Some? && Position(v, step) < Position(v, other)
    ensures SourcesLeft(parse, v, step) + |Sources(parse, Child(v, step).value)| <= SourcesLeft(parse, v, other)
  {
    var i, j := Position(v, step), Position(v, other);
    if v.Array? {
      ItemsSplit(parse, v.items[..j], i);
      assert v.items[..j][..i] == v.items[..i] && v.items[..j][i..][0] == v.items[i];
    } else {
      EntriesSplit(parse, v.entries[..j], i);
      assert v.entries[..j][..i] == v.entries[..i] && v.entries[..j][i..][0] == v.entries[i];
    }
  }

  /** Sources are numbered in depth-first order. */
  lemma {:induction false} NumberedInOrder(parse: Parser, v: Json, p: Path, q: Path)
    requires Open(parse, v, p) && Open(parse, v, q) && Precedes(v, p, q)
    requires At(v, p).Some? && parse(At(v, p).value).Some?
    ensures SourcesBefore(parse, v, p) < SourcesBefore(parse, v, q)
    decreases |p|
  {
    var child := Child(v, p[0]).value;
    if p[0] == q[0] {
      NumberedInOrder(parse, child, p[1..], q[1..]);
    } else {
      SourcesAt(parse, child, p[1..]);
      LaterHasMore(parse, v, p[0], q[0]);
    }
  }

  // ---------------------------------------------------------------- every source has its path

  lemma {:induction false} SourceInItems(parse: Parser, items: seq<Json>, k: nat) returns (i: nat)
    requires k < |SourcesOfItems(parse, items)|
    ensures i < |items|
    ensures |SourcesOfItems(parse, items[..i])| <= k < |SourcesOfItems(parse, items[..i])| + |Sources(parse, items[i])|
    decreases |items|
  {
    var first := |Sources(parse, items[0])|;
    if k < first {
      i := 0;
      assert items[..0] == [];
    } else {
      i := SourceInItems(parse, items[1..], k - first);
      i := i + 1;
      assert items[..i][0] == items[0] && items[..i][1..] == items[1..][..i - 1];
    }
  }

  lemma {:induction false} SourceInEntries(parse: Parser, entries: seq<Entry>, k: nat) returns (i: nat)
    requires k < |SourcesOfEntries(parse, entries)|
    ensures i < |entries|
    ensures |SourcesOfEntries(parse, entries[..i])| <= k < |SourcesOfEntries(parse, entries[..i])| + |Sources(parse, entries[i].value)|
    decreases |entries|
  {
    var first := |Sources(parse, entries[0].value)|;
    if k < first {
      i := 0;
      assert entries[..0] == [];
    } else {
      i := SourceInEntries(parse, entries[1..], k - first);
      i := i + 1;
      assert entries[..i][0] == entries[0] && entries[..i][1..] == entries[1..][..i - 1];
    }
  }

  lemma SourceStep(parse: Parser, v: Json, k: nat) returns (step: Step)
    requires WellFormed(v) && parse(v).None? && k < |Sources(parse, v)|
    ensures Child(v, step).Some? && WellFormed(Child(v, step).value) && Child(v, step).value < v
    ensures SourcesLeft(parse, v, step) <= k < SourcesLeft(parse, v, step) + |Sources(parse, Child(v, step).value)|
  {
    if v.Array? {
      var i := SourceInItems(parse, v.items, k);
      step := Index(i);
    } else {
      var i := SourceInEntries(parse, v.entries, k);
      step := Member(v.entries[i].key);
      assert Find(v.entries, v.entries[i].key) == i;
    }
  }

  /** Each source stands at the end of a path that enters no other. */
  lemma {:induction false} SourceHasPath(parse: Parser, v: Json, k: nat) returns (path: Path)
    requires WellFormed(v) && k < |Sources(parse, v)|
    ensures Open(parse, v, path) && SourcesBefore(parse, v, path) == k
    ensures At(v, path).Some? && parse(At(v, path).value) == Some(Sources(parse, v)[k])
    decreases v
  {
    if parse(v).Some? {
      path := [];
    } else {
      var step := SourceStep(parse, v, k);
      var child := Child(v, step).value;
      ChildSources(parse, v, step);
      hide Sources, Child;
      var rest := SourceHasPath(parse, child, k - SourcesLeft(parse, v, step));
      path := [step] + rest;
      assert path[1..] == rest;
      var j, all := SourcesLeft(parse, v, step), Sources(parse, v);
      assert all[j..j + |Sources(parse, child)|][k - j] == all[k];
    }
  }

  // ---------------------------------------------------------------- the result, path by path

  function MemberKeys(entries: seq<Entry>): seq<Text> {
    seq(|entries|, i requires 0 <= i < |entries| => entries[i].key)
  }

  function WithoutProto(keys: seq<Text>): seq<Text> {
    if keys == [] then [] else (if keys[0] == PROTO then [] else [keys[0]]) + WithoutProto(keys[1..])
  }

  /** What a value that is no source looks like once staged, seen from outside its parts. */
  predicate SameOutside(x: Json, y: Json) {
    match x
    case Array(items) => y.Array? && |y.items| == |items|
    case Record(entries) => y.Record? && MemberKeys(y.entries) == WithoutProto(MemberKeys(entries))
    case _ => y == x
  }

  lemma {:induction false} KeysStay(parse: Parser, keys: nat -> Text, entries: seq<Entry>, n: nat)
    ensures MemberKeys(RewriteEntries(parse, keys, entries, n)) == WithoutProto(MemberKeys(entries))
    decreases |entries|
  {
    if entries != [] {
      var m := n + |Sources(parse, entries[0].value)|;
      KeysStay(parse, keys, entries[1..], m);
      var tail, r := RewriteEntries(parse, keys, entries[1..], m), RewriteEntries(parse, keys, entries, n);
      assert MemberKeys(entries)[1..] == MemberKeys(entries[1..]);
      if entries[0].key == PROTO {
        assert r == tail;
      } else {
        assert MemberKeys(r) == [entries[0].key] + MemberKeys(tail);
      }
    }
  }

  lemma RewriteOutside(parse: Parser, keys: nat -> Text, x: Json, n: nat)
    requires parse(x).None?
    ensures SameOutside(x, Rewrite(parse, keys, x, n))
  {
    if x.Array? { RewriteLength(parse, keys, x.items, n); }
    if x.Record? { KeysStay(parse, keys, x.entries, n); }
  }

  lemma {:induction false} StagedMeansStored(replies: Replies, files: seq<FileSource>, p: Progress, i: nat)
    requires StageAll(replies, files, p).failure.None? && i < |files|
    ensures replies(p.count + i).Stored?
    decreases i
  {
    if i > 0 { StagedMeansStored(replies, files[1..], Progress(p.count + 1, p.calls + [files[0]]), i - 1); }
  }

  /**
   The staged value at every path of the original that enters no source and no `__proto__`: the k-th source
   has become the record of its file under the k-th key, and any other value is what it was but for its parts.
   */
  lemma StagedAtPath(parse: Parser, replies: Replies, v: Json, p: Progress, path: Path)
    requires StagedOutcome(parse, replies, v, p).0.Staged? && Kept(parse, v, path)
    ensures At(v, path).Some? && At(StagedOutcome(parse, replies, v, p).0.value, path).Some?
    ensures
      var x, y := At(v, path).value, At(StagedOutcome(parse, replies, v, p).0.value, path).value;
      var k := SourcesBefore(parse, v, path);
      if parse(x).None? then SameOutside(x, y)
      else
        && k < |Sources(parse, v)| && parse(x).value == Sources(parse, v)[k]
        && replies(p.count + k).Stored? && y == StagedRecord(Sources(parse, v)[k], replies(p.count + k).key)
  {
    RewriteAt(parse, KeyOf(replies), v, p.count, path);
    SourcesAt(parse, v, path);
    var x, k := At(v, path).value, SourcesBefore(parse, v, path);
    if parse(x).None? {
      RewriteOutside(parse, KeyOf(replies), x, p.count + k);
    } else {
      assert Sources(parse, x) == [parse(x).value];
      assert Sources(parse, v)[k..k + 1][0] == Sources(parse, v)[k];
      StagedMeansStored(replies, Sources(parse, v), p, k);
    }
  }

  /** The staged value has no other paths than those, and those inside staged records. */
  lemma StagedHasNoOtherPath(parse: Parser, replies: Replies, v: Json, p: Progress, path: Path)
    requires StagedOutcome(parse, replies, v, p).0.Staged?
    requires At(StagedOutcome(parse, replies, v, p).0.value, path).Some?
    ensures Kept(parse, v, path) || InStaged(parse, v, path)
  {
    NoOtherPaths(parse, KeyOf(replies), v, p.count, path);
  }

  /** Every source that is not under `__proto__` is replaced, each by the file stored for it. */
  lemma EverySourceReplaced(parse: Parser, replies: Replies, v: Json, p: Progress, k: nat) returns (path: Path)
    requires WellFormed(v) && k < |Sources(parse, v)| && StagedOutcome(parse, replies, v, p).0.Staged?
    ensures Open(parse, v, path) && At(v, path).Some? && parse(At(v, path).value) == Some(Sources(parse, v)[k])
    ensures replies(p.count + k).Stored?
    ensures Member(PROTO) !in path ==>
      At(StagedOutcome(parse, replies, v, p).0.value, path) == Some(StagedRecord(Sources(parse, v)[k], replies(p.count + k).key))
  {
    path := SourceHasPath(parse, v, k);
    StagedMeansStored(replies, Sources(parse, v), p, k);
    if Member(PROTO) !in path { StagedAtPath(parse, replies, v, p, path); }
  }
}
