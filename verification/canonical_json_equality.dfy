/**
 The printer decides equality up to key order on every value without tied keys.
 */
module CanonicalJsonEquality {
  import opened Options
  import opened JsonValues
  import opened CanonicalJson
  import opened CanonicalJsonParser

  predicate Present(e: Entry) { !e.value.Undefined? }

  /** Equality of values up to the order of keys and members without a value. */
  ghost predicate SameUpToOrder(v: Json, w: Json)
    decreases v, 1
  {
    match v
    case Array(items) =>
      w.Array? && |items| == |w.items| && forall i :: 0 <= i < |items| ==> SameUpToOrder(items[i], w.items[i])
    case Record(entries) =>
      && w.Record?
      && (forall i :: 0 <= i < |entries| && Present(entries[i]) ==>
            exists j :: 0 <= j < |w.entries| && SameMember(entries[i], w.entries[j]))
      && (forall j :: 0 <= j < |w.entries| && Present(w.entries[j]) ==>
            exists i :: 0 <= i < |entries| && SameMember(entries[i], w.entries[j]))
    case _ => v == w
  }

  ghost predicate SameMember(e: Entry, f: Entry)
    decreases e, 0
  {
    Present(e) && Present(f) && e.key == f.key && SameUpToOrder(e.value, f.value)
  }

  // ---------------------------------------------------------------- ties

  /** The comparison puts one of the keys first. */
  predicate Apart(less: KeyOrder, a: Text, b: Text) { less(a, b) || less(b, a) }

  ghost predicate KeysApart(less: KeyOrder, s: seq<Entry>) {
    forall i, j :: 0 <= i < j < |s| && Present(s[i]) && Present(s[j]) ==> Apart(less, s[i].key, s[j].key)
  }

  /** No record in the value has two members whose keys compare equal. */
  ghost predicate NoTies(less: KeyOrder, v: Json) {
    match v
    case Array(items) => forall i :: 0 <= i < |items| ==> NoTies(less, items[i])
    case Record(entries) => KeysApart(less, entries) && forall i :: 0 <= i < |entries| ==> NoTies(less, entries[i].value)
    case _ => true
  }

  /** A comparison that separates distinct keys leaves no ties. */
  lemma {:induction false} SeparatingLeavesNoTies(less: KeyOrder, v: Json)
    requires Separates(less) && WellFormed(v)
    ensures NoTies(less, v)
    decreases v
  {
    match v
    case Array(items) => forall i | 0 <= i < |items| { SeparatingLeavesNoTies(less, items[i]); }
    case Record(entries) =>
      forall i | 0 <= i < |entries| { SeparatingLeavesNoTies(less, entries[i].value); }
      assert KeysApart(less, entries) by {
        forall i, j | 0 <= i < j < |entries| ensures Apart(less, entries[i].key, entries[j].key) {
          assert entries[i].key != entries[j].key;
        }
      }
    case _ =>
  }

  // ---------------------------------------------------------------- sorted entry lists

  ghost predicate StrictlySorted(less: KeyOrder, s: seq<Entry>) {
    forall i, j :: 0 <= i < j < |s| ==> less(s[i].key, s[j].key)
  }

  ghost predicate AllApart(less: KeyOrder, s: seq<Entry>) {
    forall i, j :: 0 <= i < j < |s| ==> Apart(less, s[i].key, s[j].key)
  }

  lemma InsertKeepsSorted(less: KeyOrder, e: Entry, s: seq<Entry>)
    requires StrictWeak(less) && StrictlySorted(less, s)
    requires forall x :: x in s ==> Apart(less, e.key, x.key)
    ensures StrictlySorted(less, Insert(less, e, s))
  {
    if s == [] || !less(s[0].key, e.key) {
      if s != [] {
        assert s[0] in s;
        forall i | 0 <= i < |s| ensures less(e.key, s[i].key) {
          if i > 0 { assert less(s[0].key, s[i].key); }
        }
      }
    } else {
      assert forall x :: x in s[1..] ==> x in s;
      InsertKeepsSorted(less, e, s[1..]);
      InsertMembers(less, e, s[1..]);
      var rest := Insert(less, e, s[1..]);
      forall i | 0 <= i < |rest| ensures less(s[0].key, rest[i].key) {
        assert rest[i] in rest;
        if rest[i] != e {
          var j :| 0 <= j < |s[1..]| && s[1..][j] == rest[i];
          assert s[j + 1] == rest[i];
        }
      }
    }
  }

  lemma SortedIsSorted(less: KeyOrder, s: seq<Entry>)
    requires StrictWeak(less) && AllApart(less, s)
    ensures StrictlySorted(less, Sorted(less, s))
  {
    if s != [] {
      assert AllApart(less, s[1..]) by {
        forall i, j | 0 <= i < j < |s[1..]| ensures Apart(less, s[1..][i].key, s[1..][j].key) {
          assert Apart(less, s[i + 1].key, s[j + 1].key);
        }
      }
      SortedIsSorted(less, s[1..]);
      SortedMembers(less, s[1..]);
      forall x | x in Sorted(less, s[1..]) ensures Apart(less, s[0].key, x.key) {
        var j :| 0 <= j < |s[1..]| && s[1..][j] == x;
        assert Apart(less, s[0].key, s[j + 1].key);
      }
      InsertKeepsSorted(less, s[0], Sorted(less, s[1..]));
    }
  }

  function Head(s: seq<Entry>): (r: Option<Entry>)
    ensures r.None? <==> s == []
    ensures r.Some? ==> r.value in s
  {
    if s == [] then None else Some(s[0])
  }

  /** A strictly sorted list is determined by its members. */
  lemma {:induction false} SortedUnique(less: KeyOrder, s: seq<Entry>, t: seq<Entry>)
    requires StrictWeak(less) && StrictlySorted(less, s) && StrictlySorted(less, t)
    requires forall x :: x in s <==> x in t
    ensures s == t
    decreases |s|
  {
    if s == [] {
      var head := Head(t);
    } else {
      assert s[0] in t;
      assert t[0] in s;
      var i :| 0 <= i < |t| && t[i] == s[0];
      var j :| 0 <= j < |s| && s[j] == t[0];
      assert i == 0;
      forall x ensures x in s[1..] <==> x in t[1..] {
        TailMembers(less, s, x);
        TailMembers(less, t, x);
      }
      SortedUnique(less, s[1..], t[1..]);
      assert s == [s[0]] + s[1..] && t == [t[0]] + t[1..];
    }
  }

  lemma TailMembers(less: KeyOrder, s: seq<Entry>, x: Entry)
    requires StrictWeak(less) && StrictlySorted(less, s) && s != []
    ensures x in s[1..] <==> x in s && x != s[0]
  {
    if x in s[1..] {
      var i :| 0 <= i < |s[1..]| && s[1..][i] == x;
      assert less(s[0].key, s[i + 1].key);
    }
    if x in s && x != s[0] {
      var i :| 0 <= i < |s| && s[i] == x;
      assert s[1..][i - 1] == x;
    }
  }

  // ---------------------------------------------------------------- canonical entries

  ghost predicate ComesFrom(less: KeyOrder, entries: seq<Entry>, i: int, x: Entry) {
    0 <= i < |entries| && Present(entries[i]) && x == Entry(entries[i].key, Canonical(less, entries[i].value))
  }

  lemma {:induction false} CanonicalMembers(less: KeyOrder, entries: seq<Entry>, x: Entry)
    ensures x in CanonicalEntries(less, entries) <==> exists i :: ComesFrom(less, entries, i, x)
    decreases |entries|
  {
    if entries != [] {
      var rest := entries[1..];
      CanonicalMembers(less, rest, x);
      if x in CanonicalEntries(less, rest) {
        var i :| ComesFrom(less, rest, i, x);
        assert ComesFrom(less, entries, i + 1, x);
      }
      if i :| ComesFrom(less, entries, i, x) {
        if i > 0 { assert ComesFrom(less, rest, i - 1, x); }
      }
      if Present(entries[0]) && x == Entry(entries[0].key, Canonical(less, entries[0].value)) {
        assert ComesFrom(less, entries, 0, x);
      }
    }
  }

  lemma {:induction false} CanonicalApart(less: KeyOrder, entries: seq<Entry>)
    requires KeysApart(less, entries)
    ensures AllApart(less, CanonicalEntries(less, entries))
    decreases |entries|
  {
    if entries != [] {
      var rest := entries[1..];
      forall i, j | 0 <= i < j < |rest| && Present(rest[i]) && Present(rest[j]) ensures Apart(less, rest[i].key, rest[j].key) {
        assert Apart(less, entries[i + 1].key, entries[j + 1].key);
      }
      CanonicalApart(less, rest);
      if Present(entries[0]) {
        var tail := CanonicalEntries(less, rest);
        forall j | 0 <= j < |tail| ensures Apart(less, entries[0].key, tail[j].key) {
          CanonicalMembers(less, rest, tail[j]);
          var i :| ComesFrom(less, rest, i, tail[j]);
          assert Apart(less, entries[0].key, entries[i + 1].key);
        }
      }
    }
  }

  // ---------------------------------------------------------------- canonical values decide equality

  /** Without ties, two values are equal up to key order exactly when they have the same key-sorted form. */
  lemma CanonicalDecides(less: KeyOrder, v: Json, w: Json)
    requires StrictWeak(less) && WellFormed(v) && WellFormed(w) && NoTies(less, v)
    ensures SameUpToOrder(v, w) <==> Canonical(less, v) == Canonical(less, w)
  {
    if SameUpToOrder(v, w) { SameGivesCanonical(less, v, w); }
    if Canonical(less, v) == Canonical(less, w) { CanonicalGivesSame(less, v, w); }
  }

  lemma CanonicalItem(less: KeyOrder, items: seq<Json>, i: nat)
    requires i < |items|
    ensures CanonicalItems(less, items)[i] == Canonical(less, items[i])
    decreases |items|
  {
    if i > 0 { CanonicalItem(less, items[1..], i - 1); }
  }

  /** Values with the same key-sorted form are equal, whatever the comparison. */
  lemma {:induction false} CanonicalGivesSame(less: KeyOrder, v: Json, w: Json)
    requires Canonical(less, v) == Canonical(less, w)
    ensures SameUpToOrder(v, w)
    decreases v
  {
    if v.Array? && w.Array? {
      forall i | 0 <= i < |v.items| ensures SameUpToOrder(v.items[i], w.items[i]) {
        CanonicalItem(less, v.items, i);
        CanonicalItem(less, w.items, i);
        CanonicalGivesSame(less, v.items[i], w.items[i]);
      }
    } else if v.Record? && w.Record? {
      forall i | 0 <= i < |v.entries| && Present(v.entries[i])
        ensures exists j :: 0 <= j < |w.entries| && SameMember(v.entries[i], w.entries[j])
      {
        var j := EntryIn(less, v.entries, w.entries, i);
        CanonicalGivesSame(less, v.entries[i].value, w.entries[j].value);
        assert SameMember(v.entries[i], w.entries[j]);
      }
      forall j | 0 <= j < |w.entries| && Present(w.entries[j])
        ensures exists i :: 0 <= i < |v.entries| && SameMember(v.entries[i], w.entries[j])
      {
        var i := EntryIn(less, w.entries, v.entries, j);
        CanonicalGivesSame(less, v.entries[i].value, w.entries[j].value);
        assert SameMember(v.entries[i], w.entries[j]);
      }
    }
  }

  /** In two lists with the same sorted form, each present entry has its counterpart. */
  lemma EntryIn(less: KeyOrder, from: seq<Entry>, other: seq<Entry>, i: nat) returns (j: nat)
    requires i < |from| && Present(from[i])
    requires Sorted(less, CanonicalEntries(less, from)) == Sorted(less, CanonicalEntries(less, other))
    ensures j < |other| && Present(other[j]) && other[j].key == from[i].key
    ensures Canonical(less, other[j].value) == Canonical(less, from[i].value)
  {
    var x := Entry(from[i].key, Canonical(less, from[i].value));
    assert ComesFrom(less, from, i, x);
    CanonicalMembers(less, from, x);
    SortedMembers(less, CanonicalEntries(less, from));
    SortedMembers(less, CanonicalEntries(less, other));
    CanonicalMembers(less, other, x);
    j :| ComesFrom(less, other, j, x);
  }

  /** Equal values without ties have the same key-sorted form. */
  lemma {:induction false} SameGivesCanonical(less: KeyOrder, v: Json, w: Json)
    requires StrictWeak(less) && WellFormed(v) && WellFormed(w) && NoTies(less, v)
    requires SameUpToOrder(v, w)
    ensures Canonical(less, v) == Canonical(less, w)
    decreases v, 1
  {
    if v.Array? {
      var s, t := CanonicalItems(less, v.items), CanonicalItems(less, w.items);
      forall i | 0 <= i < |s| ensures s[i] == t[i] {
        CanonicalItem(less, v.items, i);
        CanonicalItem(less, w.items, i);
        SameGivesCanonical(less, v.items[i], w.items[i]);
      }
    } else if v.Record? {
      var s, t := CanonicalEntries(less, v.entries), CanonicalEntries(less, w.entries);
      SameKeysApart(less, v, w);
      CanonicalApart(less, v.entries);
      CanonicalApart(less, w.entries);
      SortedIsSorted(less, s);
      SortedIsSorted(less, t);
      SortedMembers(less, s);
      SortedMembers(less, t);
      forall x ensures x in Sorted(less, s) <==> x in Sorted(less, t) { SameGivesMembers(less, v, w, x); }
      SortedUnique(less, Sorted(less, s), Sorted(less, t));
    }
  }

  /** The member of the one record that is the same as a present member of the other. */
  lemma Counterpart(v: Json, w: Json, j: nat) returns (i: nat)
    requires v.Record? && w.Record? && SameUpToOrder(v, w) && j < |w.entries| && Present(w.entries[j])
    ensures i < |v.entries| && SameMember(v.entries[i], w.entries[j])
    ensures Present(v.entries[i]) && v.entries[i].key == w.entries[j].key
  {
    i :| 0 <= i < |v.entries| && SameMember(v.entries[i], w.entries[j]);
  }

  lemma TwoApart(less: KeyOrder, s: seq<Entry>, i: nat, j: nat)
    requires KeysApart(less, s) && i < |s| && j < |s| && i != j && Present(s[i]) && Present(s[j])
    ensures Apart(less, s[i].key, s[j].key)
  {
    if i < j { assert Apart(less, s[i].key, s[j].key); } else { assert Apart(less, s[j].key, s[i].key); }
  }

  lemma SamePairApart(less: KeyOrder, v: Json, w: Json, j: nat, k: nat)
    requires v.Record? && w.Record? && SameUpToOrder(v, w) && KeysApart(less, v.entries)
    requires j < |w.entries| && k < |w.entries| && w.entries[j].key != w.entries[k].key
    requires Present(w.entries[j]) && Present(w.entries[k])
    ensures Apart(less, w.entries[j].key, w.entries[k].key)
  {
    hide SameUpToOrder, SameMember, KeysApart;
    var i := Counterpart(v, w, j);
    var l := Counterpart(v, w, k);
    TwoApart(less, v.entries, i, l);
  }

  lemma SameKeysApart(less: KeyOrder, v: Json, w: Json)
    requires v.Record? && w.Record? && SameUpToOrder(v, w) && WellFormed(w) && KeysApart(less, v.entries)
    ensures KeysApart(less, w.entries)
  {
    hide SameUpToOrder, Apart;
    forall j, k | 0 <= j < k < |w.entries| && Present(w.entries[j]) && Present(w.entries[k])
      ensures Apart(less, w.entries[j].key, w.entries[k].key)
    {
      SamePairApart(less, v, w, j, k);
    }
  }

  lemma SameGivesMembers(less: KeyOrder, v: Json, w: Json, x: Entry)
    requires StrictWeak(less) && v.Record? && w.Record? && WellFormed(v) && WellFormed(w) && NoTies(less, v)
    requires SameUpToOrder(v, w)
    ensures x in CanonicalEntries(less, v.entries) <==> x in CanonicalEntries(less, w.entries)
    decreases v, 0
  {
    CanonicalMembers(less, v.entries, x);
    CanonicalMembers(less, w.entries, x);
    if i :| ComesFrom(less, v.entries, i, x) {
      var j :| 0 <= j < |w.entries| && SameMember(v.entries[i], w.entries[j]);
      SameGivesCanonical(less, v.entries[i].value, w.entries[j].value);
      assert ComesFrom(less, w.entries, j, x);
    }
    if j :| ComesFrom(less, w.entries, j, x) {
      var i :| 0 <= i < |v.entries| && SameMember(v.entries[i], w.entries[j]);
      SameGivesCanonical(less, v.entries[i].value, w.entries[j].value);
      assert ComesFrom(less, v.entries, i, x);
    }
  }

  // ---------------------------------------------------------------- the printer

  lemma {:induction false} CanonicalIsClean(less: KeyOrder, v: Json)
    requires Printable(v)
    ensures Clean(Canonical(less, v))
    decreases v
  {
    match v
    case Array(items) =>
      forall i | 0 <= i < |items| ensures Clean(CanonicalItems(less, items)[i]) {
        CanonicalItem(less, items, i);
        CanonicalIsClean(less, items[i]);
      }
    case Record(entries) =>
      var s := CanonicalEntries(less, entries);
      SortedMembers(less, s);
      forall k | 0 <= k < |Sorted(less, s)| ensures Clean(Sorted(less, s)[k].value) {
        assert Sorted(less, s)[k] in s;
        CanonicalMembers(less, entries, Sorted(less, s)[k]);
        var i :| ComesFrom(less, entries, i, Sorted(less, s)[k]);
        CanonicalIsClean(less, entries[i].value);
      }
    case _ =>
  }

  /** What the printer prints, the parser reads back as the key-sorted value. */
  lemma ParsePrinted(less: KeyOrder, v: Json)
    requires Printable(v)
    ensures Print(less, v).Some? && ParseValue(Print(less, v).value) == Some(Parsed(Canonical(less, v), []))
  {
    PrintIsRender(less, v);
    CanonicalIsClean(less, v);
    ValueRoundTrip(Canonical(less, v), []);
    assert Render(Canonical(less, v)) + [] == Render(Canonical(less, v));
  }

  /** The printer throws exactly on values that are not JSON. */
  lemma ThrowsExactly(less: KeyOrder, v: Json)
    ensures Print(less, v).None? <==> !Printable(v)
  {
    PrintIsRender(less, v);
  }

  lemma SamePrintSameCanonical(less: KeyOrder, v: Json, w: Json)
    requires Printable(v) && Printable(w)
    ensures Print(less, v) == Print(less, w) <==> Canonical(less, v) == Canonical(less, w)
  {
    PrintIsRender(less, v);
    PrintIsRender(less, w);
    ParsePrinted(less, v);
    ParsePrinted(less, w);
  }

  ghost predicate Decides(less: KeyOrder, v: Json, w: Json) {
    WellFormed(v) && WellFormed(w) && Printable(v) && Printable(w) ==>
      (Print(less, v) == Print(less, w) <==> SameUpToOrder(v, w))
  }

  /** A value without ties prints like another exactly when they are equal. */
  lemma UntiedPrintDecides(less: KeyOrder, v: Json, w: Json)
    requires StrictWeak(less) && NoTies(less, v)
    ensures Decides(less, v, w)
  {
    if WellFormed(v) && WellFormed(w) && Printable(v) && Printable(w) {
      SamePrintSameCanonical(less, v, w);
      CanonicalDecides(less, v, w);
    }
  }

  /** With a separating comparison two values print the same text exactly when they are equal. */
  lemma PrintDecidesEquality(less: KeyOrder, v: Json, w: Json)
    requires StrictWeak(less) && Separates(less)
    ensures Decides(less, v, w)
  {
    if WellFormed(v) {
      SeparatingLeavesNoTies(less, v);
      UntiedPrintDecides(less, v, w);
    }
  }
}
