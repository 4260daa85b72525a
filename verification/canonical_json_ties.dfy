/**
 What the printer does with tied keys, and the exact condition on a value under which it decides equality.
 Two tied members keep the order they came in, so swapping them changes the text of an equal value.
 */
module CanonicalJsonTies {
  import opened JsonValues
  import opened CanonicalJson
  import opened CanonicalJsonEquality

  // ---------------------------------------------------------------- sorting is stable

  /** Neither key comes first. */
  predicate Tied(less: KeyOrder, a: Text, b: Text) { !less(a, b) && !less(b, a) }

  /** The keys tied with the given one, in order. */
  function TiedKeys(less: KeyOrder, key: Text, s: seq<Entry>): seq<Text> {
    if s == [] then []
    else (if Tied(less, s[0].key, key) then [s[0].key] else []) + TiedKeys(less, key, s[1..])
  }

  lemma {:induction false} InsertIsStable(less: KeyOrder, key: Text, e: Entry, s: seq<Entry>)
    requires StrictWeak(less)
    ensures TiedKeys(less, key, Insert(less, e, s)) == TiedKeys(less, key, [e] + s)
    decreases |s|
  {
    assert ([e] + s)[1..] == s;
    if s != [] && less(s[0].key, e.key) {
      InsertIsStable(less, key, e, s[1..]);
      assert ([e] + s[1..])[1..] == s[1..];
      assert Insert(less, e, s)[1..] == Insert(less, e, s[1..]);
      assert !(Tied(less, s[0].key, key) && Tied(less, e.key, key));
    }
  }

  lemma {:induction false} SortIsStable(less: KeyOrder, key: Text, s: seq<Entry>)
    requires StrictWeak(less)
    ensures TiedKeys(less, key, Sorted(less, s)) == TiedKeys(less, key, s)
    decreases |s|
  {
    if s != [] {
      SortIsStable(less, key, s[1..]);
      InsertIsStable(less, key, s[0], Sorted(less, s[1..]));
      assert ([s[0]] + Sorted(less, s[1..]))[1..] == Sorted(less, s[1..]);
    }
  }

  /** The keys of present members tied with the given one, in order. */
  function TiedMembers(less: KeyOrder, key: Text, entries: seq<Entry>): seq<Text> {
    if entries == [] then []
    else
      (if Present(entries[0]) && Tied(less, entries[0].key, key) then [entries[0].key] else [])
      + TiedMembers(less, key, entries[1..])
  }

  lemma {:induction false} CanonicalKeepsTied(less: KeyOrder, key: Text, entries: seq<Entry>)
    ensures TiedKeys(less, key, CanonicalEntries(less, entries)) == TiedMembers(less, key, entries)
    decreases |entries|
  {
    if entries != [] {
      CanonicalKeepsTied(less, key, entries[1..]);
      if Present(entries[0]) {
        assert CanonicalEntries(less, entries)[1..] == CanonicalEntries(less, entries[1..]);
      }
    }
  }

  lemma {:induction false} TiedMembersAppend(less: KeyOrder, key: Text, a: seq<Entry>, b: seq<Entry>)
    ensures TiedMembers(less, key, a + b) == TiedMembers(less, key, a) + TiedMembers(less, key, b)
    decreases |a|
  {
    if a == [] {
      assert a + b == b;
    } else {
      assert (a + b)[1..] == a[1..] + b;
      TiedMembersAppend(less, key, a[1..], b);
    }
  }

  // ---------------------------------------------------------------- swapping two members

  function Swapped(s: seq<Entry>, i: nat, j: nat): seq<Entry>
    requires i < j < |s|
  {
    s[i := s[j]][j := s[i]]
  }

  /** The first tied key after the members before the place is that of the member at the place. */
  lemma TiedMemberAt(less: KeyOrder, key: Text, s: seq<Entry>, i: nat)
    requires i < |s| && Present(s[i]) && Tied(less, s[i].key, key)
    ensures
      var before := |TiedMembers(less, key, s[..i])|;
      before < |TiedMembers(less, key, s)| && TiedMembers(less, key, s)[before] == s[i].key
  {
    assert s == s[..i] + s[i..] && s[i..][0] == s[i];
    TiedMembersAppend(less, key, s[..i], s[i..]);
  }

  /** Swapping two tied members changes the key-sorted form. */
  lemma SwapChangesCanonical(less: KeyOrder, s: seq<Entry>, i: nat, j: nat)
    requires StrictWeak(less) && i < j < |s| && Present(s[i]) && Present(s[j])
    requires s[i].key != s[j].key && Tied(less, s[j].key, s[i].key)
    ensures Canonical(less, Record(s)) != Canonical(less, Record(Swapped(s, i, j)))
  {
    var key, t := s[i].key, Swapped(s, i, j);
    assert s[..i] == t[..i] && t[i] == s[j];
    TiedMemberAt(less, key, s, i);
    TiedMemberAt(less, key, t, i);
    hide Canonical, CanonicalEntries, TiedMembers;
    CanonicalKeepsTied(less, key, s);
    CanonicalKeepsTied(less, key, t);
    SortIsStable(less, key, CanonicalEntries(less, s));
    SortIsStable(less, key, CanonicalEntries(less, t));
    CanonicalRecord(less, s);
    CanonicalRecord(less, t);
  }

  lemma CanonicalRecord(less: KeyOrder, s: seq<Entry>)
    ensures Canonical(less, Record(s)) == Record(Sorted(less, CanonicalEntries(less, s)))
  {
  }

  lemma {:induction false} SameAsItself(v: Json)
    ensures SameUpToOrder(v, v)
    decreases v
  {
    match v
    case Array(items) => forall i | 0 <= i < |items| { SameAsItself(items[i]); }
    case Record(entries) =>
      forall i | 0 <= i < |entries| && Present(entries[i]) ensures SameMember(entries[i], entries[i]) {
        SameAsItself(entries[i].value);
      }
    case _ =>
  }

  /** Records whose members correspond are equal: each member of the one at its place in the other. */
  lemma SameByPlaces(s: seq<Entry>, t: seq<Entry>, place: int -> int)
    requires |s| == |t|
    requires forall i :: 0 <= i < |s| ==> 0 <= place(i) < |s| && place(place(i)) == i
    requires forall i :: 0 <= i < |s| && (Present(s[i]) || Present(t[place(i)])) ==> SameMember(s[i], t[place(i)])
    ensures SameUpToOrder(Record(s), Record(t))
  {
    hide SameMember;
    forall j | 0 <= j < |t| && Present(t[j]) ensures exists i :: 0 <= i < |s| && SameMember(s[i], t[j]) {
      assert SameMember(s[place(j)], t[place(place(j))]);
    }
  }

  lemma SwapIsSame(s: seq<Entry>, i: nat, j: nat)
    requires i < j < |s|
    ensures SameUpToOrder(Record(s), Record(Swapped(s, i, j)))
  {
    var t := Swapped(s, i, j);
    var place := k => if k == i then j as int else if k == j then i as int else k;
    forall k | 0 <= k < |s| && (Present(s[k]) || Present(t[place(k)])) ensures SameMember(s[k], t[place(k)]) {
      SameAsItself(s[k].value);
    }
    SameByPlaces(s, t, place);
  }

  lemma SwapStaysJson(s: seq<Entry>, i: nat, j: nat)
    requires i < j < |s| && WellFormed(Record(s)) && Printable(Record(s))
    ensures WellFormed(Record(Swapped(s, i, j))) && Printable(Record(Swapped(s, i, j)))
  {
    var t := Swapped(s, i, j);
    forall k, l | 0 <= k < l < |t| ensures t[k].key != t[l].key {
      var k', l' := if k == i then j else if k == j then i else k, if l == i then j else if l == j then i else l;
      assert t[k] == s[k'] && t[l] == s[l'] && k' != l';
    }
  }

  // ---------------------------------------------------------------- changing one part

  lemma ItemChange(less: KeyOrder, items: seq<Json>, i: nat, w: Json)
    requires i < |items| && WellFormed(Array(items)) && Printable(Array(items))
    requires WellFormed(w) && Printable(w) && SameUpToOrder(items[i], w) && Canonical(less, items[i]) != Canonical(less, w)
    ensures
      var whole := Array(items[i := w]);
      && WellFormed(whole) && Printable(whole) && SameUpToOrder(Array(items), whole)
      && Canonical(less, Array(items)) != Canonical(less, whole)
  {
    var changed := items[i := w];
    forall k | 0 <= k < |items| ensures SameUpToOrder(items[k], changed[k]) { SameAsItself(items[k]); }
    CanonicalItem(less, items, i);
    CanonicalItem(less, changed, i);
  }

  function Changed(s: seq<Entry>, i: nat, w: Json): seq<Entry>
    requires i < |s|
  {
    s[i := Entry(s[i].key, w)]
  }

  lemma MemberChangeIsSame(s: seq<Entry>, i: nat, w: Json)
    requires i < |s| && Present(s[i]) && !w.Undefined? && SameUpToOrder(s[i].value, w)
    ensures SameUpToOrder(Record(s), Record(Changed(s, i, w)))
  {
    var t := Changed(s, i, w);
    forall k | 0 <= k < |s| && (Present(s[k]) || Present(t[k])) ensures SameMember(s[k], t[k]) { SameAsItself(s[k].value); }
    SameByPlaces(s, t, k => k);
  }

  lemma MemberChangeShows(less: KeyOrder, s: seq<Entry>, i: nat, w: Json)
    requires i < |s| && Present(s[i]) && DistinctKeys(s) && Canonical(less, s[i].value) != Canonical(less, w)
    ensures Canonical(less, Record(s)) != Canonical(less, Record(Changed(s, i, w)))
  {
    var t := Changed(s, i, w);
    CanonicalRecord(less, s);
    CanonicalRecord(less, t);
    hide Canonical, CanonicalEntries, Sorted;
    if Canonical(less, Record(s)) == Canonical(less, Record(t)) {
      var j := EntryIn(less, s, t, i);
    }
  }

  lemma MemberChangeStaysJson(s: seq<Entry>, i: nat, w: Json)
    requires i < |s| && WellFormed(Record(s)) && Printable(Record(s)) && WellFormed(w) && Printable(w)
    ensures WellFormed(Record(Changed(s, i, w))) && Printable(Record(Changed(s, i, w)))
  {
    var t := Changed(s, i, w);
    assert forall k :: 0 <= k < |t| ==> t[k].key == s[k].key;
  }

  // ---------------------------------------------------------------- the exact condition

  /** A value with tied keys has an equal one that prints differently. */
  lemma {:induction false} TiesPrintApart(less: KeyOrder, v: Json) returns (w: Json)
    requires StrictWeak(less) && WellFormed(v) && Printable(v) && !NoTies(less, v)
    ensures WellFormed(w) && Printable(w) && SameUpToOrder(v, w) && Canonical(less, v) != Canonical(less, w)
    decreases v
  {
    if v.Array? {
      var i :| 0 <= i < |v.items| && !NoTies(less, v.items[i]);
      var item := TiesPrintApart(less, v.items[i]);
      ItemChange(less, v.items, i, item);
      return Array(v.items[i := item]);
    }
    var s := v.entries;
    if KeysApart(less, s) {
      var i :| 0 <= i < |s| && !NoTies(less, s[i].value);
      var value := TiesPrintApart(less, s[i].value);
      MemberChangeIsSame(s, i, value);
      MemberChangeShows(less, s, i, value);
      MemberChangeStaysJson(s, i, value);
      return Record(Changed(s, i, value));
    }
    var i, j :| 0 <= i < j < |s| && Present(s[i]) && Present(s[j]) && !Apart(less, s[i].key, s[j].key);
    SwapChangesCanonical(less, s, i, j);
    SwapIsSame(s, i, j);
    SwapStaysJson(s, i, j);
    return Record(Swapped(s, i, j));
  }

  /**
   The exact condition on a value: it prints like another exactly when they are equal, for every other value,
   if and only if no record in it has two members whose keys compare equal.
   */
  lemma DecidesExactlyWithoutTies(less: KeyOrder, v: Json)
    requires StrictWeak(less) && WellFormed(v) && Printable(v)
    ensures NoTies(less, v) <==> forall w :: Decides(less, v, w)
  {
    if NoTies(less, v) {
      forall w { UntiedPrintDecides(less, v, w); }
    } else {
      var w := TiesPrintApart(less, v);
      SamePrintSameCanonical(less, v, w);
      assert !Decides(less, v, w);
    }
  }

  function TwoKeys(a: Text, b: Text): Json {
    Record([Entry(a, Null), Entry(b, Null)])
  }

  lemma TwoKeysUnsorted(less: KeyOrder, a: Text, b: Text)
    requires !less(b, a)
    ensures Canonical(less, TwoKeys(a, b)) == TwoKeys(a, b)
  {
    var s := TwoKeys(a, b).entries;
    assert s[1..] == [Entry(b, Null)] && s[1..][1..] == [];
    assert CanonicalEntries(less, s[1..]) == [Entry(b, Null)];
    assert CanonicalEntries(less, s) == s;
    assert Sorted(less, s[1..][1..]) == [];
    assert Sorted(less, s[1..]) == [Entry(b, Null)];
  }

  lemma TwoKeysAreJson(a: Text, b: Text)
    requires a != b
    ensures WellFormed(TwoKeys(a, b)) && Printable(TwoKeys(a, b))
  {
  }

  lemma TwoKeysAreSame(a: Text, b: Text)
    ensures SameUpToOrder(TwoKeys(a, b), TwoKeys(b, a))
  {
    var s := TwoKeys(a, b).entries;
    assert Swapped(s, 0, 1) == TwoKeys(b, a).entries;
    hide SameUpToOrder;
    SwapIsSame(s, 0, 1);
  }

  /** Two keys that compare equal keep the order they came in. */
  lemma UnseparatedKeysPrintApart(less: KeyOrder, a: Text, b: Text)
    requires a != b && Tied(less, a, b)
    ensures !Decides(less, TwoKeys(a, b), TwoKeys(b, a))
  {
    assert TwoKeys(a, b).entries[0].key != TwoKeys(b, a).entries[0].key;
    hide TwoKeys, SameUpToOrder, WellFormed, Printable, Canonical, Print;
    TwoKeysAreJson(a, b);
    TwoKeysAreJson(b, a);
    TwoKeysAreSame(a, b);
    TwoKeysUnsorted(less, a, b);
    TwoKeysUnsorted(less, b, a);
    SamePrintSameCanonical(less, TwoKeys(a, b), TwoKeys(b, a));
  }

  /** For all values at once: the printer decides equality if and only if the comparison separates keys. */
  lemma DecidesExactlyWhenSeparating(less: KeyOrder)
    requires StrictWeak(less)
    ensures Separates(less) <==> forall v, w :: Decides(less, v, w)
  {
    if Separates(less) {
      forall v, w { PrintDecidesEquality(less, v, w); }
    } else {
      var a, b :| a != b && !less(a, b) && !less(b, a);
      UnseparatedKeysPrintApart(less, a, b);
    }
  }
}
