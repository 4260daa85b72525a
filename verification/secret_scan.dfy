/**
 The worklist search for a leaked secret, against the recursive definition of a leak.
 */
module SecretScan {
  import opened JsonValues

  predicate OccursAt(t: Text, secret: Text, i: int) {
    0 <= i <= |t| - |secret| && t[i..i + |secret|] == secret
  }

  predicate Includes(t: Text, secret: Text) {
    exists i :: 0 <= i <= |t| && OccursAt(t, secret, i)
  }

  /** Some string at any depth, and with `keysToo` some key at any depth, includes the secret. */
  predicate Leaks(v: Json, secret: Text, keysToo: bool) {
    match v
    case String(t) => Includes(t, secret)
    case Array(items) => exists i :: 0 <= i < |items| && Leaks(items[i], secret, keysToo)
    case Record(entries) =>
      exists i :: 0 <= i < |entries| &&
        ((keysToo && Includes(entries[i].key, secret)) || Leaks(entries[i].value, secret, keysToo))
    case _ => false
  }

  predicate AnyLeaks(values: seq<Json>, secret: Text, keysToo: bool) {
    exists i :: 0 <= i < |values| && Leaks(values[i], secret, keysToo)
  }

  // ---------------------------------------------------------------- the size of pending work

  function Size(v: Json): (n: nat)
    ensures n > 0
    decreases v, 1
  {
    match v
    case Array(items) => 1 + SizeOfItems(items)
    case Record(entries) => 1 + SizeOfEntries(entries)
    case _ => 1
  }

  function SizeOfItems(items: seq<Json>): nat
    decreases items, 0
  {
    if items == [] then 0 else Size(items[0]) + SizeOfItems(items[1..])
  }

  function SizeOfEntries(entries: seq<Entry>): nat
    decreases entries, 0
  {
    if entries == [] then 0 else 1 + Size(entries[0].value) + SizeOfEntries(entries[1..])
  }

  lemma {:induction false} SizeAppend(a: seq<Json>, b: seq<Json>)
    ensures SizeOfItems(a + b) == SizeOfItems(a) + SizeOfItems(b)
    decreases |a|
  {
    if a == [] {
      assert a + b == b;
    } else {
      assert (a + b)[1..] == a[1..] + b;
      SizeAppend(a[1..], b);
    }
  }

  function Keys(entries: seq<Entry>): (r: seq<Json>)
    ensures |r| == |entries|
    ensures forall i :: 0 <= i < |r| ==> r[i] == String(entries[i].key)
  {
    if entries == [] then [] else [String(entries[0].key)] + Keys(entries[1..])
  }

  function Values(entries: seq<Entry>): (r: seq<Json>)
    ensures |r| == |entries|
    ensures forall i :: 0 <= i < |r| ==> r[i] == entries[i].value
  {
    if entries == [] then [] else [entries[0].value] + Values(entries[1..])
  }

  lemma {:induction false} SizeOfParts(entries: seq<Entry>)
    ensures SizeOfItems(Keys(entries)) + SizeOfItems(Values(entries)) == SizeOfEntries(entries)
    decreases |entries|
  {
    if entries != [] {
      SizeOfParts(entries[1..]);
      assert Keys(entries)[1..] == Keys(entries[1..]) && Values(entries)[1..] == Values(entries[1..]);
    }
  }

  // ---------------------------------------------------------------- leaks and lists

  lemma AnyLeaksAppend(a: seq<Json>, b: seq<Json>, secret: Text, keysToo: bool)
    ensures AnyLeaks(a + b, secret, keysToo) <==> AnyLeaks(a, secret, keysToo) || AnyLeaks(b, secret, keysToo)
  {
    var c := a + b;
    if i :| 0 <= i < |a| && Leaks(a[i], secret, keysToo) { assert Leaks(c[i], secret, keysToo); }
    if i :| 0 <= i < |b| && Leaks(b[i], secret, keysToo) { assert Leaks(c[|a| + i], secret, keysToo); }
    if i :| 0 <= i < |c| && Leaks(c[i], secret, keysToo) {
      if i < |a| { assert Leaks(a[i], secret, keysToo); } else { assert Leaks(b[i - |a|], secret, keysToo); }
    }
  }

  /** What the record contributes to the worklist leaks exactly when the record does. */
  lemma RecordLeaks(entries: seq<Entry>, secret: Text, keysToo: bool)
    ensures Leaks(Record(entries), secret, keysToo) <==>
              (keysToo && AnyLeaks(Keys(entries), secret, keysToo)) || AnyLeaks(Values(entries), secret, keysToo)
  {
    if i :| 0 <= i < |entries| && Includes(entries[i].key, secret) {
      assert Leaks(Keys(entries)[i], secret, keysToo);
    }
    if i :| 0 <= i < |entries| && Leaks(entries[i].value, secret, keysToo) {
      assert Leaks(Values(entries)[i], secret, keysToo);
    }
  }

  // ---------------------------------------------------------------- the search

  /** `keysToo` selects the variant that also searches the keys of records. */
  method ContainsSecret(value: Json, secret: Text, keysToo: bool) returns (found: bool)
    ensures found <==> Leaks(value, secret, keysToo)
  {
    var pending := [value];
    while pending != []
      invariant Leaks(value, secret, keysToo) <==> AnyLeaks(pending, secret, keysToo)
      decreases SizeOfItems(pending)
    {
      var current := pending[|pending| - 1];
      var rest := pending[..|pending| - 1];
      assert pending == rest + [current];
      SizeAppend(rest, [current]);
      AnyLeaksAppend(rest, [current], secret, keysToo);
      assert AnyLeaks([current], secret, keysToo) <==> Leaks(current, secret, keysToo) by {
        assert [current][0] == current;
      }
      pending := rest;
      if current.String? && Includes(current.text, secret) {
        return true;
      }
      if current.Array? {
        var items := current.items;
        for n := 0 to |items|
          invariant pending == rest + items[..n]
        {
          pending := pending + [items[n]];
        }
        assert items[..|items|] == items;
        SizeAppend(rest, items);
        AnyLeaksAppend(rest, items, secret, keysToo);
      } else if current.Record? {
        var pushed := (if keysToo then Keys(current.entries) else []) + Values(current.entries);
        SizeOfParts(current.entries);
        SizeAppend(if keysToo then Keys(current.entries) else [], Values(current.entries));
        SizeAppend(rest, pushed);
        AnyLeaksAppend(if keysToo then Keys(current.entries) else [], Values(current.entries), secret, keysToo);
        AnyLeaksAppend(rest, pushed, secret, keysToo);
        RecordLeaks(current.entries, secret, keysToo);
        pending := rest + pushed;
      }
    }
    return false;
  }
}
