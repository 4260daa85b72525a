/**
 The cache key of a public search against what the handler reads from the request.

 Equal addresses are equal lists of parameters; `less` is the order of parameter names by code units, and
 `number` the conversion of a parameter to a number.
 */
module SearchCache {
  import opened Options
  import opened SearchQueries
  import opened SearchWords

  datatype Param = Param(name: string, value: string)

  type Order = (string, string) -> bool

  ghost predicate StrictTotal(less: Order) {
    && (forall x :: !less(x, x))
    && (forall x, y :: x != y ==> less(x, y) || less(y, x))
    && (forall x, y, z {:trigger less(x, y), less(y, z)} :: less(x, y) && less(y, z) ==> less(x, z))
  }

  // ---------------------------------------------------------------- parameter lists

  /** The values given for a name, in order. */
  function Named(list: seq<Param>, name: string): seq<string> {
    if list == [] then []
    else (if list[0].name == name then [list[0].value] else []) + Named(list[1..], name)
  }

  function Without(list: seq<Param>, name: string): seq<Param> {
    if list == [] then []
    else (if list[0].name == name then [] else [list[0]]) + Without(list[1..], name)
  }

  /** Gives the first parameter of the name the value and removes the others, or appends one. */
  function With(list: seq<Param>, name: string, value: string): seq<Param> {
    if list == [] then [Param(name, value)]
    else if list[0].name == name then [Param(name, value)] + Without(list[1..], name)
    else [list[0]] + With(list[1..], name, value)
  }

  ghost predicate Sorted(less: Order, list: seq<Param>) {
    forall i, j :: 0 <= i < j < |list| ==> !less(list[j].name, list[i].name)
  }

  /** Before the first parameter whose name is not smaller. */
  function Insert(less: Order, p: Param, list: seq<Param>): seq<Param> {
    if list == [] || !less(list[0].name, p.name) then [p] + list
    else [list[0]] + Insert(less, p, list[1..])
  }

  function Sort(less: Order, list: seq<Param>): seq<Param> {
    if list == [] then [] else Insert(less, list[0], Sort(less, list[1..]))
  }

  class UrlSearchParams {
    const less: Order
    var list: seq<Param>

    constructor (less: Order, list: seq<Param>)
      ensures this.less == less && this.list == list
    {
      this.less, this.list := less, list;
    }

    function Get(name: string): Option<string>
      reads this
    {
      var values := Named(list, name);
      if values == [] then None else Some(values[0])
    }

    method SetTo(name: string, value: string)
      modifies this
      ensures list == With(old(list), name, value)
    {
      list := With(list, name, value);
    }

    method SortByName()
      modifies this
      ensures list == Sort(less, old(list))
    {
      list := Sort(less, list);
    }
  }

  method PublicCacheKey(a: Alphabet, params: UrlSearchParams)
    requires Lawful(a) && StrictTotal(params.less)
    modifies params
    ensures Sorted(params.less, params.list)
    ensures forall name :: Named(params.list, name) == KeyValues(a, old(params.list), name)
    ensures params.list == CacheKey(a, params.less, old(params.list))
    ensures
      var queries := Named(old(params.list), "q");
      Named(params.list, "q") ==
        if queries != [] && Words(a, queries[0]) != [] then [Joined(InLower(a, Words(a, queries[0])))] else queries
  {
    ghost var initial := params.list;
    var q := params.Get("q");
    var query := if q.Some? then Normalized(a, q.value) else "";
    if query != "" {
      params.SetTo("q", query);
    }
    if params.Get("limit").None? {
      params.SetTo("limit", "10");
    }
    params.SortByName();
    CacheKeyIs(a, params.less, initial);
    assert "q" != "limit" by { assert |"q"| == 1 && |"limit"| == 5; }
    if q.Some? { NormalizedIsItsWords(a, q.value); }
  }

  // ---------------------------------------------------------------- what a key holds

  function FirstQuery(a: Alphabet, list: seq<Param>): Option<string> {
    if Named(list, "q") == [] then None else Some(Normalized(a, Named(list, "q")[0]))
  }

  predicate HasQuery(a: Alphabet, list: seq<Param>) {
    FirstQuery(a, list).Some? && FirstQuery(a, list).value != ""
  }

  /** The values the key holds under each name. */
  function KeyValues(a: Alphabet, list: seq<Param>, name: string): seq<string> {
    if name == "q" && HasQuery(a, list) then [FirstQuery(a, list).value]
    else if name == "limit" && Named(list, "limit") == [] then ["10"]
    else Named(list, name)
  }

  function CacheKey(a: Alphabet, less: Order, list: seq<Param>): seq<Param> {
    var withQuery := if HasQuery(a, list) then With(list, "q", FirstQuery(a, list).value) else list;
    Sort(less, if Named(withQuery, "limit") == [] then With(withQuery, "limit", "10") else withQuery)
  }

  lemma {:induction false} NamedWithout(list: seq<Param>, name: string, other: string)
    ensures Named(Without(list, name), other) == if other == name then [] else Named(list, other)
    decreases |list|
  {
    if list != [] {
      NamedWithout(list[1..], name, other);
      if list[0].name != name {
        assert Without(list, name)[1..] == Without(list[1..], name);
      } else {
        assert Without(list, name) == Without(list[1..], name);
      }
    }
  }

  lemma {:induction false} NamedWith(list: seq<Param>, name: string, value: string, other: string)
    ensures Named(With(list, name, value), other) == if other == name then [value] else Named(list, other)
    decreases |list|
  {
    if list == [] {
      assert [Param(name, value)][1..] == [];
    } else if list[0].name == name {
      assert With(list, name, value)[1..] == Without(list[1..], name);
      NamedWithout(list[1..], name, other);
    } else {
      assert With(list, name, value)[1..] == With(list[1..], name, value);
      NamedWith(list[1..], name, value, other);
    }
  }

  lemma {:induction false} NamedInsert(less: Order, p: Param, list: seq<Param>, name: string)
    requires StrictTotal(less)
    ensures Named(Insert(less, p, list), name) == (if p.name == name then [p.value] else []) + Named(list, name)
    decreases |list|
  {
    if list == [] || !less(list[0].name, p.name) {
      assert ([p] + list)[1..] == list;
    } else {
      assert Insert(less, p, list)[1..] == Insert(less, p, list[1..]);
      NamedInsert(less, p, list[1..], name);
    }
  }

  /** Sorting is stable: the values under each name keep their order. */
  lemma {:induction false} SortIsStable(less: Order, list: seq<Param>, name: string)
    requires StrictTotal(less)
    ensures Named(Sort(less, list), name) == Named(list, name)
    decreases |list|
  {
    if list != [] {
      SortIsStable(less, list[1..], name);
      NamedInsert(less, list[0], Sort(less, list[1..]), name);
    }
  }

  lemma {:induction false} InsertSorts(less: Order, p: Param, list: seq<Param>)
    requires StrictTotal(less) && Sorted(less, list)
    ensures Sorted(less, Insert(less, p, list))
    ensures forall i :: 0 <= i < |Insert(less, p, list)| ==> Insert(less, p, list)[i] == p || Insert(less, p, list)[i] in list
    decreases |list|
  {
    var r := Insert(less, p, list);
    if list == [] || !less(list[0].name, p.name) {
      forall i, j | 0 <= i < j < |r| ensures !less(r[j].name, r[i].name) {
        assert r[j] == list[j - 1];
        if i > 0 { assert r[i] == list[i - 1]; } else if j > 1 { assert !less(list[j - 1].name, list[0].name); }
      }
    } else {
      InsertSorts(less, p, list[1..]);
      var tail := Insert(less, p, list[1..]);
      forall i, j | 0 <= i < j < |r| ensures !less(r[j].name, r[i].name) {
        assert r[j] == tail[j - 1];
        if i > 0 { assert r[i] == tail[i - 1]; }
      }
    }
  }

  lemma {:induction false} SortSorts(less: Order, list: seq<Param>)
    requires StrictTotal(less)
    ensures Sorted(less, Sort(less, list))
    decreases |list|
  {
    if list != [] {
      SortSorts(less, list[1..]);
      InsertSorts(less, list[0], Sort(less, list[1..]));
    }
  }

  lemma CacheKeyIs(a: Alphabet, less: Order, list: seq<Param>)
    requires StrictTotal(less)
    ensures Sorted(less, CacheKey(a, less, list))
    ensures forall name :: Named(CacheKey(a, less, list), name) == KeyValues(a, list, name)
  {
    var withQuery := if HasQuery(a, list) then With(list, "q", FirstQuery(a, list).value) else list;
    var full := if Named(withQuery, "limit") == [] then With(withQuery, "limit", "10") else withQuery;
    SortSorts(less, full);
    assert "q" != "limit" by { assert |"q"| == 1 && |"limit"| == 5; }
    forall name ensures Named(CacheKey(a, less, list), name) == KeyValues(a, list, name) {
      SortIsStable(less, full, name);
      if HasQuery(a, list) {
        NamedWith(list, "q", FirstQuery(a, list).value, name);
        NamedWith(list, "q", FirstQuery(a, list).value, "limit");
      }
      NamedWith(withQuery, "limit", "10", name);
    }
  }

  // ---------------------------------------------------------------- keys and their contents

  lemma {:induction false} NamedOccurs(list: seq<Param>, name: string)
    ensures Named(list, name) != [] <==> exists i :: 0 <= i < |list| && list[i].name == name
    decreases |list|
  {
    if list != [] {
      NamedOccurs(list[1..], name);
      if i :| 0 <= i < |list[1..]| && list[1..][i].name == name { assert list[i + 1].name == name; }
      if i :| 1 <= i < |list| && list[i].name == name { assert list[1..][i - 1].name == name; }
    }
  }

  /** The first names of two sorted lists with the same contents are the same. */
  lemma SameHead(less: Order, x: seq<Param>, y: seq<Param>)
    requires StrictTotal(less) && Sorted(less, x) && Sorted(less, y) && x != []
    requires forall name :: Named(x, name) == Named(y, name)
    ensures y != [] && x[0] == y[0]
  {
    NamedOccurs(x, x[0].name);
    NamedOccurs(y, x[0].name);
    var i :| 0 <= i < |y| && y[i].name == x[0].name;
    NamedOccurs(y, y[0].name);
    NamedOccurs(x, y[0].name);
    var j :| 0 <= j < |x| && x[j].name == y[0].name;
    assert !less(x[0].name, y[0].name);
    assert !less(y[0].name, x[0].name);
    assert Named(x, x[0].name)[0] == x[0].value && Named(y, y[0].name)[0] == y[0].value;
  }

  /** A sorted list is determined by the values it holds under each name. */
  lemma {:induction false} SortedIsDetermined(less: Order, x: seq<Param>, y: seq<Param>)
    requires StrictTotal(less) && Sorted(less, x) && Sorted(less, y)
    requires forall name :: Named(x, name) == Named(y, name)
    ensures x == y
    decreases |x|
  {
    if x == [] {
      if y != [] { NamedOccurs(y, y[0].name); NamedOccurs(x, y[0].name); }
    } else {
      SameHead(less, x, y);
      forall name ensures Named(x[1..], name) == Named(y[1..], name) {
        assert Named(x, name) == Named(y, name);
        var head := if x[0].name == name then [x[0].value] else [];
        assert Named(x, name)[|head|..] == Named(x[1..], name) && Named(y, name)[|head|..] == Named(y[1..], name);
      }
      SortedIsDetermined(less, x[1..], y[1..]);
      assert x == [x[0]] + x[1..] && y == [y[0]] + y[1..];
    }
  }

  /** Two requests share a key exactly when it holds the same values for them under each name. */
  lemma KeysAgreeExactly(a: Alphabet, less: Order, x: seq<Param>, y: seq<Param>)
    requires StrictTotal(less)
    ensures CacheKey(a, less, x) == CacheKey(a, less, y) <==> forall name :: KeyValues(a, x, name) == KeyValues(a, y, name)
  {
    CacheKeyIs(a, less, x);
    CacheKeyIs(a, less, y);
    if forall name :: KeyValues(a, x, name) == KeyValues(a, y, name) {
      assert forall name :: Named(CacheKey(a, less, x), name) == KeyValues(a, x, name);
      forall name ensures Named(CacheKey(a, less, x), name) == Named(CacheKey(a, less, y), name) {
        assert KeyValues(a, x, name) == KeyValues(a, y, name);
      }
      SortedIsDetermined(less, CacheKey(a, less, x), CacheKey(a, less, y));
    } else {
      var name :| KeyValues(a, x, name) != KeyValues(a, y, name);
      assert Named(CacheKey(a, less, x), name) != Named(CacheKey(a, less, y), name);
    }
  }

  // ---------------------------------------------------------------- keys and searches

  /** What the handler reads: the query, and the limit as a number or not a number; the default limit is 10. */
  datatype Search = Search(query: Option<string>, limit: Option<real>)

  function Parsed(a: Alphabet, number: string -> Option<real>, list: seq<Param>): Search {
    Search(FirstQuery(a, list), if Named(list, "limit") == [] then Some(10.0) else number(Named(list, "limit")[0]))
  }

  /** The handler would read the same search from the key as from the request. */
  lemma KeyKeepsTheSearch(a: Alphabet, less: Order, number: string -> Option<real>, list: seq<Param>)
    requires Lawful(a) && StrictTotal(less) && number("10") == Some(10.0)
    ensures Parsed(a, number, CacheKey(a, less, list)) == Parsed(a, number, list)
  {
    CacheKeyIs(a, less, list);
    var key := CacheKey(a, less, list);
    assert "q" != "limit" by { assert |"q"| == 1 && |"limit"| == 5; }
    assert Named(key, "q") == KeyValues(a, list, "q") && Named(key, "limit") == KeyValues(a, list, "limit");
    if HasQuery(a, list) { NormalizingIsIdempotent(a, Named(list, "q")[0]); }
  }

  /** Two requests with the same key ask for the same search. */
  lemma SameKeySameSearch(a: Alphabet, less: Order, number: string -> Option<real>, x: seq<Param>, y: seq<Param>)
    requires Lawful(a) && StrictTotal(less) && number("10") == Some(10.0)
    requires CacheKey(a, less, x) == CacheKey(a, less, y)
    ensures Parsed(a, number, x) == Parsed(a, number, y)
  {
    KeyKeepsTheSearch(a, less, number, x);
    KeyKeepsTheSearch(a, less, number, y);
  }
}
