/**
 Normalising a search query: trimmed, in lower case, with every run of white space a single space.

 Which characters are white space, and what each lower-cases to, are parameters.
 */
module SearchQueries {

  const SPACE := ' '

  datatype Alphabet = Alphabet(white: char -> bool, lower: char -> string)

  /** Lower-casing yields at least one character, all in lower case, and leaves white space as it is. */
  ghost predicate Lawful(a: Alphabet) {
    && a.white(SPACE)
    && (forall c :: |a.lower(c)| > 0)
    && (forall c, i :: 0 <= i < |a.lower(c)| ==> a.lower(a.lower(c)[i]) == [a.lower(c)[i]])
    && (forall c :: a.white(c) ==> a.lower(c) == [c])
    && (forall c, i :: !a.white(c) && 0 <= i < |a.lower(c)| ==> !a.white(a.lower(c)[i]))
  }

  function TrimStart(a: Alphabet, t: string): (r: string)
    ensures r != "" ==> !a.white(r[0])
    ensures |r| <= |t|
  {
    if t == "" || !a.white(t[0]) then t else TrimStart(a, t[1..])
  }

  function TrimEnd(a: Alphabet, t: string): (r: string)
    ensures r != "" ==> !a.white(r[|r| - 1])
    ensures r <= t
  {
    if t == "" || !a.white(t[|t| - 1]) then t else TrimEnd(a, t[..|t| - 1])
  }

  function Lower(a: Alphabet, t: string): string {
    if t == "" then "" else a.lower(t[0]) + Lower(a, t[1..])
  }

  /** Every run of white space becomes one space. */
  function Collapse(a: Alphabet, t: string): string
    decreases |t|
  {
    if t == "" then ""
    else if a.white(t[0]) then [SPACE] + Collapse(a, TrimStart(a, t[1..]))
    else [t[0]] + Collapse(a, t[1..])
  }

  function Normalized(a: Alphabet, t: string): string {
    Collapse(a, Lower(a, TrimEnd(a, TrimStart(a, t))))
  }

  // ---------------------------------------------------------------- normal queries

  ghost predicate Trimmed(a: Alphabet, t: string) {
    t != "" ==> !a.white(t[0]) && !a.white(t[|t| - 1])
  }

  ghost predicate LowerCase(a: Alphabet, t: string) {
    forall i :: 0 <= i < |t| ==> a.lower(t[i]) == [t[i]]
  }

  /** White space is single spaces. */
  ghost predicate Spaced(a: Alphabet, t: string) {
    && (forall i :: 0 <= i < |t| && a.white(t[i]) ==> t[i] == SPACE)
    && (forall i :: 0 < i < |t| && a.white(t[i]) ==> !a.white(t[i - 1]))
  }

  ghost predicate Normal(a: Alphabet, t: string) {
    Trimmed(a, t) && LowerCase(a, t) && Spaced(a, t)
  }

  lemma {:induction false} LowerIsLowerCase(a: Alphabet, t: string)
    requires Lawful(a)
    ensures LowerCase(a, Lower(a, t))
    decreases |t|
  {
    if t != "" { LowerIsLowerCase(a, t[1..]); }
  }

  lemma {:induction false} LowerKeepsTrimmed(a: Alphabet, t: string)
    requires Lawful(a) && Trimmed(a, t) && t != ""
    ensures Lower(a, t) != "" && Trimmed(a, Lower(a, t))
  {
    LowerKeepsEnd(a, t);
    assert Lower(a, t)[0] == a.lower(t[0])[0];
  }

  lemma {:induction false} LowerKeepsEnd(a: Alphabet, t: string)
    requires Lawful(a) && t != "" && !a.white(t[|t| - 1])
    ensures Lower(a, t) != "" && !a.white(Lower(a, t)[|Lower(a, t)| - 1])
    decreases |t|
  {
    if |t| > 1 {
      LowerKeepsEnd(a, t[1..]);
    } else {
      assert Lower(a, t[1..]) == "";
      assert Lower(a, t) == a.lower(t[0]);
    }
  }

  lemma {:induction false} CollapseIsSpaced(a: Alphabet, t: string)
    requires Lawful(a)
    ensures Spaced(a, Collapse(a, t))
    ensures Collapse(a, t) == "" <==> t == ""
    ensures t != "" ==> (a.white(Collapse(a, t)[0]) <==> a.white(t[0]))
    decreases |t|
  {
    if t != "" {
      var rest := if a.white(t[0]) then TrimStart(a, t[1..]) else t[1..];
      CollapseIsSpaced(a, rest);
      var head := if a.white(t[0]) then SPACE else t[0];
      assert Collapse(a, t) == [head] + Collapse(a, rest);
      SpacedExtends(a, head, Collapse(a, rest));
    }
  }

  lemma SpacedExtends(a: Alphabet, head: char, rest: string)
    requires Spaced(a, rest) && (a.white(head) ==> head == SPACE && (rest != "" ==> !a.white(rest[0])))
    ensures Spaced(a, [head] + rest)
  {
    var t := [head] + rest;
    forall i | 0 < i < |t| && a.white(t[i]) ensures !a.white(t[i - 1]) {
      assert t[i] == rest[i - 1];
      if i > 1 { assert t[i - 1] == rest[i - 2]; }
    }
  }

  lemma {:induction false} CollapseKeepsLowerCase(a: Alphabet, t: string)
    requires Lawful(a) && LowerCase(a, t)
    ensures LowerCase(a, Collapse(a, t))
    decreases |t|
  {
    if t != "" {
      assert forall i :: 0 <= i < |t[1..]| ==> t[1..][i] == t[i + 1];
      if a.white(t[0]) {
        TrimStartKeepsLowerCase(a, t[1..]);
        CollapseKeepsLowerCase(a, TrimStart(a, t[1..]));
      } else {
        CollapseKeepsLowerCase(a, t[1..]);
      }
    }
  }

  lemma {:induction false} TrimStartKeepsLowerCase(a: Alphabet, t: string)
    requires LowerCase(a, t)
    ensures LowerCase(a, TrimStart(a, t))
    decreases |t|
  {
    if t != "" && a.white(t[0]) {
      assert forall i :: 0 <= i < |t[1..]| ==> t[1..][i] == t[i + 1];
      TrimStartKeepsLowerCase(a, t[1..]);
    }
  }

  lemma {:induction false} TrimStartKeepsEnd(a: Alphabet, t: string)
    requires t != "" && !a.white(t[|t| - 1])
    ensures TrimStart(a, t) != "" && TrimStart(a, t)[|TrimStart(a, t)| - 1] == t[|t| - 1]
    decreases |t|
  {
    if a.white(t[0]) { TrimStartKeepsEnd(a, t[1..]); }
  }

  lemma {:induction false} CollapseKeepsEnd(a: Alphabet, t: string)
    requires Lawful(a) && t != "" && !a.white(t[|t| - 1])
    ensures Collapse(a, t) != "" && !a.white(Collapse(a, t)[|Collapse(a, t)| - 1])
    decreases |t|
  {
    if |t| == 1 {
      assert t[1..] == "";
      assert Collapse(a, t) == [t[0]];
    } else if a.white(t[0]) {
      TrimStartKeepsEnd(a, t[1..]);
      CollapseKeepsEnd(a, TrimStart(a, t[1..]));
    } else {
      CollapseKeepsEnd(a, t[1..]);
    }
  }

  lemma TrimTrims(a: Alphabet, t: string)
    ensures Trimmed(a, TrimEnd(a, TrimStart(a, t)))
  {
    var s := TrimStart(a, t);
    var r := TrimEnd(a, s);
    assert r != "" ==> r[0] == s[0];
  }

  /** Normalising yields a normal query. */
  lemma NormalizedIsNormal(a: Alphabet, t: string)
    requires Lawful(a)
    ensures Normal(a, Normalized(a, t))
  {
    var trimmed := TrimEnd(a, TrimStart(a, t));
    TrimTrims(a, t);
    var lower := Lower(a, trimmed);
    LowerIsLowerCase(a, trimmed);
    CollapseIsSpaced(a, lower);
    CollapseKeepsLowerCase(a, lower);
    if trimmed != "" {
      LowerKeepsTrimmed(a, trimmed);
      CollapseKeepsEnd(a, lower);
    }
  }

  lemma {:induction false} LowerCaseStays(a: Alphabet, t: string)
    requires LowerCase(a, t)
    ensures Lower(a, t) == t
    decreases |t|
  {
    if t != "" {
      assert forall i :: 0 <= i < |t[1..]| ==> t[1..][i] == t[i + 1];
      LowerCaseStays(a, t[1..]);
      assert t == [t[0]] + t[1..];
    }
  }

  lemma {:induction false} SpacedStays(a: Alphabet, t: string)
    requires Spaced(a, t)
    ensures Collapse(a, t) == t
    decreases |t|
  {
    if t != "" {
      assert forall i :: 0 <= i < |t[1..]| ==> t[1..][i] == t[i + 1];
      SpacedStays(a, t[1..]);
      assert t == [t[0]] + t[1..];
      if a.white(t[0]) && |t| > 1 { assert !a.white(t[1]); }
    }
  }

  /** The queries that normalising leaves alone are the normal ones. */
  lemma NormalIsFixed(a: Alphabet, t: string)
    requires Lawful(a)
    ensures Normalized(a, t) == t <==> Normal(a, t)
  {
    NormalizedIsNormal(a, t);
    if Normal(a, t) {
      LowerCaseStays(a, t);
      SpacedStays(a, t);
    }
  }

  /** Normalising twice is normalising once. */
  lemma NormalizingIsIdempotent(a: Alphabet, t: string)
    requires Lawful(a)
    ensures Normalized(a, Normalized(a, t)) == Normalized(a, t)
  {
    NormalizedIsNormal(a, t);
    NormalIsFixed(a, Normalized(a, t));
  }
}
