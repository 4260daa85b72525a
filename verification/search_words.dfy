/**
 What normalising a search query keeps: its words, in order and in lower case, a single space between them.
 */
module SearchWords {
  import opened SearchQueries

  /** The run of characters other than white space at the start. */
  function Word(a: Alphabet, t: string): (w: string)
    ensures w <= t
    ensures forall i :: 0 <= i < |w| ==> !a.white(w[i])
    ensures |w| < |t| ==> a.white(t[|w|])
  {
    if t == "" || a.white(t[0]) then "" else [t[0]] + Word(a, t[1..])
  }

  /** The maximal runs of characters other than white space, in order. */
  function Words(a: Alphabet, t: string): seq<string>
    decreases |t|
  {
    if t == "" then []
    else if a.white(t[0]) then Words(a, t[1..])
    else
      var w := Word(a, t);
      assert w == [t[0]] + Word(a, t[1..]);
      [w] + Words(a, t[|w|..])
  }

  function InLower(a: Alphabet, words: seq<string>): seq<string> {
    seq(|words|, i requires 0 <= i < |words| => Lower(a, words[i]))
  }

  /** The words with one space between each two. */
  function Joined(words: seq<string>): string {
    if words == [] then ""
    else if |words| == 1 then words[0]
    else words[0] + [SPACE] + Joined(words[1..])
  }

  // ---------------------------------------------------------------- words of texts put together

  /** A run that white space or the end of the text follows is the first word. */
  lemma {:induction false} WordBefore(a: Alphabet, w: string, rest: string)
    requires forall i :: 0 <= i < |w| ==> !a.white(w[i])
    requires rest == "" || a.white(rest[0])
    ensures Word(a, w + rest) == w
    ensures w != "" ==> Words(a, w + rest) == [w] + Words(a, rest)
    decreases |w|
  {
    if w == "" {
      assert w + rest == rest;
    } else {
      assert (w + rest)[1..] == w[1..] + rest;
      assert forall i :: 0 <= i < |w[1..]| ==> w[1..][i] == w[i + 1];
      WordBefore(a, w[1..], rest);
      assert [w[0]] + w[1..] == w;
      assert (w + rest)[|w|..] == rest;
    }
  }

  /** A text that does not begin with white space is its first word and the rest. */
  lemma WordAndRest(a: Alphabet, t: string)
    requires t != "" && !a.white(t[0])
    ensures
      var w := Word(a, t);
      && w != "" && t == w + t[|w|..] && (t[|w|..] != "" ==> a.white(t[|w|..][0]))
      && Words(a, t) == [w] + Words(a, t[|w|..])
  {
  }

  lemma {:induction false} WordsAround(a: Alphabet, x: string, c: char, y: string)
    requires a.white(c)
    ensures Words(a, x + [c] + y) == Words(a, x) + Words(a, y)
    decreases |x|
  {
    if x == "" {
      assert x + [c] + y == [c] + y && ([c] + y)[1..] == y;
    } else if a.white(x[0]) {
      assert (x + [c] + y)[1..] == x[1..] + [c] + y;
      WordsAround(a, x[1..], c, y);
    } else {
      WordAndRest(a, x);
      var w := Word(a, x);
      var rest := x[|w|..];
      WordBefore(a, w, rest + [c] + y);
      assert w + (rest + [c] + y) == x + [c] + y;
      WordsAround(a, rest, c, y);
    }
  }

  // ---------------------------------------------------------------- each part of normalising

  lemma {:induction false} TrimStartKeepsWords(a: Alphabet, t: string)
    ensures Words(a, TrimStart(a, t)) == Words(a, t)
    decreases |t|
  {
    if t != "" && a.white(t[0]) { TrimStartKeepsWords(a, t[1..]); }
  }

  lemma {:induction false} TrimEndKeepsWords(a: Alphabet, t: string)
    ensures Words(a, TrimEnd(a, t)) == Words(a, t)
    decreases |t|
  {
    if t != "" && a.white(t[|t| - 1]) {
      var front := t[..|t| - 1];
      TrimEndKeepsWords(a, front);
      assert front + [t[|t| - 1]] + "" == t;
      WordsAround(a, front, t[|t| - 1], "");
    }
  }

  lemma {:induction false} LowerAppends(a: Alphabet, x: string, y: string)
    ensures Lower(a, x + y) == Lower(a, x) + Lower(a, y)
    decreases |x|
  {
    if x == "" {
      assert x + y == y;
    } else {
      assert (x + y)[1..] == x[1..] + y;
      LowerAppends(a, x[1..], y);
    }
  }

  lemma {:induction false} LowerKeepsWhite(a: Alphabet, t: string)
    requires Lawful(a)
    ensures (forall i :: 0 <= i < |t| ==> !a.white(t[i])) ==> forall i :: 0 <= i < |Lower(a, t)| ==> !a.white(Lower(a, t)[i])
    ensures t != "" ==> Lower(a, t) != "" && (a.white(Lower(a, t)[0]) <==> a.white(t[0]))
    decreases |t|
  {
    if t != "" {
      LowerKeepsWhite(a, t[1..]);
      assert a.lower(t[0])[0] == Lower(a, t)[0];
    }
  }

  lemma {:induction false} LowerLowersWords(a: Alphabet, t: string)
    requires Lawful(a)
    ensures Words(a, Lower(a, t)) == InLower(a, Words(a, t))
    decreases |t|
  {
    if t == "" {
    } else if a.white(t[0]) {
      LowerLowersWords(a, t[1..]);
      assert ([t[0]] + Lower(a, t[1..]))[1..] == Lower(a, t[1..]);
    } else {
      WordAndRest(a, t);
      var w := Word(a, t);
      var rest := t[|w|..];
      LowerAppends(a, w, rest);
      LowerKeepsWhite(a, w);
      LowerKeepsWhite(a, rest);
      WordBefore(a, Lower(a, w), Lower(a, rest));
      LowerLowersWords(a, rest);
      assert InLower(a, [w] + Words(a, rest)) == [Lower(a, w)] + InLower(a, Words(a, rest));
    }
  }

  lemma {:induction false} CollapseKeepsRun(a: Alphabet, w: string, rest: string)
    requires forall i :: 0 <= i < |w| ==> !a.white(w[i])
    ensures Collapse(a, w + rest) == w + Collapse(a, rest)
    decreases |w|
  {
    if w == "" {
      assert w + rest == rest;
    } else {
      assert (w + rest)[1..] == w[1..] + rest;
      assert forall i :: 0 <= i < |w[1..]| ==> w[1..][i] == w[i + 1];
      CollapseKeepsRun(a, w[1..], rest);
    }
  }

  lemma {:induction false} CollapseKeepsWords(a: Alphabet, t: string)
    requires Lawful(a)
    ensures Words(a, Collapse(a, t)) == Words(a, t)
    decreases |t|
  {
    if t == "" {
    } else if a.white(t[0]) {
      var rest := TrimStart(a, t[1..]);
      CollapseKeepsWords(a, rest);
      TrimStartKeepsWords(a, t[1..]);
      assert ([SPACE] + Collapse(a, rest))[1..] == Collapse(a, rest);
    } else {
      WordAndRest(a, t);
      var w := Word(a, t);
      var rest := t[|w|..];
      CollapseKeepsRun(a, w, rest);
      CollapseIsSpaced(a, rest);
      WordBefore(a, w, Collapse(a, rest));
      CollapseKeepsWords(a, rest);
    }
  }

  // ---------------------------------------------------------------- normalising

  /** The words of a normalised query are those of the query, in lower case. */
  lemma NormalizingKeepsWords(a: Alphabet, t: string)
    requires Lawful(a)
    ensures Words(a, Normalized(a, t)) == InLower(a, Words(a, t))
  {
    var started := TrimStart(a, t);
    var trimmed := TrimEnd(a, started);
    TrimStartKeepsWords(a, t);
    TrimEndKeepsWords(a, started);
    LowerLowersWords(a, trimmed);
    CollapseKeepsWords(a, Lower(a, trimmed));
  }

  /** In a normal query one space and then another normal query follow a word that is not the last. */
  lemma AfterWord(a: Alphabet, t: string, n: nat)
    requires Normal(a, t) && n < |t| && a.white(t[n])
    ensures t[n] == SPACE && n + 1 < |t| && !a.white(t[n + 1]) && Normal(a, t[n + 1..])
  {
    assert n != |t| - 1;
    var next := t[n + 1..];
    assert forall i :: 0 <= i < |next| ==> next[i] == t[n + 1 + i];
    forall i | 0 < i < |next| && a.white(next[i]) ensures !a.white(next[i - 1]) {
      assert t[n + 1 + i] == next[i] && t[n + 1 + i - 1] == next[i - 1];
    }
  }

  /** A normal query is its words with single spaces. */
  lemma {:induction false} NormalIsItsWords(a: Alphabet, t: string)
    requires Lawful(a) && Normal(a, t)
    ensures t == Joined(Words(a, t))
    decreases |t|
  {
    hide Lawful, LowerCase, SearchQueries.Spaced;
    if t != "" {
      WordAndRest(a, t);
      var w := Word(a, t);
      var rest := t[|w|..];
      if rest != "" {
        AfterWord(a, t, |w|);
        hide Normal;
        var next := t[|w| + 1..];
        NormalIsItsWords(a, next);
        FirstWordExists(a, next);
        assert rest == [SPACE] + next;
        assert Words(a, rest) == Words(a, next) by { assert rest[1..] == next; }
        assert Words(a, t)[1..] == Words(a, next);
        assert t == w + [SPACE] + next;
      } else {
        assert Words(a, t) == [w];
      }
    }
  }

  lemma FirstWordExists(a: Alphabet, t: string)
    requires t != "" && !a.white(t[0])
    ensures Words(a, t) != []
  {
  }

  /** So normalising is exactly this: the words in lower case, a single space between them. */
  lemma NormalizedIsItsWords(a: Alphabet, t: string)
    requires Lawful(a)
    ensures Normalized(a, t) == Joined(InLower(a, Words(a, t)))
    ensures Normalized(a, t) == "" <==> Words(a, t) == []
  {
    NormalizingKeepsWords(a, t);
    NormalizedIsNormal(a, t);
    NormalIsItsWords(a, Normalized(a, t));
    if Normalized(a, t) == "" { assert |Words(a, t)| == |InLower(a, Words(a, t))| == 0; }
  }
}
