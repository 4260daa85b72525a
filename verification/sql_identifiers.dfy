/**
 Quoting the name of a table to be dropped.
 */
module SqlIdentifiers {
  import opened Options

  const QUOTE: char := '\U{22}'

  /** An SQL identifier in double quotes, with the quotes inside it doubled. */
  function Quoted(identifier: string): string {
    [QUOTE] + Doubled(identifier) + [QUOTE]
  }

  function Doubled(text: string): string {
    if text == "" then "" else (if text[0] == QUOTE then [QUOTE, QUOTE] else [text[0]]) + Doubled(text[1..])
  }

  /** Reads the rest of a quoted identifier: its text, and what follows the closing quote. */
  function ReadQuoted(text: string): Option<(string, string)> {
    if text == "" then None
    else if text[0] != QUOTE then
      match ReadQuoted(text[1..]) case None => None case Some((name, rest)) => Some(([text[0]] + name, rest))
    else if |text| > 1 && text[1] == QUOTE then
      match ReadQuoted(text[2..]) case None => None case Some((name, rest)) => Some(([QUOTE] + name, rest))
    else Some(("", text[1..]))
  }

  lemma ReadPlain(c: char, text: string, name: string, rest: string)
    requires c != QUOTE && ReadQuoted(text) == Some((name, rest))
    ensures ReadQuoted([c] + text) == Some(([c] + name, rest))
  {
    assert ([c] + text)[1..] == text;
  }

  lemma ReadDoubled(text: string, name: string, rest: string)
    requires ReadQuoted(text) == Some((name, rest))
    ensures ReadQuoted([QUOTE, QUOTE] + text) == Some(([QUOTE] + name, rest))
  {
    assert ([QUOTE, QUOTE] + text)[2..] == text;
  }

  /** Whatever a table is called, the quoted name reads back as that name and nothing more. */
  lemma {:induction false} QuotedReadsBack(identifier: string, rest: string)
    requires rest == "" || rest[0] != QUOTE
    ensures (Quoted(identifier) + rest)[0] == QUOTE
    ensures ReadQuoted((Quoted(identifier) + rest)[1..]) == Some((identifier, rest))
  {
    assert (Quoted(identifier) + rest)[1..] == Doubled(identifier) + ([QUOTE] + rest);
    BodyReadsBack(identifier, rest);
  }

  lemma {:induction false} BodyReadsBack(identifier: string, rest: string)
    requires rest == "" || rest[0] != QUOTE
    ensures ReadQuoted(Doubled(identifier) + ([QUOTE] + rest)) == Some((identifier, rest))
    decreases |identifier|
  {
    if identifier == "" {
      assert Doubled(identifier) + ([QUOTE] + rest) == [QUOTE] + rest;
      assert ([QUOTE] + rest)[1..] == rest;
    } else {
      hide ReadQuoted;
      var c, tail := identifier[0], Doubled(identifier[1..]) + ([QUOTE] + rest);
      BodyReadsBack(identifier[1..], rest);
      assert identifier == [c] + identifier[1..];
      if c == QUOTE {
        assert Doubled(identifier) + ([QUOTE] + rest) == [QUOTE, QUOTE] + tail;
        ReadDoubled(tail, identifier[1..], rest);
      } else {
        assert Doubled(identifier) + ([QUOTE] + rest) == [c] + tail;
        ReadPlain(c, tail, identifier[1..], rest);
      }
    }
  }
}
