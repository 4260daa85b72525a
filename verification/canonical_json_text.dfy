/**
 The exact text of a printed string: of all spellings the grammar allows, the shortest, with lower-case digits,
 and never half a surrogate pair.
 */
module CanonicalJsonText {
  import opened Options
  import opened JsonValues
  import opened CanonicalJson
  import opened CanonicalJsonParser

  /** The text is a way to write this one unit in a string (section 7 of RFC 8259). */
  predicate Spells(text: Text, u: CodeUnit) {
    ParseUnit(text) == Some(Parsed(u, []))
  }

  predicate LowerCaseDigits(t: Text) {
    forall i :: 0 <= i < |t| ==> 0x30 <= t[i] <= 0x39 || 0x61 <= t[i] <= 0x66
  }

  predicate Surrogate(u: CodeUnit) { HighSurrogate(u) || LowSurrogate(u) }

  lemma HexDigitReads(n: int)
    requires 0 <= n < 16
    ensures HexValue(HexDigit(n)) == Some(n)
  {
  }

  /** Four digits read back as the number they were made from. */
  lemma FourDigits(u: CodeUnit)
    ensures 4096 * (u / 4096) + 256 * (u / 256 % 16) + 16 * (u / 16 % 16) + u % 16 == u
    ensures u / 4096 < 16
  {
  }

  lemma FourHexReads(t: Text, a: int, b: int, c: int, d: int)
    requires 0 <= a < 16 && 0 <= b < 16 && 0 <= c < 16 && 0 <= d < 16
    requires t == [HexDigit(a), HexDigit(b), HexDigit(c), HexDigit(d)]
    ensures FourHex(t) == Some(4096 * a + 256 * b + 16 * c + d) && LowerCaseDigits(t)
  {
    HexDigitReads(a);
    HexDigitReads(b);
    HexDigitReads(c);
    HexDigitReads(d);
  }

  lemma EscapeSpells(u: CodeUnit)
    ensures Spells(UnicodeEscape(u), u) && LowerCaseDigits(UnicodeEscape(u)[2..])
  {
    var a, b, c, d := u / 4096, u / 256 % 16, u / 16 % 16, u % 16;
    FourDigits(u);
    assert UnicodeEscape(u) == [BACKSLASH, LETTER_U, HexDigit(a), HexDigit(b), HexDigit(c), HexDigit(d)];
    hide UnicodeEscape, FourHex, HexDigit, LowerCaseDigits;
    var digits := UnicodeEscape(u)[2..6];
    assert UnicodeEscape(u)[2..] == digits && UnicodeEscape(u)[6..] == [];
    FourHexReads(digits, a, b, c, d);
  }

  /** A unit stands for itself, has a short escape, or is written with four digits. */
  lemma SpellingsOf(text: Text, u: CodeUnit)
    requires Spells(text, u)
    ensures |text| == 1 || |text| == 2 || |text| == 6
    ensures |text| == 1 ==> text == [u] && u >= 0x20 && u != QUOTE && u != BACKSLASH
    ensures |text| == 2 ==> text == [BACKSLASH, text[1]] && Unescape(text[1]) == Some(u)
  {
    hide FourHex, Unescape;
  }

  /** A unit that is no surrogate is printed in the shortest of its spellings; surrogates on their own are escaped. */
  lemma PrintsShortestSpelling(u: CodeUnit, text: Text)
    requires Spells(text, u)
    ensures Spells(QuoteUnit(u), u)
    ensures !Surrogate(u) ==> |QuoteUnit(u)| <= |text|
    ensures |QuoteUnit(u)| == |text| < 6 ==> text == QuoteUnit(u)
    ensures Surrogate(u) ==> |QuoteUnit(u)| == 6
    ensures |QuoteUnit(u)| == 6 ==> QuoteUnit(u)[..2] == [BACKSLASH, LETTER_U] && LowerCaseDigits(QuoteUnit(u)[2..])
  {
    EscapeSpells(u);
    SpellingsOf(text, u);
    hide FourHex, HexDigit;
  }

  /** Every high surrogate is followed by a low one, and every low one follows a high one. */
  predicate Paired(t: Text) {
    if t == [] then true
    else if HighSurrogate(t[0]) then |t| >= 2 && LowSurrogate(t[1]) && Paired(t[2..])
    else !LowSurrogate(t[0]) && Paired(t[1..])
  }

  lemma {:induction false} PlainIsPaired(plain: Text, rest: Text)
    requires forall i :: 0 <= i < |plain| ==> !Surrogate(plain[i])
    ensures Paired(plain + rest) == Paired(rest)
    decreases |plain|
  {
    if plain == [] {
      assert plain + rest == rest;
    } else {
      assert (plain + rest)[1..] == plain[1..] + rest;
      PlainIsPaired(plain[1..], rest);
    }
  }

  /** What is printed is well-formed, whatever the string held. */
  lemma {:induction false} PrintedIsPaired(t: Text)
    ensures Paired(QuoteBody(t))
    decreases |t|
  {
    if t != [] {
      if |t| >= 2 && HighSurrogate(t[0]) && LowSurrogate(t[1]) {
        PrintedIsPaired(t[2..]);
        var r := QuoteBody(t);
        assert r[0] == t[0] && r[1] == t[1] && r[2..] == QuoteBody(t[2..]);
      } else {
        PrintedIsPaired(t[1..]);
        PlainIsPaired(QuoteUnit(t[0]), QuoteBody(t[1..]));
      }
    }
  }

  /** The units the standard forbids to stand for themselves. */
  predicate MustEscape(u: CodeUnit) { u < 0x20 || u == 0x22 || u == 0x5C }

  /** A string is printed as it is exactly when it needs no escape: no forbidden unit and no half of a pair. */
  lemma {:induction false} PrintedAsIsExactly(t: Text)
    ensures QuoteBody(t) == t <==> Paired(t) && forall i :: 0 <= i < |t| ==> !MustEscape(t[i])
    decreases |t|
  {
    if t != [] {
      QuoteBodyIsNoShorter(t);
      if |t| >= 2 && HighSurrogate(t[0]) && LowSurrogate(t[1]) {
        PrintedAsIsExactly(t[2..]);
        assert t == t[..2] + t[2..];
        assert forall i :: 0 <= i < |t[2..]| ==> t[2..][i] == t[i + 2];
        assert QuoteBody(t) == t <==> QuoteBody(t[2..]) == t[2..] by {
          if QuoteBody(t) == t { assert QuoteBody(t)[2..] == t[2..]; }
        }
      } else {
        PrintedAsIsExactly(t[1..]);
        QuoteBodyIsNoShorter(t[1..]);
        assert t == [t[0]] + t[1..];
        assert forall i :: 0 <= i < |t[1..]| ==> t[1..][i] == t[i + 1];
        if |QuoteUnit(t[0])| == 1 {
          assert QuoteUnit(t[0]) == [t[0]];
          if QuoteBody(t) == t { assert QuoteBody(t)[1..] == t[1..]; }
        }
      }
    }
  }

  lemma {:induction false} QuoteBodyIsNoShorter(t: Text)
    ensures |t| <= |QuoteBody(t)|
    decreases |t|
  {
    if t != [] {
      if |t| >= 2 && HighSurrogate(t[0]) && LowSurrogate(t[1]) { QuoteBodyIsNoShorter(t[2..]); }
      else { QuoteBodyIsNoShorter(t[1..]); }
    }
  }
}
