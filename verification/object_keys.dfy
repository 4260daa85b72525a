/**
 The text of an object key, and why no two packages share one.
 */
module ObjectKeys {
  import opened RegistryTables

  function Digit(d: nat): char
    requires d < 10
  {
    ['0', '1', '2', '3', '4', '5', '6', '7', '8', '9'][d]
  }

  function Decimal(n: nat): string {
    if n < 10 then [Digit(n)] else Decimal(n / 10) + [Digit(n % 10)]
  }

  /** The number a string of decimal digits stands for. */
  function Value(digits: string): nat {
    if digits == "" then 0
    else 10 * Value(digits[..|digits| - 1]) + DigitValue(digits[|digits| - 1])
  }

  function DigitValue(c: char): nat {
    if '0' <= c <= '9' then c as int - '0' as int else 0
  }

  function KindName(kind: Kind): string {
    match kind case Recipe => "recipe" case Skill => "skill"
  }

  function Render(key: ObjectKey): string
    requires key.coordinate.version >= 0
  {
    var c := key.coordinate;
    "v1/" + (KindName(c.kind) + "/" + (c.namespace + "/" + (c.name + "/" + (Decimal(c.version) + "/" + (key.digest + ".json")))))
  }

  predicate SlashFree(t: string) { '/' !in t }

  /** What the contracts promise of a coordinate: path segments and a version number. */
  predicate WellFormed(key: ObjectKey) {
    SlashFree(key.coordinate.namespace) && SlashFree(key.coordinate.name) && key.coordinate.version >= 0
  }

  lemma DigitReadsBack(d: nat)
    requires d < 10
    ensures DigitValue(Digit(d)) == d && Digit(d) != '/'
  {
  }

  lemma {:induction false} DecimalReadsBack(n: nat)
    ensures Value(Decimal(n)) == n && SlashFree(Decimal(n))
    decreases n
  {
    DigitReadsBack(n % 10);
    hide Digit, DigitValue;
    if n < 10 {
      assert Decimal(n)[..0] == "";
    } else {
      DecimalReadsBack(n / 10);
      assert Decimal(n)[..|Decimal(n)| - 1] == Decimal(n / 10);
    }
  }

  function FirstSlash(t: string): (n: nat)
    ensures n <= |t|
  {
    if t == "" || t[0] == '/' then 0 else 1 + FirstSlash(t[1..])
  }

  lemma {:induction false} SlashFollows(x: string, s: string)
    requires SlashFree(x)
    ensures FirstSlash(x + "/" + s) == |x|
    decreases |x|
  {
    if x == "" {
      assert (x + "/" + s)[0] == '/';
    } else {
      assert (x + "/" + s)[1..] == x[1..] + "/" + s && (x + "/" + s)[0] == x[0];
      SlashFollows(x[1..], s);
    }
  }

  /** Two texts cut at their first slash. */
  lemma CutAtSlash(x: string, y: string, s: string, t: string)
    requires SlashFree(x) && SlashFree(y) && x + "/" + s == y + "/" + t
    ensures x == y && s == t
  {
    SlashFollows(x, s);
    SlashFollows(y, t);
    var whole := x + "/" + s;
    assert x == whole[..|x|] && y == whole[..|x|];
    assert s == whole[|x| + 1..] && t == whole[|x| + 1..];
  }

  /** Different packages are stored under different keys. */
  lemma RenderIsInjective(a: ObjectKey, b: ObjectKey)
    requires WellFormed(a) && WellFormed(b)
    ensures Render(a) == Render(b) <==> a == b
  {
    if Render(a) == Render(b) {
      SamePartsFromText(a, b);
      DecimalReadsBack(a.coordinate.version);
      DecimalReadsBack(b.coordinate.version);
      assert a.digest == (a.digest + ".json")[..|a.digest|] && b.digest == (b.digest + ".json")[..|b.digest|];
      assert |a.digest + ".json"| == |b.digest + ".json"|;
    }
  }

  lemma SamePartsFromText(a: ObjectKey, b: ObjectKey)
    requires WellFormed(a) && WellFormed(b) && Render(a) == Render(b)
    ensures a.coordinate.kind == b.coordinate.kind
    ensures a.coordinate.namespace == b.coordinate.namespace && a.coordinate.name == b.coordinate.name
    ensures Decimal(a.coordinate.version) == Decimal(b.coordinate.version)
    ensures a.digest + ".json" == b.digest + ".json"
  {
    var c, d := a.coordinate, b.coordinate;
    var a4, b4 := a.digest + ".json", b.digest + ".json";
    var a3, b3 := Decimal(c.version) + "/" + a4, Decimal(d.version) + "/" + b4;
    var a2, b2 := c.name + "/" + a3, d.name + "/" + b3;
    var a1, b1 := c.namespace + "/" + a2, d.namespace + "/" + b2;
    var a0, b0 := KindName(c.kind) + "/" + a1, KindName(d.kind) + "/" + b1;
    assert Render(a) == "v1/" + a0 && Render(b) == "v1/" + b0;
    assert a0 == Render(a)[3..] && b0 == Render(b)[3..];
    DecimalReadsBack(c.version);
    DecimalReadsBack(d.version);
    CutAtSlash(KindName(c.kind), KindName(d.kind), a1, b1);
    CutAtSlash(c.namespace, d.namespace, a2, b2);
    CutAtSlash(c.name, d.name, a3, b3);
    CutAtSlash(Decimal(c.version), Decimal(d.version), a4, b4);
    assert |"recipe"| == 6 && |"skill"| == 5;
  }

  /** With a slash in a segment two packages could share a key. */
  lemma SlashesCollide(version: nat, digest: string)
    ensures
      var a := ObjectKey(Coordinate(Kind.Recipe, "a/b", "c", version), digest);
      var b := ObjectKey(Coordinate(Kind.Recipe, "a", "b/c", version), digest);
      a != b && Render(a) == Render(b)
  {
    var rest := Decimal(version) + "/" + (digest + ".json");
    assert |"a/b"| == 3 && |"a"| == 1;
    assert "a/b" + "/" + ("c" + "/" + rest) == "a" + "/" + ("b/c" + "/" + rest);
  }
}
