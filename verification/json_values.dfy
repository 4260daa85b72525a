/**
 JavaScript values as the printers, scanners and rewriters see them. Strings are sequences of UTF-16
 code units; records list their own entries in enumeration order, with distinct keys.
 */
module JsonValues {

  type CodeUnit = u: int | 0 <= u < 0x1_0000

  type Text = seq<CodeUnit>

  /** The code units of an ASCII literal; any other character counts as a question mark. */
  function Ascii(literal: string): Text {
    seq(|literal|, i requires 0 <= i < |literal| => if literal[i] < '\U{80}' then literal[i] as int else 0x3F)
  }

  datatype Json =
    | Undefined
    | Null
    | Boolean(flag: bool)
    | Number(number: int)
    | NotFinite
    | String(text: Text)
    | Array(items: seq<Json>)
    | Record(entries: seq<Entry>)

  datatype Entry = Entry(key: Text, value: Json)

  ghost predicate DistinctKeys(entries: seq<Entry>) {
    forall i, j :: 0 <= i < j < |entries| ==> entries[i].key != entries[j].key
  }

  /** Every record in the value has distinct keys. */
  ghost predicate WellFormed(v: Json) {
    match v
    case Array(items) => forall i :: 0 <= i < |items| ==> WellFormed(items[i])
    case Record(entries) => DistinctKeys(entries) && forall i :: 0 <= i < |entries| ==> WellFormed(entries[i].value)
    case _ => true
  }

  // ---------------------------------------------------------------- members of a record

  /** The index of the key, or the length when it is absent. */
  function Find(entries: seq<Entry>, key: Text): (n: nat)
    ensures n <= |entries|
    ensures n < |entries| ==> entries[n].key == key
    ensures forall i :: 0 <= i < n ==> entries[i].key != key
  {
    if entries == [] || entries[0].key == key then 0 else 1 + Find(entries[1..], key)
  }

  predicate Has(entries: seq<Entry>, key: Text) { Find(entries, key) < |entries| }

  function Get(entries: seq<Entry>, key: Text): (v: Json)
    requires Has(entries, key)
    ensures v == entries[Find(entries, key)].value
  {
    entries[Find(entries, key)].value
  }
}
