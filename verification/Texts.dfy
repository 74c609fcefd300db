/** Strings as the language sees them: sequences of 16-bit code units. */
module Texts {
  /** A code unit of a string. */
  type Unit = i: int | 0 <= i < 0x1_0000

  type Text = seq<Unit>

  datatype Keyed<T> = Keyed(key: Text, value: T)

  /** Keys are distinct, as they are in every object of the language. */
  predicate DistinctKeys<T>(members: seq<Keyed<T>>) {
    forall i, j :: 0 <= i < j < |members| ==> members[i].key != members[j].key
  }

  const NEWLINE: Unit := 10

  /** An ASCII word, as units. */
  function Ascii(w: string): (t: Text)
    requires forall i :: 0 <= i < |w| ==> w[i] < 128 as char
    ensures |t| == |w| && forall i :: 0 <= i < |w| ==> t[i] == w[i] as int
  {
    seq(|w|, i requires 0 <= i < |w| => w[i] as int)
  }

  /** White space as regular expressions see it. */
  predicate Blank(u: Unit) {
    9 <= u <= 13 || u == 32 || u == 160 || u == 0x1680 || 0x2000 <= u <= 0x200A || u == 0x2028 || u == 0x2029
    || u == 0x202F || u == 0x205F || u == 0x3000 || u == 0xFEFF
  }

  predicate Digit(u: Unit) {
    48 <= u <= 57
  }

  predicate Letter(u: Unit) {
    65 <= u <= 90 || 97 <= u <= 122
  }

  /** Whether the text has this unit at this place. */
  predicate At(s: Text, k: nat, u: Unit) {
    k < |s| && s[k] == u
  }

  /** The classes of ASCII units, letter by letter. */
  lemma UnitClasses(u: Unit)
    ensures Letter(u) <==> 'a' as int <= u <= 'z' as int || 'A' as int <= u <= 'Z' as int
    ensures Digit(u) <==> '0' as int <= u <= '9' as int
    ensures u < 128 ==> (Blank(u) <==> u in Ascii(" \t\n\r") || u == 11 || u == 12)
    ensures NEWLINE == '\n' as int
  {
    assert Ascii(" \t\n\r") == [32, 9, 10, 13];
  }
}
