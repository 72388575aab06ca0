/** Text helpers shared by the interpreter and the two printers. */
module Strings {

  predicate EndsWith(s: string, suffix: string)
  {
    |suffix| <= |s| && s[|s| - |suffix|..] == suffix
  }

  /** " " + parts[0] + " " + parts[1] + ... : what a StringBuilder holds after
      appending a space and then each part, part by part. */
  function Spaced(parts: seq<string>): (r: string)
    ensures |r| >= |parts|
    ensures parts != [] ==> r[0] == ' '
  {
    if parts == [] then ""
    else Spaced(parts[..|parts| - 1]) + " " + parts[|parts| - 1]
  }

  /** Concatenation regroups freely. */
  lemma Associative(a: string, b: string, c: string)
    ensures a + (b + c) == a + b + c
  {
  }

  /** Appending one more part appends a space and that part. */
  lemma SpacedSnoc(parts: seq<string>, p: string)
    ensures Spaced(parts + [p]) == Spaced(parts) + " " + p
  {
    assert (parts + [p])[..|parts|] == parts;
  }

  lemma SpacedTwo(a: string, b: string)
    ensures Spaced([a, b]) == " " + a + " " + b
  {
    assert [a, b][..1] == [a];
    SpacedOne(a);
  }

  lemma SpacedThree(a: string, b: string, c: string)
    ensures Spaced([a, b, c]) == " " + a + " " + b + " " + c
  {
    assert [a, b, c][..2] == [a, b];
    SpacedTwo(a, b);
  }

  lemma SpacedOne(a: string)
    ensures Spaced([a]) == " " + a
  {
    assert [a][..0] == [];
  }

  function DigitChar(d: nat): (c: char)
    requires d < 10
    ensures '0' <= c <= '9' && c as int - '0' as int == d
  {
    "0123456789"[d]
  }

  predicate IsDigits(s: string)
  {
    forall i :: 0 <= i < |s| ==> '0' <= s[i] <= '9'
  }

  /** The number a run of decimal digits spells, most significant first. */
  function DigitsValue(s: string): nat
    requires IsDigits(s)
  {
    if s == [] then 0 else DigitsValue(s[..|s| - 1]) * 10 + (s[|s| - 1] as int - '0' as int)
  }

  /** Decimal text of a non-negative Java int, as string concatenation prints
      it: digits only, and no leading zero except in "0" itself. */
  function NatText(n: nat): (r: string)
    ensures |r| > 0 && IsDigits(r)
    ensures r[0] == '0' <==> n == 0
    ensures r[0] == '0' ==> r == "0"
  {
    if n < 10 then [DigitChar(n)] else NatText(n / 10) + [DigitChar(n % 10)]
  }

  /** The text NatText gives reads back as the number it was made from. */
  lemma {:induction false} NatTextSpells(n: nat)
    ensures DigitsValue(NatText(n)) == n
  {
    var r := NatText(n);
    if n < 10 {
      assert r[..0] == [];
    } else {
      NatTextSpells(n / 10);
      assert r[..|r| - 1] == NatText(n / 10);
    }
  }
}
