/**
 * String helpers that stand in for the Python built-ins the plug-in relies on:
 * the `in` operator on strings, `str.upper`, `int(...)` on decimal text and
 * its rendering back with `str(...)`, and `str.join`.
 */
module Text {
  import opened Wrappers

  /** `p` is a prefix of `s`. */
  predicate StartsWith(s: string, p: string) {
    |p| <= |s| && s[..|p|] == p
  }

  /** Python's `sub in s`: `sub` occurs somewhere in `s` (the empty string occurs everywhere). */
  predicate Contains(s: string, sub: string)
    decreases |s|
  {
    StartsWith(s, sub) || (|s| > 0 && Contains(s[1..], sub))
  }

  /** `sub` occurs in `s` starting at position `i`. */
  predicate OccursAt(s: string, sub: string, i: int) {
    0 <= i <= |s| - |sub| && s[i..i + |sub|] == sub
  }

  /** Contains agrees with the positional definition of an occurrence, in both directions. */
  lemma {:induction false} ContainsIffOccurrence(s: string, sub: string)
    ensures Contains(s, sub) <==> exists i :: OccursAt(s, sub, i)
    decreases |s|
  {
    if StartsWith(s, sub) {
      assert OccursAt(s, sub, 0);
    } else if |s| > 0 {
      ContainsIffOccurrence(s[1..], sub);
      if Contains(s[1..], sub) {
        var i :| OccursAt(s[1..], sub, i);
        assert s[i + 1..i + 1 + |sub|] == s[1..][i..i + |sub|];
        assert OccursAt(s, sub, i + 1);
      }
      if i :| OccursAt(s, sub, i) {
        assert i != 0;
        assert s[1..][i - 1..i - 1 + |sub|] == s[i..i + |sub|];
        assert OccursAt(s[1..], sub, i - 1);
      }
    }
  }

  /** `str.upper` restricted to ASCII: maps 'a'..'z' to 'A'..'Z' and leaves every other character. */
  function UpperChar(c: char): char {
    if 'a' <= c <= 'z' then (c as int - 32) as char else c
  }

  function Upper(s: string): (u: string)
    ensures |u| == |s|
  {
    if s == [] then [] else [UpperChar(s[0])] + Upper(s[1..])
  }

  predicate IsLowerLetter(c: char) {
    'a' <= c <= 'z'
  }

  /** Upper works character by character, leaves no lower-case ASCII letter, and changes nothing else. */
  lemma {:induction false} UpperAt(s: string, i: nat)
    requires i < |s|
    ensures Upper(s)[i] == UpperChar(s[i])
    ensures !IsLowerLetter(Upper(s)[i])
    ensures !IsLowerLetter(s[i]) ==> Upper(s)[i] == s[i]
  {
    if i > 0 {
      UpperAt(s[1..], i - 1);
    }
  }

  /** Upper-casing twice is upper-casing once. */
  lemma {:induction false} UpperIdempotent(s: string)
    ensures Upper(Upper(s)) == Upper(s)
  {
    if s != [] {
      UpperIdempotent(s[1..]);
      assert Upper(s)[1..] == Upper(s[1..]);
    }
  }

  predicate IsDigit(c: char) {
    '0' <= c <= '9'
  }

  /** What the model accepts as an integer literal: one or more decimal digits. */
  predicate IsDigits(s: string) {
    |s| > 0 && forall i :: 0 <= i < |s| ==> IsDigit(s[i])
  }

  function DigitValue(c: char): nat
    requires IsDigit(c)
  {
    c as int - '0' as int
  }

  /** The value of a string of decimal digits, read most significant digit first. */
  function DigitsValue(s: string): nat
    requires forall i :: 0 <= i < |s| ==> IsDigit(s[i])
  {
    if s == [] then 0 else DigitsValue(s[..|s| - 1]) * 10 + DigitValue(s[|s| - 1])
  }

  /** Python's `int(s)` on the inputs the model accepts; None where Python raises. */
  function ParseNat(s: string): Option<nat> {
    if IsDigits(s) then Some(DigitsValue(s)) else None
  }

  function DigitChar(d: nat): (c: char)
    requires d < 10
    ensures IsDigit(c)
  {
    ('0' as int + d) as char
  }

  /** Python's `str(n)` for a natural number: decimal, no leading zeros. */
  function Render(n: nat): (s: string)
    ensures |s| > 0
    decreases n
  {
    if n < 10 then [DigitChar(n)] else Render(n / 10) + [DigitChar(n % 10)]
  }

  /** A rendered number has no superfluous leading zero. */
  predicate Canonical(s: string) {
    IsDigits(s) && (s[0] == '0' ==> s == "0")
  }

  /** Rendering gives canonical decimal text that parses back to the same number. */
  lemma {:induction false} RenderParses(n: nat)
    ensures Canonical(Render(n))
    ensures ParseNat(Render(n)) == Some(n)
    decreases n
  {
    if n >= 10 {
      RenderParses(n / 10);
      var s, t := Render(n), Render(n / 10);
      assert s == t + [DigitChar(n % 10)];
      assert s[..|s| - 1] == t;
      assert s[0] == t[0];
      assert IsDigits(s);
      assert DigitsValue(s) == DigitsValue(t) * 10 + n % 10;
    } else {
      var s := Render(n);
      assert s[..|s| - 1] == [];
      assert IsDigits(s);
      assert DigitsValue(s) == DigitValue(DigitChar(n));
    }
  }

  /** `str(int(s))` on decimal text: the same number written without leading zeros. */
  function Normalized(s: string): string
    requires IsDigits(s)
  {
    Render(DigitsValue(s))
  }

  /** Normalizing keeps the number, gives canonical text, and leaves canonical text alone. */
  lemma NormalizedProperties(s: string)
    requires IsDigits(s)
    ensures Canonical(Normalized(s))
    ensures ParseNat(Normalized(s)) == ParseNat(s)
    ensures Normalized(Normalized(s)) == Normalized(s)
  {
    RenderParses(DigitsValue(s));
  }

  /** Python's `sep.join(parts)`. */
  function Join(parts: seq<string>, sep: string): string {
    if parts == [] then ""
    else if |parts| == 1 then parts[0]
    else parts[0] + sep + Join(parts[1..], sep)
  }
}
