/** The string operations the entities and queries rely on: Java's `trim` and
    blank test, ASCII lower-casing, the SQL pattern `LOWER(x) LIKE LOWER('%' || s || '%')`,
    and decimal rendering of ids inside messages. */
module Text {
  import opened Common

  /** `String.trim` removes every leading and trailing character whose code is at most
      U+0020 (space and the control characters). */
  predicate IsTrimmed(c: char) {
    c <= ' '
  }

  function TrimStart(s: string): (r: string)
    ensures |r| <= |s| && r == s[|s| - |r|..]
    ensures r == [] || !IsTrimmed(r[0])
    ensures forall i :: 0 <= i < |s| - |r| ==> IsTrimmed(s[i])
    decreases |s|
  {
    if s != [] && IsTrimmed(s[0]) then TrimStart(s[1..]) else s
  }

  function TrimEnd(s: string): (r: string)
    ensures |r| <= |s| && r == s[..|r|]
    ensures r == [] || !IsTrimmed(r[|r| - 1])
    ensures forall i :: |r| <= i < |s| ==> IsTrimmed(s[i])
    decreases |s|
  {
    if s != [] && IsTrimmed(s[|s| - 1]) then TrimEnd(s[..|s| - 1]) else s
  }

  /** Java's `s.trim()`. */
  function Trim(s: string): (r: string)
    ensures |r| <= |s|
    ensures r == [] || (!IsTrimmed(r[0]) && !IsTrimmed(r[|r| - 1]))
  {
    TrimEnd(TrimStart(s))
  }

  /** Java's `s.trim().isEmpty()`, the test every entity validation applies. */
  predicate IsBlank(s: string) {
    Trim(s) == []
  }

  /** A string is blank after trimming exactly when each of its characters is one that
      `trim` removes. */
  lemma BlankIffAllTrimmed(s: string)
    ensures IsBlank(s) <==> forall i :: 0 <= i < |s| ==> IsTrimmed(s[i])
  {
    var t := TrimStart(s);
    if t != [] {
      assert t[0] == s[|s| - |t|];
    }
  }

  /** Trimming is idempotent: a trimmed string is its own trim. */
  lemma TrimIdempotent(s: string)
    ensures Trim(Trim(s)) == Trim(s)
  {
    var t := Trim(s);
    assert TrimStart(t) == t;
    assert TrimEnd(t) == t;
  }

  function LowerChar(c: char): (r: char)
    ensures 'A' <= c <= 'Z' ==> 'a' <= r <= 'z'
    ensures !('A' <= c <= 'Z') ==> r == c
  {
    if 'A' <= c <= 'Z' then (c as int - 'A' as int + 'a' as int) as char else c
  }

  /** SQL `LOWER` and Java `toLowerCase`, restricted to the ASCII letters. */
  function Lower(s: string): (r: string)
    ensures |r| == |s|
    ensures forall i :: 0 <= i < |s| ==> r[i] == LowerChar(s[i])
  {
    seq(|s|, i requires 0 <= i < |s| => LowerChar(s[i]))
  }

  /** `needle` occurs as a contiguous part of `hay`. */
  predicate IsInfix(needle: string, hay: string)
    decreases |hay|
  {
    needle <= hay || (hay != [] && IsInfix(needle, hay[1..]))
  }

  /** The recursive definition agrees with the usual one: the needle sits at some offset. */
  lemma {:induction false} IsInfixAt(needle: string, hay: string, k: nat)
    requires k + |needle| <= |hay| && hay[k..k + |needle|] == needle
    ensures IsInfix(needle, hay)
    decreases k
  {
    if k == 0 {
      assert needle == hay[..|needle|];
    } else {
      assert hay[1..][k - 1..k - 1 + |needle|] == hay[k..k + |needle|];
      IsInfixAt(needle, hay[1..], k - 1);
    }
  }

  /** Conversely, an infix sits at some offset. */
  lemma {:induction false} InfixOffset(needle: string, hay: string) returns (k: nat)
    requires IsInfix(needle, hay)
    ensures k + |needle| <= |hay| && hay[k..k + |needle|] == needle
    decreases |hay|
  {
    if needle <= hay {
      k := 0;
    } else {
      var j := InfixOffset(needle, hay[1..]);
      k := j + 1;
      assert hay[1..][j..j + |needle|] == hay[k..k + |needle|];
    }
  }

  /** `LOWER(field) LIKE LOWER(CONCAT('%', term, '%'))`: the term occurs in the field
      ignoring ASCII case. */
  predicate LikeIgnoreCase(field: string, term: string) {
    IsInfix(Lower(term), Lower(field))
  }

  /** The same test on a nullable column: `LIKE` on a NULL column is never true. */
  predicate LikeNullable(field: Option<string>, term: string) {
    field.Some? && LikeIgnoreCase(field.value, term)
  }

  /** The empty search term matches every field. */
  lemma EmptyTermMatchesAll(field: string)
    ensures LikeIgnoreCase(field, "")
  {
    assert Lower("") <= Lower(field);
  }

  /** Every field matches itself, whatever the case of either. */
  lemma FieldMatchesItself(field: string)
    ensures LikeIgnoreCase(field, field)
  {
    assert Lower(field) <= Lower(field);
  }

  /** A term that matches a field matches every string that contains that field. */
  lemma LikeIgnoreCaseWidens(field: string, term: string, before: string, after: string)
    requires LikeIgnoreCase(field, term)
    ensures LikeIgnoreCase(before + field + after, term)
  {
    var k := InfixOffset(Lower(term), Lower(field));
    var whole := before + field + after;
    var j := |before| + k;
    assert Lower(whole)[j..j + |term|] == Lower(term) by {
      forall i | 0 <= i < |term|
        ensures Lower(whole)[j..j + |term|][i] == Lower(term)[i]
      {
        assert whole[j + i] == field[k + i];
        assert Lower(field)[k..k + |term|][i] == LowerChar(field[k + i]);
      }
    }
    IsInfixAt(Lower(term), Lower(whole), j);
  }

  function DigitChar(d: nat): (r: char)
    requires d < 10
    ensures '0' <= r <= '9'
  {
    ('0' as int + d) as char
  }

  /** The decimal rendering of a number, as string concatenation in Java produces it. */
  function NatToString(n: nat): (r: string)
    ensures |r| >= 1
    ensures forall i :: 0 <= i < |r| ==> '0' <= r[i] <= '9'
    decreases n
  {
    if n < 10 then [DigitChar(n)] else NatToString(n / 10) + [DigitChar(n % 10)]
  }

  function DigitValue(c: char): nat
    requires '0' <= c <= '9'
  {
    c as int - '0' as int
  }

  /** Reads back a string of decimal digits. */
  function ParseNat(s: string): nat
    requires forall i :: 0 <= i < |s| ==> '0' <= s[i] <= '9'
    decreases |s|
  {
    if s == [] then 0 else ParseNat(s[..|s| - 1]) * 10 + DigitValue(s[|s| - 1])
  }

  /** The rendering is faithful: parsing it gives back the number. */
  lemma {:induction false} NatToStringRoundTrip(n: nat)
    ensures ParseNat(NatToString(n)) == n
    decreases n
  {
    if n >= 10 {
      NatToStringRoundTrip(n / 10);
      var s := NatToString(n);
      assert s[..|s| - 1] == NatToString(n / 10);
    }
  }

  /** The distinct numbers render as distinct strings, so messages identify their ids. */
  lemma NatToStringInjective(m: nat, n: nat)
    requires NatToString(m) == NatToString(n)
    ensures m == n
  {
    NatToStringRoundTrip(m);
    NatToStringRoundTrip(n);
  }
}
