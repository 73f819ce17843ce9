/**
 * The few pieces of the Java platform that the training app relies on and
 * whose behaviour its logic depends on: 32-bit `int`, `null` as an optional
 * value, `String.trim`, `String.equalsIgnoreCase` and a growable list that
 * is shared by reference (`java.util.ArrayList`).
 */
module Java {

  /** Java's `int`: a 32-bit two's-complement integer. */
  newtype int32 = x: int | -0x8000_0000 <= x < 0x8000_0000

  /** A reference that may be `null`. */
  datatype Option<+T> = None | Some(value: T)

  // ---------------------------------------------------------------------
  // String.trim(): strips every leading and trailing char whose code is at
  // most U+0020 (spaces, tabs, line breaks and the other control chars).
  // ---------------------------------------------------------------------

  predicate IsTrimmable(c: char) {
    c <= ' '
  }

  /** `s` neither starts nor ends with a trimmable char, as `trim` leaves it. */
  predicate Trimmed(s: string) {
    s == [] || (!IsTrimmable(s[0]) && !IsTrimmable(s[|s| - 1]))
  }

  /** Number of trimmable chars at the front of `s`. */
  function LeadingTrimmable(s: string): (n: nat)
    ensures n <= |s|
    ensures forall k :: 0 <= k < n ==> IsTrimmable(s[k])
    ensures n == |s| || !IsTrimmable(s[n])
  {
    if s == [] || !IsTrimmable(s[0]) then 0 else 1 + LeadingTrimmable(s[1..])
  }

  /** Number of trimmable chars at the back of `s`. */
  function TrailingTrimmable(s: string): (n: nat)
    ensures n <= |s|
    ensures forall k :: |s| - n <= k < |s| ==> IsTrimmable(s[k])
    ensures n == |s| || !IsTrimmable(s[|s| - 1 - n])
  {
    if s == [] || !IsTrimmable(s[|s| - 1]) then 0 else 1 + TrailingTrimmable(s[..|s| - 1])
  }

  /**
   * `s.trim()`: the longest middle slice of `s` that neither starts nor ends
   * with a trimmable char; everything cut away is trimmable.
   */
  function Trim(s: string): (r: string)
    ensures |r| <= |s|
    ensures Trimmed(r)
    ensures LeadingTrimmable(s) + |r| <= |s|
    ensures r == s[LeadingTrimmable(s)..LeadingTrimmable(s) + |r|]
    ensures forall k :: LeadingTrimmable(s) + |r| <= k < |s| ==> IsTrimmable(s[k])
    ensures r == [] <==> forall k :: 0 <= k < |s| ==> IsTrimmable(s[k])
  {
    var start := LeadingTrimmable(s);
    var rest := s[start..];
    var r := rest[..|rest| - TrailingTrimmable(rest)];
    assert r == s[start..start + |r|];
    r
  }

  /** A string that neither starts nor ends with a trimmable char is its own trim. */
  lemma TrimOfTrimmed(s: string)
    requires Trimmed(s)
    ensures Trim(s) == s
  {
    if s != [] {
      assert LeadingTrimmable(s) == 0;
      assert TrailingTrimmable(s) == 0;
    }
  }

  /** Trimming is idempotent: a trimmed string is left as it is. */
  lemma TrimIdempotent(s: string)
    ensures Trim(Trim(s)) == Trim(s)
  {
    TrimOfTrimmed(Trim(s));
  }

  // ---------------------------------------------------------------------
  // String.equalsIgnoreCase(): same length, and char by char the two chars
  // are equal, or equal after upper-casing, or equal after upper-casing and
  // then lower-casing. Only the ASCII letters have case mappings here.
  // ---------------------------------------------------------------------

  function ToUpperCase(c: char): (u: char)
    ensures 'a' <= c <= 'z' ==> u as int == c as int - 32
    ensures !('a' <= c <= 'z') ==> u == c
  {
    if 'a' <= c <= 'z' then (c as int - 32) as char else c
  }

  function ToLowerCase(c: char): (l: char)
    ensures 'A' <= c <= 'Z' ==> l as int == c as int + 32
    ensures !('A' <= c <= 'Z') ==> l == c
  {
    if 'A' <= c <= 'Z' then (c as int + 32) as char else c
  }

  predicate CharEqualsIgnoreCase(c: char, d: char) {
    || c == d
    || ToUpperCase(c) == ToUpperCase(d)
    || ToLowerCase(ToUpperCase(c)) == ToLowerCase(ToUpperCase(d))
  }

  predicate EqualsIgnoreCase(a: string, b: string) {
    |a| == |b| && forall i :: 0 <= i < |a| ==> CharEqualsIgnoreCase(a[i], b[i])
  }

  /** The upper-cased copy of `s`, one char at a time. */
  function UpperCase(s: string): (r: string)
    ensures |r| == |s|
    ensures forall i :: 0 <= i < |s| ==> r[i] == ToUpperCase(s[i])
  {
    if s == [] then [] else [ToUpperCase(s[0])] + UpperCase(s[1..])
  }

  lemma CharEqualsIgnoreCaseIsUpperEquality(c: char, d: char)
    ensures CharEqualsIgnoreCase(c, d) <==> ToUpperCase(c) == ToUpperCase(d)
  {
  }

  /**
   * Case-insensitive equality is equality of the upper-cased strings; so it
   * is reflexive, symmetric and transitive.
   */
  lemma EqualsIgnoreCaseIsUpperEquality(a: string, b: string)
    ensures EqualsIgnoreCase(a, b) <==> UpperCase(a) == UpperCase(b)
  {
    if EqualsIgnoreCase(a, b) {
      forall i | 0 <= i < |a|
        ensures UpperCase(a)[i] == UpperCase(b)[i]
      {
        CharEqualsIgnoreCaseIsUpperEquality(a[i], b[i]);
      }
    }
    if UpperCase(a) == UpperCase(b) {
      forall i | 0 <= i < |a|
        ensures CharEqualsIgnoreCase(a[i], b[i])
      {
        assert UpperCase(a)[i] == UpperCase(b)[i];
      }
    }
  }

  lemma EqualsIgnoreCaseSymmetric(a: string, b: string)
    ensures EqualsIgnoreCase(a, b) <==> EqualsIgnoreCase(b, a)
  {
    EqualsIgnoreCaseIsUpperEquality(a, b);
    EqualsIgnoreCaseIsUpperEquality(b, a);
  }

  lemma EqualsIgnoreCaseTransitive(a: string, b: string, c: string)
    requires EqualsIgnoreCase(a, b) && EqualsIgnoreCase(b, c)
    ensures EqualsIgnoreCase(a, c)
  {
    EqualsIgnoreCaseIsUpperEquality(a, b);
    EqualsIgnoreCaseIsUpperEquality(b, c);
    EqualsIgnoreCaseIsUpperEquality(a, c);
  }

  // ---------------------------------------------------------------------
  // java.util.ArrayList: a list object that several owners can share by
  // reference; `add` appends in place.
  // ---------------------------------------------------------------------

  class ArrayList<T> {
    var elems: seq<T>

    /** `new ArrayList<>(c)`: a new list holding a copy of `c`'s elements. */
    constructor (init: seq<T>)
      ensures elems == init
    {
      elems := init;
    }

    /** `add(x)`: appends `x` at the end. */
    method Add(x: T)
      modifies this
      ensures elems == old(elems) + [x]
    {
      elems := elems + [x];
    }
  }
}
