/**
 * The parts of java.lang.String that QuickGet's decisions depend on:
 * `trim`, `startsWith`/`endsWith`, `equalsIgnoreCase` and `split` on a
 * single separator character. Java strings are sequences of UTF-16 code
 * units; here they are `seq<char>`, whose elements are Unicode scalar
 * values, so a character outside the Basic Multilingual Plane is one
 * element rather than a surrogate pair. The operations modelled look only
 * at code units up to U+007F, so they do not depend on this difference.
 */
module JavaString {

  // ---------------------------------------------------------------------
  // trim
  // ---------------------------------------------------------------------

  /** `String.trim` removes every code unit up to and including U+0020. */
  predicate IsTrimmable(c: char) {
    c <= ' '
  }

  predicate AllTrimmable(s: string) {
    forall i :: 0 <= i < |s| ==> IsTrimmable(s[i])
  }

  /** Drops the leading trimmable code units. */
  function TrimStart(s: string): (r: string)
    ensures |r| <= |s| && r == s[|s| - |r|..]
    ensures AllTrimmable(s[..|s| - |r|])
    ensures r == [] || !IsTrimmable(r[0])
  {
    if s != [] && IsTrimmable(s[0]) then
      var r := TrimStart(s[1..]);
      assert s[..|s| - |r|] == [s[0]] + s[1..][..|s| - 1 - |r|];
      r
    else s
  }

  /** Drops the trailing trimmable code units. */
  function TrimEnd(s: string): (r: string)
    ensures |r| <= |s| && r == s[..|r|]
    ensures AllTrimmable(s[|r|..])
    ensures r == [] || !IsTrimmable(r[|r| - 1])
  {
    if s != [] && IsTrimmable(s[|s| - 1]) then
      var r := TrimEnd(s[..|s| - 1]);
      assert s[|r|..] == s[..|s| - 1][|r|..] + [s[|s| - 1]];
      r
    else s
  }

  /** `String.trim`: the longest infix that neither starts nor ends with a trimmable code unit. */
  function Trim(s: string): string {
    TrimEnd(TrimStart(s))
  }

  /** The trimmed string is an infix of `s`, and only trimmable code units were cut off either side. */
  lemma TrimIsInfix(s: string)
    ensures exists a, b :: 0 <= a <= b <= |s| && Trim(s) == s[a..b]
              && AllTrimmable(s[..a]) && AllTrimmable(s[b..])
  {
    var t := TrimStart(s);
    var a := |s| - |t|;
    var b := a + |Trim(s)|;
    assert t[|Trim(s)|..] == s[b..];
    assert Trim(s) == s[a..b];
  }

  /** A trimmed string starts and ends with a non-trimmable code unit. */
  lemma TrimEnds(s: string)
    ensures Trim(s) == [] || (!IsTrimmable(Trim(s)[0]) && !IsTrimmable(Trim(s)[|Trim(s)| - 1]))
  {
    var t := TrimStart(s);
    if Trim(s) != [] {
      assert Trim(s)[0] == t[0];
    }
  }

  /** Trimming twice changes nothing more than trimming once. */
  lemma TrimIdempotent(s: string)
    ensures Trim(Trim(s)) == Trim(s)
  {
    var r := Trim(s);
    TrimEnds(s);
    assert TrimStart(r) == r;
  }

  /** The trimmed string is empty exactly when every code unit is trimmable. */
  lemma TrimEmptyIff(s: string)
    ensures Trim(s) == [] <==> AllTrimmable(s)
  {
    var t := TrimStart(s);
    if Trim(s) == [] {
      assert t == [] by {
        assert AllTrimmable(t[|Trim(s)|..]);
      }
      assert s == s[..|s| - |t|];
    } else {
      TrimEnds(s);
      TrimIsInfix(s);
    }
  }

  // ---------------------------------------------------------------------
  // startsWith / endsWith
  // ---------------------------------------------------------------------

  predicate StartsWith(s: string, prefix: string) {
    prefix <= s
  }

  predicate EndsWith(s: string, suffix: string) {
    |suffix| <= |s| && s[|s| - |suffix|..] == suffix
  }

  // ---------------------------------------------------------------------
  // equalsIgnoreCase
  // ---------------------------------------------------------------------

  /** `Character.toUpperCase`, restricted to the ASCII letters. */
  function ToUpper(c: char): char {
    if 'a' <= c <= 'z' then (c as int - 32) as char else c
  }

  /** `Character.toLowerCase`, restricted to the ASCII letters. */
  function ToLower(c: char): char {
    if 'A' <= c <= 'Z' then (c as int + 32) as char else c
  }

  /**
   * The per-code-unit test of `String.regionMatches(true, ...)`, on which
   * `equalsIgnoreCase` rests: equal, or equal upper-cased, or equal after
   * upper- then lower-casing.
   */
  predicate CharEqualsIgnoreCase(a: char, b: char) {
    a == b || ToUpper(a) == ToUpper(b) || ToLower(ToUpper(a)) == ToLower(ToUpper(b))
  }

  /** `String.equalsIgnoreCase`: same length, and every pair of code units matches ignoring case. */
  predicate EqualsIgnoreCase(s: string, t: string) {
    |s| == |t| && forall i :: 0 <= i < |s| ==> CharEqualsIgnoreCase(s[i], t[i])
  }

  /** On the modelled alphabet, two code units match ignoring case exactly when their upper cases agree. */
  lemma CharEqualsIgnoreCaseIff(a: char, b: char)
    ensures CharEqualsIgnoreCase(a, b) <==> ToUpper(a) == ToUpper(b)
  {
  }

  /** `s` with every code unit upper-cased. */
  function UpperCase(s: string): (r: string)
    ensures |r| == |s|
  {
    seq(|s|, i requires 0 <= i < |s| => ToUpper(s[i]))
  }

  /** Ignoring case is an equivalence: reflexive, symmetric and transitive. */
  lemma EqualsIgnoreCaseEquivalence(s: string, t: string, u: string)
    ensures EqualsIgnoreCase(s, s)
    ensures EqualsIgnoreCase(s, t) ==> EqualsIgnoreCase(t, s)
    ensures EqualsIgnoreCase(s, t) && EqualsIgnoreCase(t, u) ==> EqualsIgnoreCase(s, u)
  {
    if EqualsIgnoreCase(s, t) && EqualsIgnoreCase(t, u) {
      forall i | 0 <= i < |s| ensures CharEqualsIgnoreCase(s[i], u[i]) {
        CharEqualsIgnoreCaseIff(s[i], t[i]);
        CharEqualsIgnoreCaseIff(t[i], u[i]);
        CharEqualsIgnoreCaseIff(s[i], u[i]);
      }
    }
  }

  /** Two strings are equal ignoring case exactly when their upper-cased forms are equal. */
  lemma EqualsIgnoreCaseIffUpperCase(s: string, t: string)
    ensures EqualsIgnoreCase(s, t) <==> UpperCase(s) == UpperCase(t)
  {
    if EqualsIgnoreCase(s, t) {
      forall i | 0 <= i < |s| ensures UpperCase(s)[i] == UpperCase(t)[i] {
        CharEqualsIgnoreCaseIff(s[i], t[i]);
      }
    }
    if UpperCase(s) == UpperCase(t) {
      forall i | 0 <= i < |s| ensures CharEqualsIgnoreCase(s[i], t[i]) {
        assert UpperCase(s)[i] == UpperCase(t)[i];
      }
    }
  }

  // ---------------------------------------------------------------------
  // split on one separator character
  // ---------------------------------------------------------------------

  /** All fields of `s` between occurrences of `sep`, empty ones included. */
  function Fields(s: string, sep: char): (r: seq<string>)
    ensures |r| >= 1
    ensures forall i :: 0 <= i < |r| ==> sep !in r[i]
  {
    if s == [] then [[]]
    else
      var rest := Fields(s[1..], sep);
      if s[0] == sep then [[]] + rest
      else [[s[0]] + rest[0]] + rest[1..]
  }

  /** The fields joined back with `sep` in between. */
  function Join(fields: seq<string>, sep: char): string
    requires |fields| >= 1
  {
    if |fields| == 1 then fields[0] else fields[0] + [sep] + Join(fields[1..], sep)
  }

  /** Splitting and joining again gives back the original string. */
  lemma {:induction false} JoinFields(s: string, sep: char)
    ensures Join(Fields(s, sep), sep) == s
  {
    if s != [] {
      var rest := Fields(s[1..], sep);
      JoinFields(s[1..], sep);
      if s[0] != sep {
        if |rest| == 1 {
          assert Fields(s, sep) == [[s[0]] + rest[0]];
        } else {
          assert Fields(s, sep)[1..] == rest[1..];
        }
      }
    }
  }

  /** A field free of the separator, then the separator, is split off as the first field. */
  lemma {:induction false} FieldsOfSeparated(a: string, sep: char, rest: string)
    requires sep !in a
    ensures Fields(a + [sep] + rest, sep) == [a] + Fields(rest, sep)
  {
    if a == [] {
      assert (a + [sep] + rest)[1..] == rest;
    } else {
      assert (a + [sep] + rest)[1..] == a[1..] + [sep] + rest;
      FieldsOfSeparated(a[1..], sep, rest);
      assert [a[0]] + a[1..] == a;
    }
  }

  /** A string free of the separator is a single field. */
  lemma {:induction false} FieldsOfPlain(a: string, sep: char)
    requires sep !in a
    ensures Fields(a, sep) == [a]
  {
    if a != [] {
      FieldsOfPlain(a[1..], sep);
      assert [a[0]] + a[1..] == a;
    }
  }

  /** Removes the empty strings at the end of a list of fields. */
  function DropTrailingEmpty(fields: seq<string>): (r: seq<string>)
    ensures r <= fields
    ensures r == [] || r[|r| - 1] != []
    ensures forall i :: |r| <= i < |fields| ==> fields[i] == []
  {
    if fields != [] && fields[|fields| - 1] == [] then DropTrailingEmpty(fields[..|fields| - 1]) else fields
  }

  /**
   * `String.split` with a one-character separator and limit 0: a string
   * without the separator is returned whole (so `""` gives `[""]`);
   * otherwise the fields, without the trailing empty ones.
   */
  function Split(s: string, sep: char): seq<string> {
    if sep !in s then [s] else DropTrailingEmpty(Fields(s, sep))
  }
}
