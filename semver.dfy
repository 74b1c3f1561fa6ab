/**
 * A numeric model of the semantic-version increment the release goal calls
 * (`semver.inc(version, mode)`): versions of the form MAJOR.MINOR.PATCH with
 * canonical decimal components, and the `major`, `minor` and `patch` bumps.
 * Any other version text or bump mode has no increment (`None`, which the
 * library reports as `null`).
 */
module Semver {
  import opened Wrappers

  /** The components are unbounded; the library holds them as JavaScript numbers. */
  datatype Version = Version(major: nat, minor: nat, patch: nat)

  predicate IsDigit(c: char)
  {
    '0' <= c <= '9'
  }

  predicate AllDigits(s: string)
  {
    forall i :: 0 <= i < |s| ==> IsDigit(s[i])
  }

  /** A decimal numeral without superfluous leading zeros. */
  predicate Canonical(s: string)
  {
    |s| > 0 && AllDigits(s) && (s[0] == '0' ==> |s| == 1)
  }

  function DigitChar(d: nat): (c: char)
    requires d < 10
    ensures IsDigit(c)
  {
    '0' + d as char
  }

  function DigitValue(c: char): (d: nat)
    requires IsDigit(c)
    ensures d < 10
  {
    (c - '0') as nat
  }

  /** The decimal numeral of `n`. */
  function NatToString(n: nat): (s: string)
    ensures Canonical(s)
  {
    if n < 10 then [DigitChar(n)]
    else
      var p := NatToString(n / 10);
      p + [DigitChar(n % 10)]
  }

  /** The number a string of digits denotes. */
  function DigitsValue(s: string): nat
    requires AllDigits(s)
  {
    if s == [] then 0
    else DigitsValue(s[..|s| - 1]) * 10 + DigitValue(s[|s| - 1])
  }

  /** A numeral component of a version: canonical decimal digits, or nothing. */
  function ParseNat(s: string): (r: Option<nat>)
    ensures r.Some? <==> Canonical(s)
  {
    if Canonical(s) then Some(DigitsValue(s)) else None
  }

  /** The number of leading digits of `s`. */
  function DigitPrefixLength(s: string): (k: nat)
    ensures k <= |s| && AllDigits(s[..k])
    ensures k < |s| ==> !IsDigit(s[k])
  {
    if s == [] || !IsDigit(s[0]) then 0
    else
      var k := 1 + DigitPrefixLength(s[1..]);
      assert s[..k] == [s[0]] + s[1..][..k - 1];
      k
  }

  /** The text of a version: `MAJOR.MINOR.PATCH`. */
  function Format(v: Version): string
  {
    NatToString(v.major) + "." + NatToString(v.minor) + "." + NatToString(v.patch)
  }

  /** Reads a leading numeral component and what follows it. */
  function ParseComponent(s: string): Option<(nat, string)>
  {
    var k := DigitPrefixLength(s);
    match ParseNat(s[..k])
    case None => None
    case Some(n) => Some((n, s[k..]))
  }

  /** Reads a dot followed by a numeral component, and what follows them. */
  function ParseDotted(s: string): Option<(nat, string)>
  {
    if s == [] || s[0] != '.' then None else ParseComponent(s[1..])
  }

  /** Reads `MAJOR.MINOR.PATCH` with nothing before or after it. */
  function Parse(s: string): Option<Version>
  {
    var c1 := ParseComponent(s);
    if c1.None? then None
    else
      var c2 := ParseDotted(c1.value.1);
      if c2.None? then None
      else
        var c3 := ParseDotted(c2.value.1);
        if c3.None? || c3.value.1 != [] then None
        else Some(Version(c1.value.0, c2.value.0, c3.value.0))
  }

  /** The version after `v` for a bump mode, if the mode is one this model knows. */
  function Bump(v: Version, mode: string): Option<Version>
  {
    if mode == "major" then Some(Version(v.major + 1, 0, 0))
    else if mode == "minor" then Some(Version(v.major, v.minor + 1, 0))
    else if mode == "patch" then Some(Version(v.major, v.minor, v.patch + 1))
    else None
  }

  /** `semver.inc(version, mode)`, restricted to numeric versions and the three numeric bumps. */
  function Inc(version: string, mode: string): (r: Option<string>)
    ensures r.Some? ==> Parse(version).Some? && Bump(Parse(version).value, mode).Some?
    ensures r.Some? ==> r.value == Format(Bump(Parse(version).value, mode).value)
  {
    match Parse(version)
    case None => None
    case Some(v) =>
      match Bump(v, mode)
      case None => None
      case Some(w) => Some(Format(w))
  }

  // ---------------------------------------------------------------------------
  // Numerals: the two directions of the round trip.

  lemma {:induction false} DigitsValueOfNatToString(n: nat)
    ensures DigitsValue(NatToString(n)) == n
  {
    var s := NatToString(n);
    if n >= 10 {
      var p := NatToString(n / 10);
      assert s == p + [DigitChar(n % 10)];
      assert s[..|s| - 1] == p;
      DigitsValueOfNatToString(n / 10);
    } else {
      assert s[..0] == [];
    }
  }

  lemma {:induction false} DigitsValuePositive(s: string)
    requires AllDigits(s) && |s| > 0 && s[0] != '0'
    ensures DigitsValue(s) > 0
  {
    if |s| > 1 {
      DigitsValuePositive(s[..|s| - 1]);
    }
  }

  lemma {:induction false} NatToStringOfDigitsValue(s: string)
    requires Canonical(s)
    ensures NatToString(DigitsValue(s)) == s
  {
    if |s| > 1 {
      var p := s[..|s| - 1];
      assert Canonical(p);
      DigitsValuePositive(p);
      NatToStringOfDigitsValue(p);
      var n := DigitsValue(s);
      assert n / 10 == DigitsValue(p) && n % 10 == DigitValue(s[|s| - 1]);
      assert s == p + [s[|s| - 1]];
    }
  }

  /** Every numeral reads back as the number it was written from. */
  lemma ParseNatOfNatToString(n: nat)
    ensures ParseNat(NatToString(n)) == Some(n)
  {
    DigitsValueOfNatToString(n);
  }

  /** A numeral component is followed by the first non-digit. */
  lemma {:induction false} DigitPrefixOfNumeral(d: string, rest: string)
    requires AllDigits(d)
    requires rest == [] || !IsDigit(rest[0])
    ensures DigitPrefixLength(d + rest) == |d|
  {
    if d != [] {
      assert (d + rest)[1..] == d[1..] + rest;
      DigitPrefixOfNumeral(d[1..], rest);
    }
  }

  lemma ParseComponentOfNumeral(n: nat, rest: string)
    requires rest == [] || !IsDigit(rest[0])
    ensures ParseComponent(NatToString(n) + rest) == Some((n, rest))
  {
    var d := NatToString(n);
    DigitPrefixOfNumeral(d, rest);
    assert (d + rest)[..|d|] == d;
    assert (d + rest)[|d|..] == rest;
    ParseNatOfNatToString(n);
  }

  // ---------------------------------------------------------------------------
  // Versions: parsing and formatting are inverse.

  lemma ParseDottedOfNumeral(n: nat, rest: string)
    requires rest == [] || !IsDigit(rest[0])
    ensures ParseDotted("." + NatToString(n) + rest) == Some((n, rest))
  {
    var s := "." + NatToString(n) + rest;
    assert s[1..] == NatToString(n) + rest;
    ParseComponentOfNumeral(n, rest);
  }

  /** The text of a version splits into its numeral and its two dotted parts. */
  lemma FormatSplits(v: Version)
    ensures Format(v) == NatToString(v.major) + ("." + NatToString(v.minor) + ("." + NatToString(v.patch) + []))
  {
    var x, y, z := NatToString(v.major), NatToString(v.minor), NatToString(v.patch);
    SplitThree(Format(v), x, y, z, "." + y + ("." + z + []), "." + z + []);
  }

  /** Gluing `x . y . z` back together from its parts (pure sequence reasoning). */
  lemma SplitThree(s: string, x: string, y: string, z: string, r1: string, r2: string)
    requires r2 == "." + z + [] && r1 == "." + y + r2
    ensures s == x + r1 <==> s == x + "." + y + "." + z
  {
    assert x + r1 == x + "." + y + "." + z;
  }

  /** Formatting a version and reading it back gives the same version. */
  lemma ParseOfFormat(v: Version)
    ensures Parse(Format(v)) == Some(v)
  {
    var x, y, z := NatToString(v.major), NatToString(v.minor), NatToString(v.patch);
    var r2 := "." + z + [];
    var r1 := "." + y + r2;
    FormatSplits(v);
    ParseComponentOfNumeral(v.major, r1);
    ParseDottedOfNumeral(v.minor, r2);
    ParseDottedOfNumeral(v.patch, []);
  }

  lemma ParseComponentInverse(s: string, n: nat, rest: string)
    requires ParseComponent(s) == Some((n, rest))
    ensures s == NatToString(n) + rest
  {
    var k := DigitPrefixLength(s);
    NatToStringOfDigitsValue(s[..k]);
    assert s == s[..k] + s[k..];
  }

  lemma ParseDottedInverse(s: string, n: nat, rest: string)
    requires ParseDotted(s) == Some((n, rest))
    ensures s == "." + NatToString(n) + rest
  {
    ParseComponentInverse(s[1..], n, rest);
    assert s == [s[0]] + s[1..];
  }

  /** Only the canonical text of a version is read as that version. */
  lemma FormatOfParse(s: string, v: Version)
    requires Parse(s) == Some(v)
    ensures Format(v) == s
  {
    var c1 := ParseComponent(s).value;
    var c2 := ParseDotted(c1.1).value;
    var c3 := ParseDotted(c2.1).value;
    assert v == Version(c1.0, c2.0, c3.0) && c3.1 == [];
    ParseComponentInverse(s, c1.0, c1.1);
    ParseDottedInverse(c1.1, c2.0, c2.1);
    ParseDottedInverse(c2.1, c3.0, c3.1);
    FormatSplits(v);
  }

  /** The three numeric bumps on a formatted version, and no increment for any other mode. */
  lemma IncOfFormat(v: Version, mode: string)
    ensures mode == "major" ==> Inc(Format(v), mode) == Some(Format(Version(v.major + 1, 0, 0)))
    ensures mode == "minor" ==> Inc(Format(v), mode) == Some(Format(Version(v.major, v.minor + 1, 0)))
    ensures mode == "patch" ==> Inc(Format(v), mode) == Some(Format(Version(v.major, v.minor, v.patch + 1)))
    ensures mode !in {"major", "minor", "patch"} ==> Inc(Format(v), mode) == None
  {
    ParseOfFormat(v);
  }

  /** An increment is always a well-formed version, strictly after the one it came from. */
  lemma IncIsLater(version: string, mode: string)
    requires Inc(version, mode).Some?
    ensures Parse(Inc(version, mode).value).Some?
    ensures Later(Parse(Inc(version, mode).value).value, Parse(version).value)
  {
    var w := Bump(Parse(version).value, mode).value;
    ParseOfFormat(w);
  }

  /** An increment never yields the text `null`: a formatted version starts with a digit. */
  lemma IncNeverNull(version: string, mode: string)
    ensures Inc(version, mode) != Some("null")
  {
    if Inc(version, mode).Some? {
      var w := Bump(Parse(version).value, mode).value;
      var major := NatToString(w.major);
      assert Format(w)[0] == major[0];
      assert IsDigit(major[0]) && !IsDigit('n');
    }
  }

  /** Precedence of numeric versions. */
  predicate Later(a: Version, b: Version)
  {
    a.major > b.major
    || (a.major == b.major && a.minor > b.minor)
    || (a.major == b.major && a.minor == b.minor && a.patch > b.patch)
  }
}
