/**
 * The few JavaScript string and value conventions the plugin relies on:
 * truthiness of optional strings, `a || b`, string conversion of `undefined`
 * and `null`, `String.prototype.indexOf`, `String.prototype.substr` and
 * `Array.prototype.join`.
 */
module JsText {
  import opened Wrappers

  /** `t` occurs in `s` starting at index `i`. */
  predicate OccursAt(t: string, s: string, i: nat)
  {
    i + |t| <= |s| && s[i..i + |t|] == t
  }

  /** `t` is a substring of `s`. */
  ghost predicate Contains(s: string, t: string)
  {
    exists i: nat :: OccursAt(t, s, i)
  }

  /** A one-character needle occurs exactly where that character is. */
  lemma OccursAtChar(c: char, s: string, i: nat)
    ensures OccursAt([c], s, i) <==> i < |s| && s[i] == c
  {
    if i < |s| {
      assert s[i..i + 1] == [s[i]];
    }
  }

  /** A needle holding a character the haystack lacks occurs nowhere. */
  lemma {:induction false} ForeignCharNotContained(s: string, t: string, c: char)
    requires c in t && c !in s
    ensures !Contains(s, t)
  {
    var k :| 0 <= k < |t| && t[k] == c;
    forall i: nat | i + |t| <= |s|
      ensures !OccursAt(t, s, i)
    {
      assert s[i..i + |t|][k] == s[i + k];
    }
  }

  /** A string occurs at the start of any string it begins. */
  lemma OccursAtStart(t: string, rest: string)
    ensures OccursAt(t, t + rest, 0)
  {
    assert (t + rest)[..|t|] == t;
  }

  /** An occurrence in `b` is an occurrence in `a + b`, shifted by `|a|`. */
  lemma OccursAtShift(t: string, a: string, b: string, i: nat)
    requires OccursAt(t, b, i)
    ensures OccursAt(t, a + b, |a| + i)
  {
    assert (a + b)[|a| + i..|a| + i + |t|] == b[i..i + |t|];
  }

  /** Where a string occurs, so does each of its pieces, at its own offset. */
  lemma OccursAtSlice(t: string, s: string, i: nat, j: nat, k: nat)
    requires OccursAt(t, s, i) && j <= k <= |t|
    ensures OccursAt(t[j..k], s, i + j)
  {
    forall x | 0 <= x < k - j
      ensures s[i + j..i + k][x] == t[j..k][x]
    {
      assert t[j + x] == s[i..i + |t|][j + x];
    }
  }

  /** A character of a joined string comes from the separator or from one of the parts. */
  lemma {:induction false} JoinChars(parts: seq<string>, sep: string, c: char)
    requires c !in sep
    requires forall p :: p in parts ==> c !in p
    ensures c !in Join(parts, sep)
  {
    if |parts| > 1 {
      assert forall p :: p in parts[1..] ==> p in parts;
      JoinChars(parts[1..], sep, c);
      assert parts[0] in parts;
    } else if |parts| == 1 {
      assert parts[0] in parts;
    }
  }

  /** Search for `t` in `s` from index `k` on: the first occurrence, or -1. */
  function IndexFrom(s: string, t: string, k: nat): (r: int)
    decreases |s| - k
    ensures r == -1 || (k <= r && OccursAt(t, s, r))
    ensures r >= 0 ==> forall j: nat :: k <= j < r ==> !OccursAt(t, s, j)
    ensures r == -1 ==> forall j: nat :: k <= j ==> !OccursAt(t, s, j)
  {
    if k + |t| > |s| then -1
    else if s[k..k + |t|] == t then k
    else IndexFrom(s, t, k + 1)
  }

  /** `s.indexOf(t)`: the index of the first occurrence of `t` in `s`, or -1 when there is none. */
  function IndexOf(s: string, t: string): (r: int)
    ensures r < 0 <==> !Contains(s, t)
    ensures r >= 0 ==> OccursAt(t, s, r) && forall j: nat :: j < r ==> !OccursAt(t, s, j)
  {
    IndexFrom(s, t, 0)
  }

  /**
   * `s.substr(start, length)` (ECMAScript Annex B): a negative start counts
   * from the end, and a length that is not positive gives the empty string.
   */
  function Substr(s: string, start: int, length: int): (r: string)
    ensures 0 <= start && 0 <= length && start + length <= |s| ==> r == s[start..start + length]
    ensures length <= 0 ==> r == ""
    ensures start == 0 && length >= |s| ==> r == s
    ensures |r| <= |s|
  {
    var from := if start < 0 then (if |s| + start < 0 then 0 else |s| + start)
                else if start > |s| then |s| else start;
    var len := if length < 0 then 0 else if length > |s| - from then |s| - from else length;
    s[from..from + len]
  }

  /** A JavaScript value that is either a string or `undefined`/`null` is truthy when it is a non-empty string. */
  predicate Truthy(v: Option<string>)
  {
    v.Some? && v.value != ""
  }

  /** `a || b` for an optional string `a` and a string `b`. */
  function Or(a: Option<string>, b: string): (r: string)
    ensures Truthy(a) ==> r == a.value
    ensures !Truthy(a) ==> r == b
  {
    if Truthy(a) then a.value else b
  }

  /** The string a missing property becomes when concatenated to a string. */
  function Undefined(v: Option<string>): (r: string)
    ensures v.Some? ==> r == v.value
    ensures v.None? ==> r == "undefined"
  {
    match v
    case Some(s) => s
    case None => "undefined"
  }

  /** The string a `null`-or-string value becomes when concatenated to a string. */
  function Nullable(v: Option<string>): (r: string)
    ensures v.Some? ==> r == v.value
    ensures v.None? ==> r == "null"
  {
    match v
    case Some(s) => s
    case None => "null"
  }

  /** A property lookup on a JavaScript object modelled as a map. */
  function Get(m: map<string, string>, key: string): (r: Option<string>)
    ensures r.Some? <==> key in m
    ensures r.Some? ==> r.value == m[key]
  {
    if key in m then Some(m[key]) else None
  }

  /** `parts.join(sep)`: the parts in order with `sep` between neighbours. */
  function Join(parts: seq<string>, sep: string): (r: string)
    ensures |parts| == 0 ==> r == ""
    ensures |parts| == 1 ==> r == parts[0]
  {
    if |parts| == 0 then ""
    else if |parts| == 1 then parts[0]
    else parts[0] + sep + Join(parts[1..], sep)
  }

  /** A join begins with the first part and ends with the last. */
  lemma {:induction false} JoinEnds(parts: seq<string>, sep: string)
    requires |parts| > 0
    ensures OccursAt(parts[0], Join(parts, sep), 0)
    ensures var last := parts[|parts| - 1];
      |last| <= |Join(parts, sep)| && OccursAt(last, Join(parts, sep), |Join(parts, sep)| - |last|)
  {
    var r := Join(parts, sep);
    var last := parts[|parts| - 1];
    if |parts| == 1 {
      assert r[0..|r|] == r;
    } else {
      var rest := Join(parts[1..], sep);
      JoinEnds(parts[1..], sep);
      assert parts[1..][|parts[1..]| - 1] == last;
      assert r == parts[0] + (sep + rest);
      OccursAtStart(parts[0], sep + rest);
      OccursAtShift(last, parts[0] + sep, rest, |rest| - |last|);
    }
  }
}
