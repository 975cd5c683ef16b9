/** Text helpers shared by the back end (Python `str`) and the front end
    (JavaScript strings): substring and prefix tests, trimming with the
    whitespace set of each language, and JavaScript's UTF-16 length. */
module Strings {

  /** `p` occurs in `s` starting at index `i`. */
  predicate OccursAt(s: string, p: string, i: nat) {
    i + |p| <= |s| && s[i..i + |p|] == p
  }

  /** Python `p in s` for strings. */
  function Contains(s: string, p: string): (r: bool)
    decreases |s|
  {
    if p <= s then true
    else if s == [] then false
    else Contains(s[1..], p)
  }

  lemma OccursShift(s: string, p: string, i: nat)
    requires s != []
    ensures OccursAt(s, p, i + 1) <==> OccursAt(s[1..], p, i)
  {
    if i + 1 + |p| <= |s| {
      assert s[1..][i..i + |p|] == s[i + 1..i + 1 + |p|];
    }
  }

  lemma {:induction false} ContainsIffOccurs(s: string, p: string)
    ensures Contains(s, p) <==> exists i: nat :: OccursAt(s, p, i)
    decreases |s|
  {
    if p <= s {
      assert OccursAt(s, p, 0);
    } else if s == [] {
      assert forall i: nat :: !OccursAt(s, p, i);
    } else {
      ContainsIffOccurs(s[1..], p);
      if Contains(s[1..], p) {
        var i: nat :| OccursAt(s[1..], p, i);
        OccursShift(s, p, i);
      } else {
        forall i: nat ensures !OccursAt(s, p, i) {
          if i > 0 { OccursShift(s, p, i - 1); }
        }
      }
    }
  }

  /** The characters Python's `str.strip()` removes (`str.isspace`). */
  predicate PyWhitespace(c: char) {
    var n := c as int;
    (9 <= n <= 13) || (0x1c <= n <= 0x20) || n == 0x85 || n == 0xa0 || n == 0x1680 ||
    (0x2000 <= n <= 0x200a) || n == 0x2028 || n == 0x2029 || n == 0x202f ||
    n == 0x205f || n == 0x3000
  }

  /** The characters JavaScript's `String.prototype.trim()` removes
      (WhiteSpace and LineTerminator of ECMA-262). */
  predicate JsWhitespace(c: char) {
    var n := c as int;
    (9 <= n <= 13) || n == 0x20 || n == 0xa0 || n == 0x1680 ||
    (0x2000 <= n <= 0x200a) || n == 0x2028 || n == 0x2029 || n == 0x202f ||
    n == 0x205f || n == 0x3000 || n == 0xfeff
  }

  predicate AllWhitespace(s: string, ws: char -> bool) {
    forall k :: 0 <= k < |s| ==> ws(s[k])
  }

  /** Number of whitespace characters at the start of `s`. */
  function LeadingWhitespace(s: string, ws: char -> bool): (n: nat)
    ensures n <= |s|
    ensures AllWhitespace(s[..n], ws)
    ensures n < |s| ==> !ws(s[n])
  {
    if s == [] || !ws(s[0]) then 0 else 1 + LeadingWhitespace(s[1..], ws)
  }

  /** Number of whitespace characters at the end of `s`. */
  function TrailingWhitespace(s: string, ws: char -> bool): (n: nat)
    ensures n <= |s|
    ensures AllWhitespace(s[|s| - n..], ws)
    ensures n < |s| ==> !ws(s[|s| - 1 - n])
  {
    if s == [] || !ws(s[|s| - 1]) then 0
    else 1 + TrailingWhitespace(s[..|s| - 1], ws)
  }

  /** `s == s[..a] + r + s[a + |r|..]` with whitespace on both sides of `r`. */
  predicate TrimmedAt(s: string, r: string, a: nat, ws: char -> bool) {
    a + |r| <= |s| && s[a..a + |r|] == r &&
    AllWhitespace(s[..a], ws) && AllWhitespace(s[a + |r|..], ws)
  }

  /** Remove whitespace (as `ws` defines it) from both ends. */
  function Trim(s: string, ws: char -> bool): (r: string)
    ensures |r| <= |s|
    ensures r == [] <==> AllWhitespace(s, ws)
    ensures r != [] ==> !ws(r[0]) && !ws(r[|r| - 1])
  {
    var a := LeadingWhitespace(s, ws);
    var b := TrailingWhitespace(s[a..], ws);
    if a == |s| then
      assert s[..a] == s;
      []
    else
      assert s[a..][0] == s[a];
      assert !AllWhitespace(s, ws) by { assert !ws(s[a]); }
      assert b < |s[a..]|;
      var r := s[a..][..|s[a..]| - b];
      assert r[0] == s[a];
      r
  }

  /** The trimmed string is the middle of `s`, with only whitespace around it. */
  lemma TrimIsInfix(s: string, ws: char -> bool)
    ensures exists a: nat :: TrimmedAt(s, Trim(s, ws), a, ws)
  {
    var a := LeadingWhitespace(s, ws);
    var rest := s[a..];
    var b := TrailingWhitespace(rest, ws);
    var r := Trim(s, ws);
    if a == |s| {
      assert s[..a] == s;
      assert TrimmedAt(s, r, a, ws);
    } else {
      assert r == rest[..|rest| - b];
      assert s[a..a + |r|] == r;
      assert s[a + |r|..] == rest[|rest| - b..];
      assert TrimmedAt(s, r, a, ws);
    }
  }

  lemma {:induction false} TrimIdempotent(s: string, ws: char -> bool)
    ensures Trim(Trim(s, ws), ws) == Trim(s, ws)
  {
    var r := Trim(s, ws);
    if r != [] {
      assert LeadingWhitespace(r, ws) == 0;
      assert r[0..] == r;
      assert TrailingWhitespace(r, ws) == 0;
      assert r[..|r|] == r;
    }
  }

  /** JavaScript `s.length`: UTF-16 code units, two for a character outside
      the Basic Multilingual Plane. */
  function Utf16Length(s: string): (n: nat)
    ensures |s| <= n <= 2 * |s|
    ensures (forall k :: 0 <= k < |s| ==> s[k] as int < 0x10000) ==> n == |s|
  {
    if s == [] then 0
    else Utf16Length(s[..|s| - 1]) + (if s[|s| - 1] as int >= 0x10000 then 2 else 1)
  }
}
