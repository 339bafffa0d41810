/**
 * The JavaScript string built-ins that the form's rules rely on, over Dafny
 * strings (sequences of Unicode scalar values): the `\s` character class and
 * `trim`, `split(/\s+/)`, `toLowerCase` (ASCII letters only), `includes`,
 * and `length` (which JavaScript counts in UTF-16 code units).
 */
module JsText {

  /** ECMAScript's WhiteSpace and LineTerminator code points: what `\s` matches and what `trim` strips. */
  predicate IsJsSpace(c: char)
  {
    var n := c as int;
    n == 0x09 || n == 0x0A || n == 0x0B || n == 0x0C || n == 0x0D || n == 0x20 || n == 0xA0 ||
    n == 0x1680 || (0x2000 <= n <= 0x200A) || n == 0x2028 || n == 0x2029 || n == 0x202F ||
    n == 0x205F || n == 0x3000 || n == 0xFEFF
  }

  predicate IsAsciiLetter(c: char)
  {
    'a' <= c <= 'z' || 'A' <= c <= 'Z'
  }

  predicate IsAsciiDigit(c: char)
  {
    '0' <= c <= '9'
  }

  /** Code points above U+FFFF take a surrogate pair in UTF-16. */
  predicate IsBmp(c: char)
  {
    c as int < 0x1_0000
  }

  /** `s.length`: the number of UTF-16 code units of `s`. */
  function JsLength(s: string): (n: nat)
    ensures |s| <= n <= 2 * |s|
    ensures n == 0 <==> s == []
    ensures (forall i :: 0 <= i < |s| ==> IsBmp(s[i])) ==> n == |s|
  {
    if s == [] then 0 else (if IsBmp(s[0]) then 1 else 2) + JsLength(s[1..])
  }

  /** Strips the leading whitespace of `s`. */
  function TrimStart(s: string): (r: string)
    ensures |r| <= |s| && r == s[|s| - |r|..]
    ensures forall i :: 0 <= i < |s| - |r| ==> IsJsSpace(s[i])
    ensures r != [] ==> !IsJsSpace(r[0])
    ensures s != [] && IsJsSpace(s[0]) ==> |r| < |s|
  {
    if s != [] && IsJsSpace(s[0]) then TrimStart(s[1..]) else s
  }

  /** Strips the trailing whitespace of `s`. */
  function TrimEnd(s: string): (r: string)
    ensures |r| <= |s| && r == s[..|r|]
    ensures forall i :: |r| <= i < |s| ==> IsJsSpace(s[i])
    ensures r != [] ==> !IsJsSpace(r[|r| - 1])
  {
    if s != [] && IsJsSpace(s[|s| - 1]) then TrimEnd(s[..|s| - 1]) else s
  }

  /** `s.trim()` */
  function Trim(s: string): string
  {
    TrimEnd(TrimStart(s))
  }

  /**
   * What `trim` keeps is the slice `s[a..b]` between a whitespace prefix and a
   * whitespace suffix; when it is non-empty it starts and ends with a
   * non-whitespace character.
   */
  lemma TrimSlice(s: string) returns (a: nat, b: nat)
    ensures a <= b <= |s| && Trim(s) == s[a..b]
    ensures forall i :: 0 <= i < a ==> IsJsSpace(s[i])
    ensures forall i :: b <= i < |s| ==> IsJsSpace(s[i])
    ensures a < b ==> !IsJsSpace(s[a]) && !IsJsSpace(s[b - 1])
  {
    var t := TrimStart(s);
    var u := TrimEnd(t);
    a := |s| - |t|;
    b := a + |u|;
    PrefixOfSuffix(s, t, u, a);
    if a < b {
      assert s[a] == u[0] == t[0];
      assert s[b - 1] == u[|u| - 1];
    }
  }

  /** A prefix `u` of the suffix `t == s[a..]` is the slice `s[a..a + |u|]`, and what follows it in `t` follows it in `s`. */
  lemma PrefixOfSuffix(s: string, t: string, u: string, a: nat)
    requires a <= |s| && t == s[a..] && |u| <= |t| && u == t[..|u|]
    ensures s[a..a + |u|] == u
    ensures forall i :: a + |u| <= i < |s| ==> s[i] == t[i - a]
  {
  }

  /** A string with a non-whitespace character does not trim to the empty string. */
  lemma TrimKeepsNonSpace(s: string, i: nat)
    requires i < |s| && !IsJsSpace(s[i])
    ensures Trim(s) != []
  {
    var a, b := TrimSlice(s);
  }

  /** `trim` keeps a slice of its input: the trimmed string occurs in the string. */
  lemma TrimOccursIn(s: string)
    ensures exists i :: OccursAt(s, Trim(s), i)
  {
    var a, b := TrimSlice(s);
    assert OccursAt(s, Trim(s), a);
  }

  /** The index of the first whitespace character of `s`, or `|s|` when there is none. */
  function FirstSpace(s: string): (k: nat)
    ensures k <= |s|
    ensures forall i :: 0 <= i < k ==> !IsJsSpace(s[i])
    ensures k < |s| ==> IsJsSpace(s[k])
  {
    if s == [] || IsJsSpace(s[0]) then 0 else 1 + FirstSpace(s[1..])
  }

  /**
   * `s.split(/\s+/)`: the pieces of `s` between maximal runs of whitespace.
   * A leading or trailing run yields an empty first or last piece, and the
   * empty string splits into one empty piece.
   */
  function SplitOnSpaceRuns(s: string): (r: seq<string>)
    ensures |r| >= 1
    ensures |r| >= 2 <==> exists i :: 0 <= i < |s| && IsJsSpace(s[i])
    ensures forall t, i :: t in r && 0 <= i < |t| ==> !IsJsSpace(t[i])
    decreases |s|
  {
    var k := FirstSpace(s);
    if k == |s| then [s]
    else [s[..k]] + SplitOnSpaceRuns(TrimStart(s[k..]))
  }

  /** `toLowerCase` on one character, restricted to the ASCII letters. */
  function LowerChar(c: char): (d: char)
    ensures 'A' <= c <= 'Z' ==> d as int == c as int + 32
    ensures !('A' <= c <= 'Z') ==> d == c
  {
    if 'A' <= c <= 'Z' then (c as int + 32) as char else c
  }

  /** `s.toLowerCase()` with ASCII case mapping. */
  function ToLowerAscii(s: string): (r: string)
    ensures |r| == |s|
    ensures forall i :: 0 <= i < |s| ==> r[i] == LowerChar(s[i])
  {
    if s == [] then [] else [LowerChar(s[0])] + ToLowerAscii(s[1..])
  }

  /** `needle` occurs in `hay` starting at index `i`. */
  ghost predicate OccursAt(hay: string, needle: string, i: int)
  {
    0 <= i && i + |needle| <= |hay| && hay[i..i + |needle|] == needle
  }

  /** `hay.includes(needle)`: a left-to-right search for `needle` in `hay`. */
  function Includes(hay: string, needle: string): (b: bool)
    ensures b <==> exists i :: OccursAt(hay, needle, i)
    decreases |hay|
  {
    if needle <= hay then
      assert OccursAt(hay, needle, 0);
      true
    else if hay == [] then
      false
    else
      ShiftOccurrence(hay, needle);
      Includes(hay[1..], needle)
  }

  /** Away from index 0, the occurrences in `hay` are those in `hay[1..]`, shifted by one. */
  lemma ShiftOccurrence(hay: string, needle: string)
    requires hay != [] && !(needle <= hay)
    ensures (exists i :: OccursAt(hay, needle, i)) <==> (exists i :: OccursAt(hay[1..], needle, i))
  {
    if i :| OccursAt(hay, needle, i) {
      assert i != 0;
      assert hay[1..][i - 1..i - 1 + |needle|] == hay[i..i + |needle|];
      assert OccursAt(hay[1..], needle, i - 1);
    }
    if j :| OccursAt(hay[1..], needle, j) {
      assert hay[1..][j..j + |needle|] == hay[j + 1..j + 1 + |needle|];
      assert OccursAt(hay, needle, j + 1);
    }
  }
}
