/** String helpers with the meaning Python gives them on ASCII text. */
module Text {

  /** Python's whitespace for `str.strip()`: space, tab, newline, vertical tab, form feed, return. */
  predicate IsWhitespace(c: char) {
    c == ' ' || '\t' <= c <= '\r'
  }

  function LowerChar(c: char): char {
    if 'A' <= c <= 'Z' then (c as int + 32) as char else c
  }

  function UpperChar(c: char): char {
    if 'a' <= c <= 'z' then (c as int - 32) as char else c
  }

  /** `s.lower()` */
  function Lower(s: string): (r: string)
    ensures |r| == |s|
    ensures forall i :: 0 <= i < |s| ==> r[i] == LowerChar(s[i])
  {
    seq(|s|, i requires 0 <= i < |s| => LowerChar(s[i]))
  }

  predicate StartsWith(s: string, prefix: string) {
    |prefix| <= |s| && s[..|prefix|] == prefix
  }

  /** `pattern` occurs in `s` starting at index `i`. */
  predicate OccursAt(s: string, pattern: string, i: nat) {
    i + |pattern| <= |s| && s[i..i + |pattern|] == pattern
  }

  /** Python's `pattern in s` for strings. */
  function Contains(s: string, pattern: string): (b: bool)
    ensures b <==> exists i: nat :: OccursAt(s, pattern, i)
    decreases |s|
  {
    if |s| < |pattern| then
      assert forall i: nat :: !OccursAt(s, pattern, i);
      false
    else if s[..|pattern|] == pattern then
      assert OccursAt(s, pattern, 0);
      true
    else
      var b := Contains(s[1..], pattern);
      assert forall i: nat :: OccursAt(s[1..], pattern, i) <==> OccursAt(s, pattern, i + 1) by {
        forall i: nat ensures OccursAt(s[1..], pattern, i) <==> OccursAt(s, pattern, i + 1) {
          if i + |pattern| <= |s| - 1 {
            assert s[1..][i..i + |pattern|] == s[i + 1..i + 1 + |pattern|];
          }
        }
      }
      assert b ==> exists i: nat :: OccursAt(s, pattern, i) by {
        if b {
          var i: nat :| OccursAt(s[1..], pattern, i);
          assert OccursAt(s, pattern, i + 1);
        }
      }
      assert (exists i: nat :: OccursAt(s, pattern, i)) ==> b by {
        if exists i: nat :: OccursAt(s, pattern, i) {
          var i: nat :| OccursAt(s, pattern, i);
          assert i != 0;
          assert OccursAt(s[1..], pattern, i - 1);
        }
      }
      b
  }

  /** `s.lstrip(chars)`: drops the leading characters that belong to `chars`. */
  function LStrip(s: string, chars: char -> bool): (r: string)
    ensures |r| <= |s| && r == s[|s| - |r|..]
    ensures forall i :: 0 <= i < |s| - |r| ==> chars(s[i])
    ensures r == [] || !chars(r[0])
    decreases |s|
  {
    if |s| > 0 && chars(s[0]) then LStrip(s[1..], chars) else s
  }

  /** `s.rstrip(chars)`: drops the trailing characters that belong to `chars`. */
  function RStrip(s: string, chars: char -> bool): (r: string)
    ensures |r| <= |s| && r == s[..|r|]
    ensures forall i :: |r| <= i < |s| ==> chars(s[i])
    ensures r == [] || !chars(r[|r| - 1])
    decreases |s|
  {
    if |s| > 0 && chars(s[|s| - 1]) then RStrip(s[..|s| - 1], chars) else s
  }

  /** `s.strip(chars)` */
  function Strip(s: string, chars: char -> bool): string {
    RStrip(LStrip(s, chars), chars)
  }

  /** `s.strip()` and `s.lstrip()` without arguments strip whitespace. */
  function StripWhitespace(s: string): string {
    Strip(s, IsWhitespace)
  }

  function LStripWhitespace(s: string): string {
    LStrip(s, IsWhitespace)
  }

  /** Python's slice `s[n:]`, which is empty when `s` is shorter than `n`. */
  function DropPrefix(s: string, n: nat): (r: string)
    ensures |s| <= n ==> r == ""
    ensures n < |s| ==> r == s[n..]
  {
    if n < |s| then s[n..] else ""
  }
}
