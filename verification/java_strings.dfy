/**
 * The few Java string operations the task service relies on, with the
 * edge cases of the Java library written out: StringUtils.isBlank,
 * String.split on a one-character separator (which drops trailing empty
 * pieces, and returns the whole string when the separator does not occur),
 * and String.contains.
 */
module JavaStrings {
  import opened TaskTypes

  /** Character.isWhitespace. */
  predicate IsWhitespace(c: char)
  {
    c == ' ' || c == '\t' || c == '\n' || c == '\r' || c == '\U{B}' || c == '\U{C}'
    || ('\U{1C}' <= c <= '\U{1F}')
    || c == '\U{1680}' || ('\U{2000}' <= c <= '\U{2006}') || ('\U{2008}' <= c <= '\U{200A}')
    || c == '\U{2028}' || c == '\U{2029}' || c == '\U{205F}' || c == '\U{3000}'
  }

  /** StringUtils.isBlank: null, empty, or whitespace only. */
  predicate IsBlank(s: Option<string>)
  {
    s.None? || forall i :: 0 <= i < |s.value| ==> IsWhitespace(s.value[i])
  }

  /** String.contains. */
  predicate Contains(s: string, part: string)
    decreases |s|
  {
    if |s| < |part| then false
    else s[..|part|] == part || Contains(s[1..], part)
  }

  /** The pieces joined back with newline characters between them. */
  function JoinLines(ps: seq<string>): string
    decreases |ps|
  {
    if ps == [] then ""
    else if |ps| == 1 then ps[0]
    else ps[0] + "\n" + JoinLines(ps[1..])
  }

  /** `k` empty strings. */
  function Empties(k: nat): seq<string>
  {
    seq(k, _ => "")
  }

  /** The pieces of `s` between newline characters, empty pieces included:
      one more piece than there are newlines, and joining them with
      newlines gives `s` back. */
  function Pieces(s: string): (r: seq<string>)
    ensures |r| >= 1
    ensures forall i :: 0 <= i < |r| ==> '\n' !in r[i]
    ensures '\n' !in s ==> r == [s]
    ensures JoinLines(r) == s
    decreases |s|
  {
    if |s| == 0 then [""]
    else
      var rest := Pieces(s[1..]);
      if s[0] == '\n' then
        assert s == "\n" + s[1..];
        [""] + rest
      else
        assert s == [s[0]] + s[1..];
        assert '\n' !in s ==> '\n' !in s[1..];
        var r := [[s[0]] + rest[0]] + rest[1..];
        assert |rest| > 1 ==> r[1..] == rest[1..];
        r
  }

  /** Removes the empty strings at the end of a list of pieces. */
  function DropTrailingEmpty(ps: seq<string>): (r: seq<string>)
    ensures |r| <= |ps| && r == ps[..|r|]
    ensures r != [] ==> r[|r| - 1] != ""
    ensures forall i :: |r| <= i < |ps| ==> ps[i] == ""
    decreases |ps|
  {
    if ps != [] && ps[|ps| - 1] == "" then DropTrailingEmpty(ps[..|ps| - 1]) else ps
  }

  /**
   * s.split("\n") in Java: a text without a newline is its own single
   * line; otherwise the lines are the pieces between the newlines with the
   * trailing empty ones dropped, so joining the lines and the dropped
   * empty pieces gives the text back, and the last line is not empty.
   */
  function SplitLines(s: string): (r: seq<string>)
    ensures forall i :: 0 <= i < |r| ==> '\n' !in r[i]
    ensures '\n' !in s ==> r == [s]
    ensures '\n' in s && r != [] ==> r[|r| - 1] != ""
    ensures exists k: nat :: JoinLines(r + Empties(k)) == s
  {
    if '\n' !in s then
      assert JoinLines([s] + Empties(0)) == s;
      [s]
    else
      var ps := Pieces(s);
      var r := DropTrailingEmpty(ps);
      assert ps == r + Empties(|ps| - |r|);
      r
  }
}
