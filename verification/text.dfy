/**
  Character-level helpers shared by the table renderer: runs of one
  character, concatenation of a list of lines, and trimming of spaces.
  Strings are sequences of ASCII characters; a string's length is its
  number of bytes, as Go's `len` counts it.
 */
module Text {

  /** `n` copies of the character `c`. */
  function Repeat(c: char, n: nat): (r: string)
    ensures |r| == n
    ensures forall k :: 0 <= k < n ==> r[k] == c
  {
    if n == 0 then "" else [c] + Repeat(c, n - 1)
  }

  /** A run of `n` blanks, the padding material of every cell. */
  function Spaces(n: nat): (r: string)
    ensures |r| == n
    ensures forall k :: 0 <= k < n ==> r[k] == ' '
  {
    Repeat(' ', n)
  }

  /** The lines of `parts`, written one after the other. */
  function Concat(parts: seq<string>): string
  {
    if |parts| == 0 then "" else parts[0] + Concat(parts[1..])
  }

  /** Total number of characters in `parts`. */
  function TotalLength(parts: seq<string>): nat
  {
    if |parts| == 0 then 0 else |parts[0]| + TotalLength(parts[1..])
  }

  /** A line followed by a newline keeps every character and slice of the line. */
  lemma NewlineKeepsLine(line: string)
    ensures |line + "\n"| == |line| + 1 && (line + "\n")[|line|] == '\n'
    ensures forall k :: 0 <= k < |line| ==> (line + "\n")[k] == line[k]
    ensures forall i, j :: 0 <= i <= j <= |line| ==> (line + "\n")[i..j] == line[i..j]
  {

  }

  /** Drops the leading blanks of `s`. */
  function TrimLeft(s: string): (r: string)
    ensures |r| <= |s|
    ensures r == s[|s| - |r|..]
    ensures |r| > 0 ==> r[0] != ' '
  {
    if |s| > 0 && s[0] == ' ' then TrimLeft(s[1..]) else s
  }

  /** Drops the trailing blanks of `s`. */
  function TrimRight(s: string): (r: string)
    ensures |r| <= |s|
    ensures r == s[..|r|]
    ensures |r| > 0 ==> r[|r| - 1] != ' '
  {
    if |s| > 0 && s[|s| - 1] == ' ' then TrimRight(s[..|s| - 1]) else s
  }

  /** Drops the blanks at both ends of `s`. */
  function Strip(s: string): string
  {
    TrimRight(TrimLeft(s))
  }

  /** A string is already stripped when neither end is a blank. */
  predicate Unpadded(s: string)
  {
    |s| == 0 || (s[0] != ' ' && s[|s| - 1] != ' ')
  }

  lemma {:induction false} TrimLeftSpaces(n: nat, t: string)
    ensures TrimLeft(Spaces(n) + t) == TrimLeft(t)
    decreases n
  {
    var s := Spaces(n) + t;
    if n == 0 {
      assert s == t;
    } else {
      assert s[0] == ' ';
      assert s[1..] == Spaces(n - 1) + t;
      TrimLeftSpaces(n - 1, t);
    }
  }

  lemma {:induction false} TrimRightSpaces(t: string, n: nat)
    ensures TrimRight(t + Spaces(n)) == TrimRight(t)
    decreases n
  {
    var s := t + Spaces(n);
    if n == 0 {
      assert s == t;
    } else {
      assert s[|s| - 1] == ' ';
      assert s[..|s| - 1] == t + Spaces(n - 1);
      TrimRightSpaces(t, n - 1);
    }
  }

  /**
    Surrounding an unpadded string with blanks and then stripping them
    gives the string back.
   */
  lemma StripSurrounded(left: nat, t: string, right: nat)
    requires Unpadded(t)
    ensures Strip(Spaces(left) + t + Spaces(right)) == t
  {
    assert Spaces(left) + t + Spaces(right) == Spaces(left) + (t + Spaces(right));
    TrimLeftSpaces(left, t + Spaces(right));
    if |t| == 0 {
      assert t + Spaces(right) == Spaces(right) + "";
      TrimLeftSpaces(right, "");
      assert TrimLeft(Spaces(right)) == "";
    } else {
      assert TrimLeft(t + Spaces(right)) == t + Spaces(right);
      TrimRightSpaces(t, right);
    }
  }
}
