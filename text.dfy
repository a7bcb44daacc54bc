/** ASCII character classes and string helpers shared by the lexers and the later stages. */
module Text {

  /** `\d` and the characters of `str.isdigit`, restricted to ASCII. */
  predicate IsDigit(c: char) { '0' <= c <= '9' }

  predicate IsLetter(c: char) { 'a' <= c <= 'z' || 'A' <= c <= 'Z' }

  /** `[a-zA-Z_]`: a character that may begin an identifier. */
  predicate IsIdentStart(c: char) { IsLetter(c) || c == '_' }

  /** `[a-zA-Z0-9_]`: a character that may continue an identifier. */
  predicate IsIdentChar(c: char) { IsIdentStart(c) || IsDigit(c) }

  /** The one-character operator class of the lexers: plus, minus, times, slash, caret. */
  predicate IsOpChar(c: char) { c == '+' || c == '-' || c == '*' || c == '/' || c == '^' }

  /** `str.isdigit()` on ASCII strings: non-empty and digits only. */
  predicate IsDigits(s: string) {
    |s| > 0 && forall i :: 0 <= i < |s| ==> IsDigit(s[i])
  }

  /** `str.isidentifier()` on ASCII strings. */
  predicate IsIdentifier(s: string) {
    |s| > 0 && IsIdentStart(s[0]) && forall i :: 0 < i < |s| ==> IsIdentChar(s[i])
  }

  /** An operand of the later stages: a number or a name. */
  predicate IsOperand(s: string) { IsDigits(s) || IsIdentifier(s) }

  /** A one-character token that is no digit, letter or underscore is neither a number nor a name. */
  lemma SymbolIsNoOperand(c: char)
    requires !IsIdentChar(c)
    ensures !IsOperand([c])
  {
    assert [c][0] == c;
  }

  lemma DigitsAreNotIdentifiers(s: string)
    requires IsDigits(s)
    ensures !IsIdentifier(s)
  {
    assert IsDigit(s[0]);
  }

  /**
   * Length of the longest prefix of `s` whose characters all satisfy `p`:
   * what a greedy `[...]+` or `[...]*` takes at the start of `s`.
   */
  function RunLength(p: char -> bool, s: string): (n: nat)
    ensures n <= |s|
    ensures forall i :: 0 <= i < n ==> p(s[i])
    ensures n < |s| ==> !p(s[n])
  {
    if s == [] || !p(s[0]) then 0 else 1 + RunLength(p, s[1..])
  }

  /** The run ends exactly where `p` first fails. */
  lemma RunLengthOf(p: char -> bool, a: string, b: string)
    requires forall i :: 0 <= i < |a| ==> p(a[i])
    requires b == [] || !p(b[0])
    ensures RunLength(p, a + b) == |a|
  {
    var n := RunLength(p, a + b);
    assert forall i :: 0 <= i < |a| ==> (a + b)[i] == a[i];
    assert |a| < |a + b| ==> (a + b)[|a|] == b[0];
  }

  /** The greedy match of a character class starting at `s[i]`, one character at a time. */
  method ScanRun(p: char -> bool, s: string, i: nat) returns (j: nat)
    requires i <= |s|
    ensures i <= j <= |s|
    ensures j - i == RunLength(p, s[i..])
  {
    j := i;
    while j < |s| && p(s[j])
      invariant i <= j <= |s|
      invariant forall k :: i <= k < j ==> p(s[k])
    {
      j := j + 1;
    }
    assert s[i..] == s[i..j] + s[j..];
    RunLengthOf(p, s[i..j], s[j..]);
  }

  /** `sep.join(parts)`. */
  function Join(parts: seq<string>, sep: string): (r: string)
    ensures |parts| == 1 ==> r == parts[0]
  {
    if |parts| == 0 then ""
    else if |parts| == 1 then parts[0]
    else parts[0] + sep + Join(parts[1..], sep)
  }

  /** A joined string starts with the first part. */
  lemma JoinHead(parts: seq<string>, sep: string)
    requires |parts| > 0 && |parts[0]| > 0
    ensures |Join(parts, sep)| > 0 && Join(parts, sep)[0] == parts[0][0]
  {
  }

  /** Splits at every single space: the inverse of `Join(_, " ")` on words without spaces. */
  function Split(s: string): (parts: seq<string>)
    decreases |s|
  {
    var k := RunLength(c => c != ' ', s);
    if k == |s| then [s] else [s[..k]] + Split(s[k + 1..])
  }

  predicate IsWord(w: string) { |w| > 0 && forall i :: 0 <= i < |w| ==> w[i] != ' ' }

  /** Joining words with single spaces loses nothing: splitting gives the words back. */
  lemma {:induction false} SplitJoin(parts: seq<string>)
    requires |parts| > 0
    requires forall i :: 0 <= i < |parts| ==> IsWord(parts[i])
    ensures Split(Join(parts, " ")) == parts
  {
    var w := parts[0];
    if |parts| == 1 {
      RunLengthOf(c => c != ' ', w, []);
      assert w + [] == w;
    } else {
      var rest := Join(parts[1..], " ");
      assert Join(parts, " ") == w + (" " + rest);
      RunLengthOf(c => c != ' ', w, " " + rest);
      assert (w + (" " + rest))[..|w|] == w;
      assert (w + (" " + rest))[|w| + 1..] == rest;
      SplitJoin(parts[1..]);
      assert parts == [w] + parts[1..];
    }
  }

  /** `"".join(parts)`. */
  function Concat(parts: seq<string>): (r: string)
    ensures |r| == 0 <==> forall i :: 0 <= i < |parts| ==> parts[i] == []
  {
    if parts == [] then "" else parts[0] + Concat(parts[1..])
  }

  /** The characters of `s` that `keep` accepts, in order. */
  function Keep(keep: char -> bool, s: string): (r: string)
    ensures |r| <= |s|
    ensures forall i :: 0 <= i < |r| ==> keep(r[i])
  {
    if s == [] then "" else (if keep(s[0]) then [s[0]] else "") + Keep(keep, s[1..])
  }

  /** Filtering a string whose first `n` characters are all kept, or all dropped. */
  lemma {:induction false} KeepPrefix(keep: char -> bool, s: string, n: nat, kept: bool)
    requires n <= |s|
    requires forall i :: 0 <= i < n ==> keep(s[i]) == kept
    ensures Keep(keep, s) == (if kept then s[..n] else "") + Keep(keep, s[n..])
    decreases n
  {
    if n == 0 {
      assert s[n..] == s;
    } else {
      var t := s[1..];
      forall i | 0 <= i < n - 1 ensures keep(t[i]) == kept {
        assert t[i] == s[i + 1];
      }
      KeepPrefix(keep, t, n - 1, kept);
      assert t[n - 1..] == s[n..];
      if kept {
        assert [s[0]] + t[..n - 1] == s[..n];
      }
    }
  }

  /** The elements of `s`, last first: the order in which a stack is emptied. */
  function Reversed<T>(s: seq<T>): (r: seq<T>)
    ensures |r| == |s|
    decreases |s|
  {
    if |s| == 0 then [] else [s[|s| - 1]] + Reversed(s[..|s| - 1])
  }

  lemma {:induction false} ReversedAt<T>(s: seq<T>, i: nat)
    requires i < |s|
    ensures Reversed(s)[i] == s[|s| - 1 - i]
    decreases |s|
  {
    if i > 0 {
      ReversedAt(s[..|s| - 1], i - 1);
    }
  }
}
