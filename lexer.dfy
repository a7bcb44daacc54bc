/**
 * The tokenizer of lexer.py. Its regular expression is the alternation of
 * NUMBER, ID, OP, ASSIGN, LPAREN, RPAREN, SKIP and MISMATCH, tried in that
 * order at each position, each character class taken greedily. Here the
 * alternation is a left-to-right scan over ASCII character classes.
 */
module Lexer {
  import opened Results
  import opened Text

  datatype Kind = NUMBER | ID | OP | ASSIGN | LPAREN | RPAREN

  /** The `(kind, value)` pairs the lexer emits. */
  datatype Token = Token(kind: Kind, value: string)

  /** The SyntaxError raised at a MISMATCH match; it names the character. */
  datatype LexError = IllegalCharacter(c: char)

  /** `[ \t]`, the SKIP class. */
  predicate IsBlank(c: char) { c == ' ' || c == '\t' }

  /**
   * A character that does not trigger MISMATCH: one that starts some other
   * alternative, or a newline, which `.` does not match, so that the scan
   * moves past it without a match.
   */
  predicate IsLegal(c: char) {
    IsIdentChar(c) || IsOpChar(c) || c == '=' || c == '(' || c == ')' || IsBlank(c) || c == '\n'
  }

  /** A character that ends up in some token's value. */
  predicate IsTokenChar(c: char) { !IsBlank(c) && c != '\n' }

  /** What the pattern of each kind accepts. */
  predicate WellFormed(t: Token) {
    match t.kind
    case NUMBER => IsDigits(t.value)
    case ID => IsIdentifier(t.value)
    case OP => |t.value| == 1 && IsOpChar(t.value[0])
    case ASSIGN => t.value == "="
    case LPAREN => t.value == "("
    case RPAREN => t.value == ")"
  }

  predicate AllWellFormed(ts: seq<Token>) {
    forall i :: 0 <= i < |ts| ==> WellFormed(ts[i])
  }

  /** The token list of lexer.py for `s`, or the first illegal character. */
  function Lex(s: string): Result<seq<Token>, LexError>
    decreases |s|
  {
    if s == [] then Ok([])
    else if IsDigit(s[0]) then
      var n := RunLength(IsDigit, s);
      PrependAll([Token(NUMBER, s[..n])], Lex(s[n..]))
    else if IsIdentStart(s[0]) then
      var n := RunLength(IsIdentChar, s);
      PrependAll([Token(ID, s[..n])], Lex(s[n..]))
    else if IsOpChar(s[0]) then PrependAll([Token(OP, s[..1])], Lex(s[1..]))
    else if s[0] == '=' then PrependAll([Token(ASSIGN, s[..1])], Lex(s[1..]))
    else if s[0] == '(' then PrependAll([Token(LPAREN, s[..1])], Lex(s[1..]))
    else if s[0] == ')' then PrependAll([Token(RPAREN, s[..1])], Lex(s[1..]))
    else if IsBlank(s[0]) then Lex(s[RunLength(IsBlank, s)..])
    else if s[0] == '\n' then Lex(s[1..])
    else Err(IllegalCharacter(s[0]))
  }

  /** At a digit, the greedy digit run up to `j` becomes one NUMBER token. */
  lemma LexNumberAt(code: string, i: nat, j: nat)
    requires i < |code| && IsDigit(code[i]) && j - i == RunLength(IsDigit, code[i..])
    ensures i < j <= |code|
    ensures Lex(code[i..]) == PrependAll([Token(NUMBER, code[i..j])], Lex(code[j..]))
  {
    var s, n := code[i..], j - i;
    assert s[0] == code[i];
    assert Lex(s) == PrependAll([Token(NUMBER, s[..n])], Lex(s[n..]));
    assert s[..n] == code[i..j] && s[n..] == code[j..];
  }

  /** At an identifier start, the greedy identifier run up to `j` becomes one ID token. */
  lemma LexNameAt(code: string, i: nat, j: nat)
    requires i < |code| && !IsDigit(code[i]) && IsIdentStart(code[i]) && j - i == RunLength(IsIdentChar, code[i..])
    ensures i < j <= |code|
    ensures Lex(code[i..]) == PrependAll([Token(ID, code[i..j])], Lex(code[j..]))
  {
    var s, n := code[i..], j - i;
    assert s[0] == code[i];
    assert Lex(s) == PrependAll([Token(ID, s[..n])], Lex(s[n..]));
    assert s[..n] == code[i..j] && s[n..] == code[j..];
  }

  /** At an operator, `=` or a parenthesis, the one character becomes a token. */
  lemma LexSymbolAt(code: string, i: nat, kind: Kind)
    requires i < |code|
    requires kind == (if IsOpChar(code[i]) then OP else if code[i] == '=' then ASSIGN else if code[i] == '(' then LPAREN else RPAREN)
    requires IsOpChar(code[i]) || code[i] == '=' || code[i] == '(' || code[i] == ')'
    ensures Lex(code[i..]) == PrependAll([Token(kind, code[i..i + 1])], Lex(code[i + 1..]))
  {
    var s := code[i..];
    assert s[0] == code[i] && !IsDigit(code[i]) && !IsIdentStart(code[i]);
    assert s[..1] == code[i..i + 1] && s[1..] == code[i + 1..];
  }

  /** A blank run, or a newline, up to `j` produces nothing. */
  lemma LexSkipAt(code: string, i: nat, j: nat)
    requires i < |code|
    requires (IsBlank(code[i]) && j - i == RunLength(IsBlank, code[i..])) || (code[i] == '\n' && j == i + 1)
    ensures i < j <= |code|
    ensures Lex(code[i..]) == Lex(code[j..])
  {
    var s := code[i..];
    assert s[0] == code[i];
    assert s[j - i..] == code[j..];
  }

  /** `lexer(code)`: appends each match's token to a fresh list, skips blanks, raises on MISMATCH. */
  method Tokenize(code: string) returns (r: Result<seq<Token>, LexError>)
    ensures r == Lex(code)
  {
    var tokens: seq<Token> := [];
    var i := 0;
    assert code[i..] == code;
    while i < |code|
      invariant 0 <= i <= |code|
      invariant Lex(code) == PrependAll(tokens, Lex(code[i..]))
    {
      var c := code[i];
      if IsDigit(c) || IsIdentStart(c) {
        var kind := if IsDigit(c) then NUMBER else ID;
        var j := ScanRun(if IsDigit(c) then IsDigit else IsIdentChar, code, i);
        if IsDigit(c) {
          LexNumberAt(code, i, j);
        } else {
          LexNameAt(code, i, j);
        }
        PrependAllTwice(tokens, [Token(kind, code[i..j])], Lex(code[j..]));
        tokens := tokens + [Token(kind, code[i..j])];
        i := j;
      } else if IsOpChar(c) || c == '=' || c == '(' || c == ')' {
        var kind := if IsOpChar(c) then OP else if c == '=' then ASSIGN else if c == '(' then LPAREN else RPAREN;
        LexSymbolAt(code, i, kind);
        PrependAllTwice(tokens, [Token(kind, code[i..i + 1])], Lex(code[i + 1..]));
        tokens := tokens + [Token(kind, code[i..i + 1])];
        i := i + 1;
      } else if IsBlank(c) {
        var j := ScanRun(IsBlank, code, i);
        LexSkipAt(code, i, j);
        i := j;
      } else if c == '\n' {
        LexSkipAt(code, i, i + 1);
        i := i + 1;
      } else {
        assert code[i..][0] == c;
        return Err(IllegalCharacter(c));
      }
    }
    assert code[i..] == [] && tokens + [] == tokens;
    r := Ok(tokens);
  }

  // ---------------------------------------------------------------------
  // Properties of the token list
  // ---------------------------------------------------------------------

  /** Every emitted token's value is accepted by its kind's pattern. */
  lemma {:induction false} LexWellFormed(s: string)
    requires Lex(s).Ok?
    ensures AllWellFormed(Lex(s).value)
    decreases |s|
  {
    if s == [] {
    } else if IsDigit(s[0]) {
      var n := RunLength(IsDigit, s);
      LexWellFormed(s[n..]);
    } else if IsIdentStart(s[0]) {
      var n := RunLength(IsIdentChar, s);
      LexWellFormed(s[n..]);
    } else if IsOpChar(s[0]) || s[0] == '=' || s[0] == '(' || s[0] == ')' {
      LexWellFormed(s[1..]);
    } else if IsBlank(s[0]) {
      LexWellFormed(s[RunLength(IsBlank, s)..]);
    } else if s[0] == '\n' {
      LexWellFormed(s[1..]);
    }
  }

  /** The values of the tokens, written one after the other. */
  function Spelling(ts: seq<Token>): string {
    if ts == [] then "" else ts[0].value + Spelling(ts[1..])
  }

  /**
   * Tokens come out in source order and nothing but blanks and newlines is
   * lost: their values, written together, are the input without them.
   */
  lemma {:induction false} LexSpelling(s: string)
    requires Lex(s).Ok?
    ensures Spelling(Lex(s).value) == Keep(IsTokenChar, s)
    decreases |s|
  {
    if s == [] {
    } else if IsDigit(s[0]) {
      var n := RunLength(IsDigit, s);
      KeepPrefix(IsTokenChar, s, n, true);
      LexSpelling(s[n..]);
    } else if IsIdentStart(s[0]) {
      var n := RunLength(IsIdentChar, s);
      KeepPrefix(IsTokenChar, s, n, true);
      LexSpelling(s[n..]);
    } else if IsOpChar(s[0]) || s[0] == '=' || s[0] == '(' || s[0] == ')' {
      KeepPrefix(IsTokenChar, s, 1, true);
      LexSpelling(s[1..]);
    } else if IsBlank(s[0]) {
      var n := RunLength(IsBlank, s);
      KeepPrefix(IsTokenChar, s, n, false);
      LexSpelling(s[n..]);
    } else if s[0] == '\n' {
      KeepPrefix(IsTokenChar, s, 1, false);
      LexSpelling(s[1..]);
    }
  }

  /** How far one match at a legal first character moves the scan. */
  function Advance(s: string): (n: nat)
    requires s != [] && IsLegal(s[0])
    ensures 0 < n <= |s|
    ensures forall j :: 0 <= j < n ==> IsLegal(s[j])
  {
    if IsDigit(s[0]) then RunLength(IsDigit, s)
    else if IsIdentStart(s[0]) then RunLength(IsIdentChar, s)
    else if IsBlank(s[0]) then RunLength(IsBlank, s)
    else 1
  }

  /** After one match the scan goes on with the rest, keeping its success or error. */
  lemma LexAdvance(s: string)
    requires s != [] && IsLegal(s[0])
    ensures Lex(s).Err? <==> Lex(s[Advance(s)..]).Err?
    ensures Lex(s).Err? ==> Lex(s).error == Lex(s[Advance(s)..]).error
  {
  }

  /** An input that lexes without error holds legal characters only. */
  lemma {:induction false} LexOkLegal(s: string)
    ensures Lex(s).Ok? ==> forall k :: 0 <= k < |s| ==> IsLegal(s[k])
    decreases |s|
  {
    if s != [] && IsLegal(s[0]) && Lex(s).Ok? {
      var n := Advance(s);
      var t := s[n..];
      LexAdvance(s);
      LexOkLegal(t);
      forall k | n <= k < |s| ensures IsLegal(s[k]) {
        assert s[k] == t[k - n];
      }
    }
  }

  /** A failure names the first illegal character. */
  lemma {:induction false} LexFirstIllegal(s: string)
    ensures Lex(s).Err? ==>
      exists k :: 0 <= k < |s| && !IsLegal(s[k]) && Lex(s).error.c == s[k] &&
        forall j :: 0 <= j < k ==> IsLegal(s[j])
    decreases |s|
  {
    if s != [] && IsLegal(s[0]) && Lex(s).Err? {
      var n := Advance(s);
      var t := s[n..];
      LexAdvance(s);
      LexFirstIllegal(t);
      var k' :| 0 <= k' < |t| && !IsLegal(t[k']) && Lex(t).error.c == t[k'] &&
        forall j :: 0 <= j < k' ==> IsLegal(t[j]);
      assert s[n + k'] == t[k'];
      forall j | n <= j < n + k' ensures IsLegal(s[j]) {
        assert s[j] == t[j - n];
      }
    }
  }

  /**
   * The lexer fails exactly when the input holds a character that matches
   * no pattern but MISMATCH, and the error names the first such character.
   */
  lemma LexFailsIff(s: string)
    ensures Lex(s).Err? <==> exists k :: 0 <= k < |s| && !IsLegal(s[k])
    ensures Lex(s).Err? ==>
      exists k :: 0 <= k < |s| && !IsLegal(s[k]) && Lex(s).error.c == s[k] &&
        forall j :: 0 <= j < k ==> IsLegal(s[j])
  {
    LexFirstIllegal(s);
    LexOkLegal(s);
  }

  /** Maximal munch with NUMBER tried first: a digit run becomes one NUMBER token. */
  lemma LexNumber(d: string, rest: string)
    requires IsDigits(d)
    requires rest == [] || !IsDigit(rest[0])
    ensures Lex(d + rest) == PrependAll([Token(NUMBER, d)], Lex(rest))
  {
    var s := d + rest;
    assert s[0] == d[0];
    RunLengthOf(IsDigit, d, rest);
    assert s[..|d|] == d && s[|d|..] == rest;
  }

  /** Maximal munch for identifiers: the run stops at the first non-identifier character. */
  lemma LexIdentifier(d: string, rest: string)
    requires IsIdentifier(d)
    requires rest == [] || !IsIdentChar(rest[0])
    ensures Lex(d + rest) == PrependAll([Token(ID, d)], Lex(rest))
  {
    var s := d + rest;
    assert s[0] == d[0];
    RunLengthOf(IsIdentChar, d, rest);
    assert s[..|d|] == d && s[|d|..] == rest;
  }

  /** `3x` is the number `3` followed by the name `x`. */
  lemma NumberBeforeName()
    ensures Lex("3x") == Ok([Token(NUMBER, "3"), Token(ID, "x")])
  {
    assert "3" + "x" == "3x";
    assert "x" + "" == "x";
    LexNumber("3", "x");
    LexIdentifier("x", "");
    assert Lex("") == Ok([]);
    assert [Token(ID, "x")] + [] == [Token(ID, "x")];
    assert Lex("x") == Ok([Token(ID, "x")]);
    assert [Token(NUMBER, "3")] + [Token(ID, "x")] == [Token(NUMBER, "3"), Token(ID, "x")];
  }

  /** A newline is passed over without a token and without an error. */
  lemma NewlineIsDropped(s: string)
    requires s == "a\nb"
    ensures Lex(s) == Ok([Token(ID, "a"), Token(ID, "b")])
  {
    assert IsIdentStart(s[0]) && IsIdentStart(s[2]) && !IsDigit(s[0]) && !IsDigit(s[2]);
    assert RunLength(IsIdentChar, s[0..]) == 1 by { assert s[0..][1] == '\n'; }
    assert RunLength(IsIdentChar, s[2..]) == 1;
    LexNameAt(s, 0, 1);
    LexSkipAt(s, 1, 2);
    LexNameAt(s, 2, 3);
    assert s[0..] == s && s[3..] == [] && s[0..1] == "a" && s[2..3] == "b";
    assert Lex(s[2..]) == Ok([Token(ID, "b")]) by {
      assert Lex(s[3..]) == Ok([]) && [Token(ID, "b")] + [] == [Token(ID, "b")];
    }
    assert [Token(ID, "a")] + [Token(ID, "b")] == [Token(ID, "a"), Token(ID, "b")];
  }

  /** `&` matches only MISMATCH. */
  lemma AmpersandIsIllegal(s: string)
    requires s == "3 & 4"
    ensures Lex(s) == Err(IllegalCharacter('&'))
  {
    assert IsDigit(s[0]) && IsBlank(s[1]);
    assert RunLength(IsDigit, s[0..]) == 1 by { assert s[0..][1] == ' '; }
    assert RunLength(IsBlank, s[1..]) == 1 by { assert s[1..][1] == '&'; }
    LexNumberAt(s, 0, 1);
    LexSkipAt(s, 1, 2);
    assert s[0..] == s && s[2..][0] == '&';
  }

  // ---------------------------------------------------------------------
  // Round trip: printing tokens with single spaces and lexing again
  // ---------------------------------------------------------------------

  /** The tokens' values separated by single spaces. */
  function Unlex(ts: seq<Token>): string {
    if ts == [] then ""
    else if |ts| == 1 then ts[0].value
    else ts[0].value + " " + Unlex(ts[1..])
  }

  lemma UnlexStart(ts: seq<Token>)
    requires AllWellFormed(ts) && ts != []
    ensures |Unlex(ts)| > 0 && Unlex(ts)[0] == ts[0].value[0]
    ensures !IsBlank(Unlex(ts)[0]) && Unlex(ts)[0] != '\n'
  {
    assert WellFormed(ts[0]);
  }

  /** A well-formed token followed by a space or by nothing lexes as itself. */
  lemma LexOneToken(t: Token, rest: string)
    requires WellFormed(t)
    requires rest == [] || rest[0] == ' '
    ensures Lex(t.value + rest) == PrependAll([t], Lex(rest))
  {
    var s := t.value + rest;
    match t.kind
    case NUMBER => LexNumber(t.value, rest);
    case ID => LexIdentifier(t.value, rest);
    case _ =>
      assert s[0] == t.value[0];
      assert s[..1] == t.value && s[1..] == rest;
  }

  /** A single space before a token is skipped. */
  lemma LexSpace(tail: string)
    requires tail != [] && !IsBlank(tail[0])
    ensures Lex(" " + tail) == Lex(tail)
  {
    var s := " " + tail;
    assert s[0] == ' ';
    RunLengthOf(IsBlank, " ", tail);
    assert s[1..] == tail;
  }

  /** Lexing the printed form of well-formed tokens gives the same tokens back. */
  lemma {:induction false} LexUnlex(ts: seq<Token>)
    requires AllWellFormed(ts)
    ensures Lex(Unlex(ts)) == Ok(ts)
  {
    if ts == [] {
    } else if |ts| == 1 {
      LexOneToken(ts[0], "");
      assert ts[0].value + "" == ts[0].value;
      assert [ts[0]] + [] == ts;
    } else {
      var tail := Unlex(ts[1..]);
      UnlexStart(ts[1..]);
      assert Unlex(ts) == ts[0].value + (" " + tail);
      LexOneToken(ts[0], " " + tail);
      LexSpace(tail);
      LexUnlex(ts[1..]);
      assert [ts[0]] + ts[1..] == ts;
    }
  }
}
