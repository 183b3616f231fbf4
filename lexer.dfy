/**
 * The lexer (sg_interpreter/src/sg/lexer/lexer.go): a byte cursor over the
 * input that hands out one token per call and never fails.
 *
 * `Lex` is the specification: from cursor position `p` it gives the next
 * token and the cursor position after it. The class `Lexer` is the cursor
 * machine of the source, and its `NextToken` is proved to follow `Lex`.
 * Each `char` of a string stands for one byte; the byte 0 marks the end.
 */
module Lexing {
  import opened Wrappers
  import opened Tokens
  import opened Runes

  const NUL: char := 0 as char

  /** The byte at position `i`, or 0 at and past the end of input. */
  function At(s: string, i: int): char
  {
    if 0 <= i < |s| then s[i] else NUL
  }

  predicate IsLetter(c: char)
  {
    ('a' <= c <= 'z') || ('A' <= c <= 'Z') || c == '_'
  }

  predicate IsDigit(c: char)
  {
    '0' <= c <= '9'
  }

  predicate IsWhitespace(c: char)
  {
    c == ' ' || c == '\t' || c == '\n' || c == '\r'
  }

  /** The first position at or after `i` that does not hold whitespace. */
  function SkipWs(s: string, i: nat): (j: nat)
    ensures i <= j && !IsWhitespace(At(s, j))
    ensures forall k :: i <= k < j ==> IsWhitespace(At(s, k))
    decreases |s| - i
  {
    if IsWhitespace(At(s, i)) then SkipWs(s, i + 1) else i
  }

  /** The end of the run of letters that starts at `i`. */
  function IdentEnd(s: string, i: nat): (j: nat)
    ensures i <= j <= if i <= |s| then |s| else i
    ensures !IsLetter(At(s, j))
    ensures forall k :: i <= k < j ==> IsLetter(At(s, k))
    decreases |s| - i
  {
    if IsLetter(At(s, i)) then IdentEnd(s, i + 1) else i
  }

  /** The end of the run of digits that starts at `i`. */
  function NumEnd(s: string, i: nat): (j: nat)
    ensures i <= j <= if i <= |s| then |s| else i
    ensures !IsDigit(At(s, j))
    ensures forall k :: i <= k < j ==> IsDigit(At(s, k))
    decreases |s| - i
  {
    if IsDigit(At(s, i)) then NumEnd(s, i + 1) else i
  }

  /** The first position at or after `i` holding a quote or the end marker 0. */
  function QuoteEnd(s: string, i: nat): (j: nat)
    ensures i <= j <= if i <= |s| then |s| else i
    ensures At(s, j) == '"' || At(s, j) == NUL
    ensures forall k :: i <= k < j ==> At(s, k) != '"' && At(s, k) != NUL
    decreases |s| - i
  {
    if At(s, i) == '"' || At(s, i) == NUL then i else QuoteEnd(s, i + 1)
  }

  /** The kind of a byte that is a token on its own (`=` and `!` only when no `=` follows). */
  function SingleKind(c: char): Option<TokenType>
  {
    match c
    case '=' => Some(Assign)
    case '-' => Some(Minus)
    case '+' => Some(Plus)
    case '/' => Some(Slash)
    case '*' => Some(Star)
    case '<' => Some(Lt)
    case '>' => Some(Gt)
    case '(' => Some(LParen)
    case ')' => Some(RParen)
    case '{' => Some(LBrace)
    case '}' => Some(RBrace)
    case '!' => Some(Bang)
    case ';' => Some(Semicolon)
    case ',' => Some(Comma)
    case '[' => Some(LBracket)
    case ']' => Some(RBracket)
    case ':' => Some(Colon)
    case _ => None
  }

  /**
   * Letters and digits are disjoint from each other, from whitespace and from
   * the bytes Lex tests before them, so a word or a number starts exactly at
   * a letter or a digit wherever the test for it sits.
   */
  lemma CharClasses(c: char)
    ensures IsLetter(c) ==> !IsDigit(c) && !IsWhitespace(c) && SingleKind(c).None? && c != '"' && c != NUL
    ensures IsDigit(c) ==> !IsWhitespace(c) && SingleKind(c).None? && c != '"' && c != NUL
  {
  }

  /**
   * The token read when the cursor stands at `p`, and the cursor position
   * after it: whitespace is skipped, then one token is read.
   */
  function Lex(s: string, p: nat): (Token, nat)
  {
    var q := SkipWs(s, p);
    var c := At(s, q);
    if c == '=' && At(s, q + 1) == '=' then
      (Token(Eq, "=="), q + 2)
    else if c == '!' && At(s, q + 1) == '=' then
      (Token(NotEq, "!="), q + 2)
    else if SingleKind(c).Some? then
      (Token(SingleKind(c).value, [c]), q + 1)
    else if c == '"' then
      var e := QuoteEnd(s, q + 1);
      (Token(Str, s[q + 1..e]), e + 1)
    else if c == NUL then
      (Token(Eof, ""), q + 1)
    else if IsLetter(c) then
      var e := IdentEnd(s, q);
      (Token(FindIdent(s[q..e]), s[q..e]), e)
    else if IsDigit(c) then
      var e := NumEnd(s, q);
      (Token(Int, s[q..e]), e)
    else
      (Token(Illegal, RuneString(c)), q + 1)
  }

  /** The word read at `p`, if any, is classified as an identifier or a keyword. */
  lemma WordIsIdentOrKeyword(s: string, p: nat)
    ensures var q := SkipWs(s, p);
      IsLetter(At(s, q)) ==> FindIdent(s[q..IdentEnd(s, q)]) == Ident || IsKeyword(FindIdent(s[q..IdentEnd(s, q)]))
  {
    var q := SkipWs(s, p);
    if IsLetter(At(s, q)) {
      FindIdentFollowsKeywords(s[q..IdentEnd(s, q)]);
    }
  }

  /** Every call moves the cursor forward; past the last byte nothing but EOF is read. */
  lemma {:induction false} LexAdvances(s: string, p: nat)
    ensures Lex(s, p).1 > p
    ensures Lex(s, p).0.kind != Eof ==> Lex(s, p).1 <= |s| + 1
    ensures Lex(s, p).0.kind == Eof ==> Lex(s, p).0.literal == "" && At(s, Lex(s, p).1 - 1) == NUL
    ensures p >= |s| ==> Lex(s, p) == (Token(Eof, ""), p + 1)
  {
    WordIsIdentOrKeyword(s, p);
  }

  /**
   * What the stream needs of a lexer step `next` over an input of length
   * `end`: it moves the cursor forward, stays within one past the end until
   * it reads EOF, reads EOF with an empty literal, and past the end reads
   * nothing but EOF, one position at a time.
   */
  ghost predicate StepsForward(next: nat -> (Token, nat), end: nat)
  {
    forall q: nat ::
      q < next(q).1 &&
      (next(q).0.kind != Eof ==> next(q).1 <= end + 1) &&
      (next(q).0.kind == Eof ==> next(q).0.literal == "") &&
      (q >= end ==> next(q) == (Token(Eof, ""), q + 1))
  }

  /** The tokens `next` reads from position `p` on, up to the EOF read past the end. */
  function StreamOf(next: nat -> (Token, nat), end: nat, p: nat): (toks: seq<Token>)
    requires StepsForward(next, end) && p <= end + 1
    ensures |toks| > 0 && toks[|toks| - 1] == Token(Eof, "")
    decreases end + 1 - p
  {
    var (t, n) := next(p);
    if t.kind == Eof && n > end then [t] else [t] + StreamOf(next, end, n)
  }

  /** The token read by the `k`+1-th call of `next` when the cursor starts at `p`. */
  function NthRead(next: nat -> (Token, nat), p: nat, k: nat): Token
    decreases k
  {
    if k == 0 then next(p).0 else NthRead(next, next(p).1, k - 1)
  }

  /** The `k`-th token in a sequence, with EOF standing for every position past its end. */
  function TokAt(toks: seq<Token>, k: nat): Token
  {
    if k < |toks| then toks[k] else Token(Eof, "")
  }

  /** Past the end, every later read is EOF. */
  lemma {:induction false} NthReadPastEnd(next: nat -> (Token, nat), end: nat, p: nat, k: nat)
    requires StepsForward(next, end) && p >= end
    ensures NthRead(next, p, k) == Token(Eof, "")
    decreases k
  {
    assert next(p) == (Token(Eof, ""), p + 1);
    if k > 0 {
      NthReadPastEnd(next, end, p + 1, k - 1);
    }
  }

  /** Position `k` of the stream (EOF past its end) is the `k`+1-th read. */
  lemma {:induction false} StreamOfIsReads(next: nat -> (Token, nat), end: nat, p: nat, k: nat)
    requires StepsForward(next, end) && p <= end + 1
    ensures TokAt(StreamOf(next, end, p), k) == NthRead(next, p, k)
    decreases end + 1 - p
  {
    var (t, n) := next(p);
    assert p < n;
    if k > 0 {
      if t.kind == Eof && n > end {
        NthReadPastEnd(next, end, n, k - 1);
      } else {
        StreamOfIsReads(next, end, n, k - 1);
      }
    }
  }

  /** The lexer as a step function on the cursor. */
  function LexStep(s: string): nat -> (Token, nat)
  {
    p => Lex(s, p)
  }

  /** The lexer's step has what the stream needs. */
  lemma LexStepsForward(s: string)
    ensures StepsForward(LexStep(s), |s|)
  {
    forall q: nat
      ensures q < LexStep(s)(q).1
      ensures LexStep(s)(q).0.kind != Eof ==> LexStep(s)(q).1 <= |s| + 1
      ensures LexStep(s)(q).0.kind == Eof ==> LexStep(s)(q).0.literal == ""
      ensures q >= |s| ==> LexStep(s)(q) == (Token(Eof, ""), q + 1)
    {
      LexAdvances(s, q);
    }
  }

  /** The tokens read from position `p` on, up to the EOF read at or past the end of input. */
  function Stream(s: string, p: nat): (toks: seq<Token>)
    requires p <= |s| + 1
    ensures |toks| > 0 && toks[|toks| - 1] == Token(Eof, "")
  {
    LexStepsForward(s);
    StreamOf(LexStep(s), |s|, p)
  }

  /** The whole token stream of an input, as the parser consumes it. */
  function Tokenize(s: string): seq<Token>
  {
    Stream(s, 0)
  }

  /** The token read by the `k`+1-th call of the lexer when its cursor starts at `p`. */
  function LexFrom(s: string, p: nat, k: nat): Token
  {
    NthRead(LexStep(s), p, k)
  }

  /** Once the cursor is past the end, every later call reads EOF. */
  lemma EofIsSticky(s: string, p: nat, k: nat)
    requires p >= |s|
    ensures LexFrom(s, p, k) == Token(Eof, "")
  {
    LexStepsForward(s);
    NthReadPastEnd(LexStep(s), |s|, p, k);
  }

  /**
   * `Stream` is what the lexer hands out, call after call: reading position
   * `k` of the stream (EOF past its end) is the `k`+1-th call of NextToken.
   */
  lemma StreamIsLexerOutput(s: string, p: nat, k: nat)
    requires p <= |s| + 1
    ensures TokAt(Stream(s, p), k) == LexFrom(s, p, k)
  {
    LexStepsForward(s);
    StreamOfIsReads(LexStep(s), |s|, p, k);
  }

  /**
   * Whatever the token, its literal is the text the cursor moved over after
   * skipping whitespace, except that a string literal drops its quotes and
   * EOF has an empty literal.
   */
  lemma TokenTextIsConsumedInput(s: string, p: nat)
    requires p <= |s|
    ensures var (t, n) := Lex(s, p); var q := SkipWs(s, p);
      (t.kind != Str && t.kind != Eof && t.kind != Illegal ==> q < n <= |s| && t.literal == s[q..n]) &&
      (t.kind == Illegal ==> n == q + 1 <= |s| && (s[q] < '\U{80}' ==> t.literal == s[q..n])) &&
      (t.kind == Str ==> q < |s| && s[q] == '"' && n - 1 <= |s| && t.literal == s[q + 1..n - 1])
  {
    var q := SkipWs(s, p);
    var c := At(s, q);
    CharClasses(c);
    if c == '=' && At(s, q + 1) == '=' {
      assert s[q..q + 2] == "==";
    } else if c == '!' && At(s, q + 1) == '=' {
      assert s[q..q + 2] == "!=";
    } else if SingleKind(c).Some? {
      assert s[q..q + 1] == [c];
    } else if c == '"' || c == NUL {
    } else if IsLetter(c) {
      WordIsIdentOrKeyword(s, p);
      assert Lex(s, p) == (Token(FindIdent(s[q..IdentEnd(s, q)]), s[q..IdentEnd(s, q)]), IdentEnd(s, q));
    } else if IsDigit(c) {
      assert Lex(s, p) == (Token(Int, s[q..NumEnd(s, q)]), NumEnd(s, q));
    } else {
      assert Lex(s, p) == (Token(Illegal, RuneString(c)), q + 1);
      assert s[q..q + 1] == [c];
    }
  }

  /**
   * Identifiers and keywords are maximal non-empty runs of letters and `_`,
   * classified by FindIdent; integers are maximal non-empty runs of digits.
   */
  lemma {:induction false} WordTokens(s: string, p: nat)
    ensures var (t, n) := Lex(s, p);
      (t.kind == Ident || IsKeyword(t.kind) ==>
        |t.literal| > 0 && (forall i :: 0 <= i < |t.literal| ==> IsLetter(t.literal[i])) &&
        t.kind == FindIdent(t.literal) && !IsLetter(At(s, n))) &&
      (t.kind == Int ==>
        |t.literal| > 0 && (forall i :: 0 <= i < |t.literal| ==> IsDigit(t.literal[i])) && !IsDigit(At(s, n)))
  {
    WordIsIdentOrKeyword(s, p);
    var (t, n) := Lex(s, p);
    var q := SkipWs(s, p);
    var c := At(s, q);
    if IsLetter(c) && SingleKind(c).None? && c != '"' && c != NUL {
      LetterRun(s, q);
    } else if IsDigit(c) && SingleKind(c).None? && c != '"' && c != NUL {
      DigitRun(s, q);
    }
  }

  /** The run of letters read from a letter at `q` is non-empty and holds letters only. */
  lemma LetterRun(s: string, q: nat)
    requires IsLetter(At(s, q))
    ensures var w := s[q..IdentEnd(s, q)]; |w| > 0 && forall i :: 0 <= i < |w| ==> IsLetter(w[i])
  {
    var e := IdentEnd(s, q);
    forall i | 0 <= i < e - q ensures IsLetter(s[q..e][i]) {
      assert s[q..e][i] == At(s, q + i);
    }
  }

  /** The run of digits read from a digit at `q` is non-empty and holds digits only. */
  lemma DigitRun(s: string, q: nat)
    requires IsDigit(At(s, q))
    ensures var w := s[q..NumEnd(s, q)]; |w| > 0 && forall i :: 0 <= i < |w| ==> IsDigit(w[i])
  {
    var e := NumEnd(s, q);
    forall i | 0 <= i < e - q ensures IsDigit(s[q..e][i]) {
      assert s[q..e][i] == At(s, q + i);
    }
  }

  /** A string literal is the text up to the next quote or the end, with no escapes: it holds neither. */
  lemma {:induction false} StringTokens(s: string, p: nat)
    ensures var t := Lex(s, p).0;
      t.kind == Str ==> forall i :: 0 <= i < |t.literal| ==> t.literal[i] != '"' && t.literal[i] != NUL
  {
    WordIsIdentOrKeyword(s, p);
    var q := SkipWs(s, p);
    if At(s, q) == '"' {
      var e := QuoteEnd(s, q + 1);
      var lit := s[q + 1..e];
      forall i | 0 <= i < |lit| ensures lit[i] != '"' && lit[i] != NUL {
        assert lit[i] == At(s, q + 1 + i);
      }
    }
  }

  /** Any byte that starts no token is an ILLEGAL token of its own; lexing carries on after it. */
  lemma IllegalTokens(s: string, p: nat)
    ensures var (t, n) := Lex(s, p); var q := SkipWs(s, p);
      t.kind == Illegal <==>
        (q < |s| && s[q] != NUL && s[q] != '"' && SingleKind(s[q]).None? && !IsLetter(s[q]) && !IsDigit(s[q]))
    ensures var (t, n) := Lex(s, p); var q := SkipWs(s, p);
      t.kind == Illegal ==> n == q + 1 && t.literal == RuneString(s[q]) && DecodeRune(t.literal) == ByteOf(s[q])
  {
    WordIsIdentOrKeyword(s, p);
    var q := SkipWs(s, p);
    if q < |s| {
      RuneStringDecodes(s[q]);
    }
  }

  /**
   * An ILLEGAL byte's literal is Go's `string(byte)`: a byte from 0x80 on
   * is re-encoded as two bytes of UTF-8.
   */
  lemma IllegalHighByteWidens()
    ensures Lex("\U{E9}", 0) == (Token(Illegal, "\U{C3}\U{A9}"), 1)
    ensures Lex("@", 0) == (Token(Illegal, "@"), 1)
  {
  }

  /** `=` and `!` take a following `=` into one token, and stand alone otherwise. */
  lemma TwoByteOperators()
    ensures Lex("==", 0) == (Token(Eq, "=="), 2)
    ensures Lex("= =", 0) == (Token(Assign, "="), 1)
    ensures Lex("!=", 0) == (Token(NotEq, "!="), 2)
    ensures Lex("!x", 0) == (Token(Bang, "!"), 1)
  {
  }

  lemma LexIntOf12ab()
    ensures Lex("12ab", 0) == (Token(Int, "12"), 2)
  {
    var s := "12ab";
    assert SkipWs(s, 0) == 0;
    assert NumEnd(s, 0) == 2;
    assert s[0..2] == "12";
    assert SingleKind('1').None?;
  }

  lemma LexIdentOf12ab()
    ensures Lex("12ab", 2) == (Token(Ident, "ab"), 4)
  {
    var s := "12ab";
    assert SkipWs(s, 2) == 2;
    assert IdentEnd(s, 2) == 4;
    assert s[2..4] == "ab";
    assert SingleKind('a').None?;
    assert FindIdent("ab") == Ident;
  }

  /** Digits and letters never mix: `12ab` is the integer 12 followed by the identifier `ab`. */
  lemma DigitsThenLetters()
    ensures Tokenize("12ab") == [Token(Int, "12"), Token(Ident, "ab"), Token(Eof, "")]
  {
    var s := "12ab";
    LexIntOf12ab();
    LexIdentOf12ab();
    LexAdvances(s, 4);
    assert Stream(s, 4) == [Token(Eof, "")];
    assert Stream(s, 2) == [Token(Ident, "ab"), Token(Eof, "")];
  }

  /** The lexer's cursor machine. */
  class Lexer {
    const input: string
    var pos: nat   // position of the current byte
    var nxt: nat   // position of the byte after it
    var ch: char   // the current byte, 0 at the end

    ghost predicate Valid()
      reads this
    {
      nxt == pos + 1 && ch == At(input, pos)
    }

    /** A lexer positioned on the first byte of `input`. */
    constructor (input: string)
      ensures Valid() && this.input == input && pos == 0
    {
      this.input := input;
      pos, nxt, ch := 0, 0, NUL;
      new;
      ReadChar();
    }

    /** Loads the next byte (0 at or past the end) and advances both positions. */
    method ReadChar()
      modifies this
      ensures pos == old(nxt) && nxt == old(nxt) + 1
      ensures ch == At(input, old(nxt))
    {
      if nxt >= |input| {
        ch := NUL;
      } else {
        ch := input[nxt];
      }
      pos := nxt;
      nxt := nxt + 1;
    }

    /** The byte after the current one, without moving. */
    method Peek() returns (c: char)
      ensures c == At(input, nxt)
    {
      if nxt >= |input| {
        c := NUL;
      } else {
        c := input[nxt];
      }
    }

    method SkipWhitespace()
      requires Valid()
      modifies this
      ensures Valid() && pos == SkipWs(input, old(pos))
    {
      while IsWhitespace(ch)
        invariant Valid() && old(pos) <= pos
        invariant SkipWs(input, pos) == SkipWs(input, old(pos))
        decreases |input| - pos
      {
        ReadChar();
      }
    }

    /** Reads a string literal; the cursor stands on its opening quote. */
    method ReadString() returns (lit: string)
      requires Valid() && pos < |input|
      modifies this
      ensures Valid() && pos == QuoteEnd(input, old(pos) + 1)
      ensures lit == input[old(pos) + 1..pos]
    {
      var position := pos + 1;
      ReadChar();
      while ch != '"' && ch != NUL
        invariant Valid() && position <= pos <= |input|
        invariant QuoteEnd(input, pos) == QuoteEnd(input, position)
        decreases |input| - pos
      {
        ReadChar();
      }
      lit := input[position..pos];
    }

    method ReadNum() returns (lit: string)
      requires Valid() && pos <= |input|
      modifies this
      ensures Valid() && pos == NumEnd(input, old(pos))
      ensures lit == input[old(pos)..pos]
    {
      var position := pos;
      while IsDigit(ch)
        invariant Valid() && position <= pos <= |input|
        invariant NumEnd(input, pos) == NumEnd(input, position)
        decreases |input| - pos
      {
        ReadChar();
      }
      lit := input[position..pos];
    }

    method ReadIdent() returns (lit: string)
      requires Valid() && pos <= |input|
      modifies this
      ensures Valid() && pos == IdentEnd(input, old(pos))
      ensures lit == input[old(pos)..pos]
    {
      var position := pos;
      while IsLetter(ch)
        invariant Valid() && position <= pos <= |input|
        invariant IdentEnd(input, pos) == IdentEnd(input, position)
        decreases |input| - pos
      {
        ReadChar();
      }
      lit := input[position..pos];
    }

    /** Reads the next token; the cursor ends on the byte after it. */
    method NextToken() returns (tok: Token)
      requires Valid()
      modifies this
      ensures Valid() && (tok, pos) == Lex(input, old(pos))
    {
      SkipWhitespace();
      ghost var q := pos;
      assert q == SkipWs(input, old(pos));
      var c := ch;
      var after := Peek();
      if c == '=' && after == '=' {
        ReadChar();
        tok := Token(Eq, [c] + [ch]);
        assert tok.literal == "==";
      } else if c == '!' && after == '=' {
        ReadChar();
        tok := Token(NotEq, [c] + [ch]);
        assert tok.literal == "!=";
      } else if SingleKind(c).Some? {
        tok := Token(SingleKind(c).value, [c]);
      } else if c == '"' {
        var lit := ReadString();
        tok := Token(Str, lit);
        assert lit == input[q + 1..QuoteEnd(input, q + 1)];
      } else if c == NUL {
        tok := Token(Eof, "");
      } else if IsLetter(c) {
        var lit := ReadIdent();
        tok := Token(FindIdent(lit), lit);
        return;
      } else if IsDigit(c) {
        var lit := ReadNum();
        tok := Token(Int, lit);
        return;
      } else {
        tok := Token(Illegal, RuneString(c));
      }
      ReadChar();
    }
  }
}
