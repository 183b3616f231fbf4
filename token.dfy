/**
 * Token kinds, the keyword table and keyword lookup of the SG language
 * (sg_interpreter/src/sg/token/token.go).
 */
module Tokens {

  /** The kinds a token can have. In the source each kind is a string constant. */
  datatype TokenType =
    // identifiers and literals
    | Int | Ident | Str
    // operators
    | Assign | Plus | Minus | Bang | Star | Slash | Lt | Gt | Eq | NotEq
    // delimiters
    | Comma | Semicolon | Colon | LParen | RParen | LBrace | RBrace | LBracket | RBracket
    // keywords
    | Function | Let | True | False | If | Else | For | Return
    // miscellaneous
    | Illegal | Eof

  /** The string constant that stands for each kind in the source. */
  function Spelling(t: TokenType): string
  {
    match t
    case Int => "INT"
    case Ident => "IDENT"
    case Str => "STRING"
    case Assign => "="
    case Plus => "+"
    case Minus => "-"
    case Bang => "!"
    case Star => "*"
    case Slash => "/"
    case Lt => "<"
    case Gt => ">"
    case Eq => "=="
    case NotEq => "!="
    case Comma => ","
    case Semicolon => ";"
    case Colon => ":"
    case LParen => "("
    case RParen => ")"
    case LBrace => "{"
    case RBrace => "}"
    case LBracket => "["
    case RBracket => "]"
    case Function => "FUNCTION"
    case Let => "LET"
    case True => "TRUE"
    case False => "FALSE"
    case If => "IF"
    case Else => "ELSE"
    case For => "FOR"
    case Return => "RETURN"
    case Illegal => "ILLEGAL"
    case Eof => "EOF"
  }

  /** A token: its kind and the source text it was read from. */
  datatype Token = Token(kind: TokenType, literal: string)

  /** The keyword table, synonyms included. */
  const Keywords: map<string, TokenType> := map[
    "fun" := Function,
    "let" := Let,
    "true" := True,
    "factos" := True,
    "false" := False,
    "unfactos" := False,
    "if" := If,
    "else" := Else,
    "return" := Return,
    "ret" := Return,
    "for" := For
  ]

  /** The keyword kinds: the only kinds the keyword table produces. */
  predicate IsKeyword(t: TokenType)
  {
    t.Function? || t.Let? || t.True? || t.False? || t.If? || t.Else? || t.For? || t.Return?
  }

  /** Classifies a word: a keyword (or synonym) gives its kind, any other word is an identifier. */
  function FindIdent(ident: string): TokenType
  {
    if ident in Keywords then Keywords[ident] else Ident
  }

  /**
   * FindIdent follows the keyword table: a word is an identifier exactly when it is not in the
   * table, and a word in the table gets the keyword kind the table gives it.
   */
  lemma FindIdentFollowsKeywords(ident: string)
    ensures FindIdent(ident) == Ident <==> ident !in Keywords
    ensures ident in Keywords ==> FindIdent(ident) == Keywords[ident] && IsKeyword(FindIdent(ident))
  {
  }

  /** Operators and delimiters are spelled exactly as they are written in source text. */
  lemma OperatorSpellings()
    ensures Spelling(Eq) == "==" && Spelling(NotEq) == "!=" && Spelling(Assign) == "="
    ensures Spelling(Bang) == "!" && Spelling(LParen) == "(" && Spelling(RBrace) == "}"
  {
  }

  /** The plain keywords: `fun`, `let`, `if`, `else` and `for`. */
  lemma KeywordKinds()
    ensures FindIdent("fun") == Function && FindIdent("let") == Let
    ensures FindIdent("if") == If && FindIdent("else") == Else && FindIdent("for") == For
  {
  }

  /** The boolean synonyms: `factos` and `unfactos` share the kinds of `true` and `false`. */
  lemma BooleanSynonyms()
    ensures FindIdent("true") == FindIdent("factos") == True
    ensures FindIdent("false") == FindIdent("unfactos") == False
  {
  }

  /** The return synonym: `ret` shares the kind of `return`. */
  lemma ReturnSynonym()
    ensures FindIdent("return") == FindIdent("ret") == Return
  {
  }

  /** Words that are not in the table are identifiers: `x`, `Let` (case matters) and `function`. */
  lemma NonKeywordsAreIdentifiers()
    ensures FindIdent("x") == Ident && FindIdent("Let") == Ident && FindIdent("function") == Ident
  {
  }
}
