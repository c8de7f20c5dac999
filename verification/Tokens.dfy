/** The lexer's tokens, as the token-level repairs see them. */
module Tokens {

  datatype Kind =
    | Ident | LParen | RParen | LBracket | RBracket | LBrace | RBrace
    | Comma | Dot | QDot | ColonColon | EqEq | NotEq | Assign | StringLit | Newline | Eof | Other

  datatype Token = Token(kind: Kind, value: string, start: nat, end: nat, line: int, column: int)

  /**
   What the lexer promises: increasing, disjoint spans inside the source, wide but for line and file
   ends; and identifiers whose line and column increase with them.
   */
  ghost predicate WellLexed(src: string, toks: seq<Token>) {
    && (forall i :: 0 <= i < |toks| ==> toks[i].start <= toks[i].end <= |src|)
    && (forall i, j :: 0 <= i < j < |toks| ==> toks[i].end <= toks[j].start)
    && (forall i :: 0 <= i < |toks| && toks[i].kind != Newline && toks[i].kind != Eof ==> toks[i].start < toks[i].end)
    && (forall i, j :: 0 <= i < j < |toks| && toks[i].kind == Ident && toks[j].kind == Ident ==> PlacedBefore(toks[i], toks[j]))
  }

  /** Only newlines stand between two tokens. */
  ghost predicate Adjacent(toks: seq<Token>, i: nat, j: nat) {
    i < j < |toks| && forall k :: i < k < j ==> toks[k].kind == Newline
  }

  predicate PlacedBefore(a: Token, b: Token) {
    a.line < b.line || (a.line == b.line && a.column < b.column)
  }
}
