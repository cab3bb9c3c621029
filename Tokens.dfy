/**
 * The token stream the expression parser reads. The lexer that produces the
 * tokens is not part of this model: a tokenizer here is a cursor over a
 * finished sequence of tokens, and reading past the last token yields the
 * end-of-input token without moving the cursor.
 */
module Tokens {
  import opened Wrappers

  /** The value carried by a VALUE token. */
  datatype Literal = Str(s: string) | Int(i: int) | Float(f: real)

  /** The fixed symbol table of the lexer. */
  datatype Symbol =
    | Plus | Minus | Star | Slash | Percent
    | Not | And | Or
    | Equal | NotEqual | LessThan | LessOrEqual | GreaterThan | GreaterOrEqual | Assignment
    | LeftParenthesis | RightParenthesis
    | LeftBracket | RightBracket
    | LeftCurlyBracket | RightCurlyBracket
    | Colon | Comma | Dot

  /** A token: a literal value, an identifier, a symbol or the end of input. */
  datatype Token =
    | ValueToken(value: Literal)
    | IdentifierToken(name: string)
    | SymbolToken(symbol: Symbol)
    | EndToken

  /** What the parser reports when it aborts (a TemplateParseException or,
      for a repeated map key, the IllegalArgumentException of the map builder). */
  datatype ParseError =
    | UnexpectedToken(token: Token)
    | UnexpectedSymbol(symbol: Symbol)
    | ExpectedSymbol(expected: Symbol, got: Token)
    | ExpectedIdentifier(got: Token)
    | ExpectedKey(got: Token)
    | DuplicateKey(key: string)

  /** The result of a parsing step that threads the cursor position: the value
      and the position after it, or the error that aborts the parse. */
  datatype Parsed<+T> = Ok(value: T, next: nat) | Fail(error: ParseError)

  /** The token at position p; at or past the end, the end-of-input token. */
  function Peek(tokens: seq<Token>, p: nat): Token
  {
    if p < |tokens| then tokens[p] else EndToken
  }

  /** The outcome of an imperative parse step, read as a position-threading result. */
  function Resume<T>(r: Result<T, ParseError>, pos: nat): Parsed<T>
  {
    match r
    case Success(v) => Ok(v, pos)
    case Failure(e) => Fail(e)
  }

  /** The tokenizer: a cursor over a sequence of tokens. */
  class Tokenizer {
    const tokens: seq<Token>
    var pos: nat

    ghost predicate Valid()
      reads this
    {
      pos <= |tokens|
    }

    constructor (tokens: seq<Token>)
      ensures Valid() && this.tokens == tokens && pos == 0
    {
      this.tokens := tokens;
      pos := 0;
    }

    /** Returns the current token and moves past it (at the end it stays put). */
    method Next() returns (token: Token)
      requires Valid()
      modifies this`pos
      ensures Valid()
      ensures token == Peek(tokens, old(pos))
      ensures pos == if old(pos) < |tokens| then old(pos) + 1 else old(pos)
    {
      token := Peek(tokens, pos);
      if pos < |tokens| {
        pos := pos + 1;
      }
    }

    /** Consumes the current token exactly when it is the given symbol. */
    method TryConsume(symbol: Symbol) returns (consumed: bool)
      requires Valid()
      modifies this`pos
      ensures Valid()
      ensures consumed <==> Peek(tokens, old(pos)) == SymbolToken(symbol)
      ensures pos == if consumed then old(pos) + 1 else old(pos)
    {
      consumed := Peek(tokens, pos) == SymbolToken(symbol);
      if consumed {
        pos := pos + 1;
      }
    }

    /** Consumes the given symbol, or fails naming the expected symbol and the token found. */
    method Consume(symbol: Symbol) returns (r: Result<(), ParseError>)
      requires Valid()
      modifies this`pos
      ensures Valid()
      ensures r.Success? <==> Peek(tokens, old(pos)) == SymbolToken(symbol)
      ensures r.Failure? ==> r.error == ExpectedSymbol(symbol, Peek(tokens, old(pos)))
      ensures pos == if r.Success? then old(pos) + 1 else old(pos)
    {
      var consumed := TryConsume(symbol);
      if consumed {
        r := Success(());
      } else {
        r := Failure(ExpectedSymbol(symbol, Peek(tokens, pos)));
      }
    }

    /** Consumes an identifier and returns its name, or fails naming the token found. */
    method ParseIdentifier() returns (r: Result<string, ParseError>)
      requires Valid()
      modifies this`pos
      ensures Valid()
      ensures r.Success? <==> Peek(tokens, old(pos)).IdentifierToken?
      ensures r.Success? ==> r.value == Peek(tokens, old(pos)).name && pos == old(pos) + 1
      ensures r.Failure? ==> r.error == ExpectedIdentifier(Peek(tokens, old(pos)))
    {
      var token := Peek(tokens, pos);
      if token.IdentifierToken? {
        pos := pos + 1;
        r := Success(token.name);
      } else {
        r := Failure(ExpectedIdentifier(token));
      }
    }
  }
}
