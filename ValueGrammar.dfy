/**
 * The value parser of src/main/java/com/catascopic/template/expr/ValueParser.java
 * as functions that thread the cursor position: each function takes the token
 * sequence and the position of the cursor and returns the parsed value with the
 * position after it, or the error that aborts the parse. The imperative parser
 * in module ValueParser is proved to compute exactly these functions.
 *
 * A nested full expression (the tokenizer's parseExpression) is parsed by
 * Parse itself: operator precedence levels are not part of this model.
 */
module ValueGrammar {
  import opened Wrappers
  import opened Tokens
  import opened Terms

  /** A token that continues a postfix chain: `.` or `[`. */
  predicate IsPostfixStart(token: Token)
  {
    token == SymbolToken(Dot) || token == SymbolToken(LeftBracket)
  }

  /** tokenizer.consume(symbol). */
  function ExpectSymbol(t: seq<Token>, p: nat, symbol: Symbol): (r: Parsed<()>)
    requires p <= |t|
    ensures r.Ok? <==> Peek(t, p) == SymbolToken(symbol)
    ensures r.Ok? ==> r.next == p + 1 <= |t|
    ensures r.Fail? ==> r.error == ExpectedSymbol(symbol, Peek(t, p))
  {
    if Peek(t, p) == SymbolToken(symbol) then Ok((), p + 1)
    else Fail(ExpectedSymbol(symbol, Peek(t, p)))
  }

  /** tokenizer.consume(symbol) after a finished value: the value, once the symbol is there. */
  function Closing<T>(t: seq<Token>, p: nat, symbol: Symbol, value: T): (r: Parsed<T>)
    requires p <= |t|
    ensures r.Ok? <==> Peek(t, p) == SymbolToken(symbol)
    ensures r.Ok? ==> r.value == value && r.next == p + 1 <= |t|
    ensures r.Fail? ==> r.error == ExpectedSymbol(symbol, Peek(t, p))
  {
    match ExpectSymbol(t, p, symbol)
    case Fail(e) => Fail(e)
    case Ok(_, q) => Ok(value, q)
  }

  /** tokenizer.parseIdentifier(). */
  function ExpectIdentifier(t: seq<Token>, p: nat): (r: Parsed<string>)
    requires p <= |t|
    ensures r.Ok? <==> Peek(t, p).IdentifierToken?
    ensures r.Ok? ==> r.value == Peek(t, p).name && r.next == p + 1 <= |t|
    ensures r.Fail? ==> r.error == ExpectedIdentifier(Peek(t, p))
  {
    match Peek(t, p)
    case IdentifierToken(name) => Ok(name, p + 1)
    case _ => Fail(ExpectedIdentifier(Peek(t, p)))
  }

  /** ValueParser.parse: a primary term followed by its postfix chain. */
  function Parse(t: seq<Token>, p: nat): (r: Parsed<Term>)
    requires p <= |t|
    decreases |t| - p, 1
    ensures r.Ok? ==> p < r.next <= |t| && !IsPostfixStart(Peek(t, r.next))
  {
    match Primary(t, p)
    case Fail(e) => Fail(e)
    case Ok(term, q) => Postfix(t, q, term)
  }

  /** The switch on the first token of ValueParser.parse. */
  function Primary(t: seq<Token>, p: nat): (r: Parsed<Term>)
    requires p <= |t|
    decreases |t| - p, 0
    ensures r.Ok? ==> p < r.next <= |t|
    ensures !Peek(t, p).ValueToken? && !Peek(t, p).IdentifierToken? && !Peek(t, p).SymbolToken?
            ==> r == Fail(UnexpectedToken(Peek(t, p)))
  {
    if p == |t| then Fail(UnexpectedToken(EndToken))
    else
      match t[p]
      case ValueToken(v) => Ok(Value(v), p + 1)
      case IdentifierToken(name) => ParseIdentifier(t, p + 1, name)
      case SymbolToken(s) => ParseSymbol(t, p + 1, s)
      case EndToken => Fail(UnexpectedToken(EndToken))
  }

  /** The `for (;;)` loop of ValueParser.parse: `.name` and `[...]` applied left to right. */
  function Postfix(t: seq<Token>, p: nat, term: Term): (r: Parsed<Term>)
    requires p <= |t|
    decreases |t| - p, 0
    ensures r.Ok? ==> p <= r.next <= |t| && !IsPostfixStart(Peek(t, r.next))
    ensures !IsPostfixStart(Peek(t, p)) ==> r == Ok(term, p)
  {
    if Peek(t, p) == SymbolToken(Dot) then
      match ExpectIdentifier(t, p + 1)
      case Fail(e) => Fail(e)
      case Ok(name, q) => Postfix(t, q, Index(term, Value(Str(name))))
    else if Peek(t, p) == SymbolToken(LeftBracket) then
      match ParseIndex(t, p + 1, term)
      case Fail(e) => Fail(e)
      case Ok(indexed, q) => Postfix(t, q, indexed)
    else
      Ok(term, p)
  }

  /** ValueParser.parseSymbol: the term a leading symbol opens. */
  function ParseSymbol(t: seq<Token>, p: nat, symbol: Symbol): (r: Parsed<Term>)
    requires p <= |t|
    decreases |t| - p, 4
    ensures r.Ok? ==> p < r.next <= |t|
    ensures r.Ok? ==> match symbol
                      case Plus | Minus | Not => r.value.Unary? && r.value.op == UnaryOperator(symbol)
                      case LeftBracket => r.value.List?
                      case LeftCurlyBracket => r.value.Map?
                      case LeftParenthesis => Peek(t, r.next - 1) == SymbolToken(RightParenthesis)
                      case _ => false
  {
    match symbol
    case Plus | Minus | Not =>
      (match Parse(t, p)
       case Fail(e) => Fail(e)
       case Ok(operand, q) => Ok(Unary(UnaryOperator(symbol), operand), q))
    case LeftParenthesis =>
      (match Parse(t, p)
       case Fail(e) => Fail(e)
       case Ok(term, q) => Closing(t, q, RightParenthesis, term))
    case LeftBracket =>
      (match ParseExpressions(t, p, RightBracket)
       case Fail(e) => Fail(e)
       case Ok(items, q) => Ok(List(items), q))
    case LeftCurlyBracket =>
      (match ParseMap(t, p)
       case Fail(e) => Fail(e)
       case Ok(entries, q) => Ok(Map(entries), q))
    case _ => Fail(UnexpectedSymbol(symbol))
  }

  /** ValueParser.parseIdentifier: a function call when `(` follows, a variable otherwise. */
  function ParseIdentifier(t: seq<Token>, p: nat, name: string): (r: Parsed<Term>)
    requires p <= |t|
    decreases |t| - p, 0
    ensures r.Ok? ==> p <= r.next <= |t|
    ensures Peek(t, p) != SymbolToken(LeftParenthesis) ==> r == Ok(Variable(name), p)
    ensures Peek(t, p) == SymbolToken(LeftParenthesis) && r.Ok? ==>
              p < r.next && r.value.Function? && r.value.name == name &&
              Peek(t, r.next - 1) == SymbolToken(RightParenthesis)
  {
    if Peek(t, p) == SymbolToken(LeftParenthesis) then
      match ParseExpressions(t, p + 1, RightParenthesis)
      case Fail(e) => Fail(e)
      case Ok(args, q) => Ok(Function(name, args), q)
    else
      Ok(Variable(name), p)
  }

  /** ValueParser.parseIndex, called after `[`: an index or a slice of `target`. */
  function ParseIndex(t: seq<Token>, p: nat, target: Term): (r: Parsed<Term>)
    requires p <= |t|
    decreases |t| - p, 2
    ensures r.Ok? ==> p < r.next <= |t| && Peek(t, r.next - 1) == SymbolToken(RightBracket)
    ensures r.Ok? ==> (r.value.Index? || r.value.Slice?) && r.value.target == target
  {
    if Peek(t, p) == SymbolToken(Colon) then
      SliceStop(t, p + 1, target, None)
    else
      match Parse(t, p)
      case Fail(e) => Fail(e)
      case Ok(index, q) =>
        if Peek(t, q) == SymbolToken(RightBracket) then Ok(Index(target, index), q + 1)
        else if Peek(t, q) == SymbolToken(Colon) then SliceStop(t, q + 1, target, Some(index))
        else Fail(ExpectedSymbol(Colon, Peek(t, q)))
  }

  /** The part of parseIndex after the first colon. */
  function SliceStop(t: seq<Token>, p: nat, target: Term, start: Option<Term>): (r: Parsed<Term>)
    requires p <= |t|
    decreases |t| - p, 2
    ensures r.Ok? ==> p < r.next <= |t| && Peek(t, r.next - 1) == SymbolToken(RightBracket)
    ensures r.Ok? ==> r.value.Slice? && r.value.target == target && r.value.start == start
  {
    if Peek(t, p) == SymbolToken(RightBracket) then
      Ok(Slice(target, start, None, None), p + 1)
    else if Peek(t, p) == SymbolToken(Colon) then
      SliceStep(t, p + 1, target, start, None)
    else
      match Parse(t, p)
      case Fail(e) => Fail(e)
      case Ok(stop, q) =>
        if Peek(t, q) == SymbolToken(RightBracket) then Ok(Slice(target, start, Some(stop), None), q + 1)
        else if Peek(t, q) == SymbolToken(Colon) then SliceStep(t, q + 1, target, start, Some(stop))
        else Fail(ExpectedSymbol(Colon, Peek(t, q)))
  }

  /** The part of parseIndex after the second colon. */
  function SliceStep(t: seq<Token>, p: nat, target: Term, start: Option<Term>, stop: Option<Term>)
    : (r: Parsed<Term>)
    requires p <= |t|
    decreases |t| - p, 2
    ensures r.Ok? ==> p < r.next <= |t| && Peek(t, r.next - 1) == SymbolToken(RightBracket)
    ensures r.Ok? ==> r.value.Slice? && r.value.target == target && r.value.start == start &&
                      r.value.stop == stop
  {
    if Peek(t, p) == SymbolToken(RightBracket) then
      Ok(Slice(target, start, stop, None), p + 1)
    else
      match Parse(t, p)
      case Fail(e) => Fail(e)
      case Ok(step, q) => Closing(t, q, RightBracket, Slice(target, start, stop, Some(step)))
  }

  /** ValueParser.parseExpressions: a comma-separated list closed by `end`, possibly empty. */
  function ParseExpressions(t: seq<Token>, p: nat, end: Symbol): (r: Parsed<seq<Term>>)
    requires p <= |t|
    decreases |t| - p, 3
    ensures r.Ok? ==> p < r.next <= |t| && Peek(t, r.next - 1) == SymbolToken(end)
    ensures Peek(t, p) == SymbolToken(end) ==> r == Ok([], p + 1)
  {
    if Peek(t, p) == SymbolToken(end) then Ok([], p + 1)
    else ParseItems(t, p, end, [])
  }

  /** The `do ... while (tryConsume(COMMA))` loop of parseExpressions; `done` holds the
      terms already read. */
  function ParseItems(t: seq<Token>, p: nat, end: Symbol, done: seq<Term>): (r: Parsed<seq<Term>>)
    requires p <= |t|
    decreases |t| - p, 2
    ensures r.Ok? ==> p < r.next <= |t| && Peek(t, r.next - 1) == SymbolToken(end)
    ensures r.Ok? ==> |r.value| > |done| && r.value[..|done|] == done
  {
    match Parse(t, p)
    case Fail(e) => Fail(e)
    case Ok(term, q) =>
      if Peek(t, q) == SymbolToken(Comma) then ParseItems(t, q + 1, end, done + [term])
      else Closing(t, q, end, done + [term])
  }

  /** ValueParser.parseMap, called after `{`: the entries of a map literal, possibly empty. */
  function ParseMap(t: seq<Token>, p: nat): (r: Parsed<seq<Entry>>)
    requires p <= |t|
    decreases |t| - p, 3
    ensures r.Ok? ==> p < r.next <= |t| && Peek(t, r.next - 1) == SymbolToken(RightCurlyBracket)
    ensures Peek(t, p) == SymbolToken(RightCurlyBracket) ==> r == Ok([], p + 1)
  {
    if Peek(t, p) == SymbolToken(RightCurlyBracket) then Ok([], p + 1)
    else ParseEntries(t, p, [])
  }

  /** The first key that occurs earlier among `entries`, if any: the key the
      map builder rejects. */
  function RepeatedKey(entries: seq<Entry>): (r: Option<string>)
    ensures r.None? <==> DistinctKeys(entries)
    ensures r.Some? ==> exists i, j :: 0 <= i < j < |entries| && entries[i].key == r.value == entries[j].key
  {
    if |entries| == 0 then None
    else
      var last := entries[|entries| - 1];
      var front := entries[..|entries| - 1];
      match RepeatedKey(front)
      case Some(k) => Some(k)
      case None =>
        if exists i :: 0 <= i < |front| && front[i].key == last.key then Some(last.key) else None
  }

  /** The `do ... while (tryConsume(COMMA))` loop of parseMap, then the closing brace and
      the map builder's check for repeated keys; `done` holds the entries already read. */
  function ParseEntries(t: seq<Token>, p: nat, done: seq<Entry>): (r: Parsed<seq<Entry>>)
    requires p <= |t|
    decreases |t| - p, 2
    ensures r.Ok? ==> p < r.next <= |t| && Peek(t, r.next - 1) == SymbolToken(RightCurlyBracket)
    ensures r.Ok? ==> DistinctKeys(r.value) && |r.value| > |done| && r.value[..|done|] == done
  {
    match ParseKey(t, p)
    case Fail(e) => Fail(e)
    case Ok(key, q) =>
      match ExpectSymbol(t, q, Colon)
      case Fail(e) => Fail(e)
      case Ok(_, q1) =>
        match Parse(t, q1)
        case Fail(e) => Fail(e)
        case Ok(value, q2) =>
          var entries := done + [Entry(key, value)];
          if Peek(t, q2) == SymbolToken(Comma) then ParseEntries(t, q2 + 1, entries)
          else CloseMap(t, q2, entries)
  }

  /** The end of parseMap: the closing brace, then the map builder, which rejects a
      repeated key. */
  function CloseMap(t: seq<Token>, p: nat, entries: seq<Entry>): (r: Parsed<seq<Entry>>)
    requires p <= |t|
    ensures r.Ok? ==> r == Ok(entries, p + 1) && p < |t| && DistinctKeys(entries)
    ensures r.Ok? <==> Peek(t, p) == SymbolToken(RightCurlyBracket) && DistinctKeys(entries)
  {
    match ExpectSymbol(t, p, RightCurlyBracket)
    case Fail(e) => Fail(e)
    case Ok(_, q) =>
      match RepeatedKey(entries)
      case Some(k) => Fail(DuplicateKey(k))
      case None => Ok(entries, q)
  }

  /** A token that may stand as a map key: an identifier or a string literal. */
  predicate IsKeyToken(token: Token)
  {
    token.IdentifierToken? || (token.ValueToken? && token.value.Str?)
  }

  /** ValueParser.parseKey: an identifier or a string literal names a map key;
      any other token is rejected. */
  function ParseKey(t: seq<Token>, p: nat): (r: Parsed<string>)
    requires p <= |t|
    ensures r.Ok? <==> IsKeyToken(Peek(t, p))
    ensures r.Ok? ==> r.next == p + 1 <= |t| &&
                      r.value == (if Peek(t, p).IdentifierToken? then Peek(t, p).name else Peek(t, p).value.s)
    ensures r.Fail? ==> r.error == ExpectedKey(Peek(t, p))
  {
    match Peek(t, p)
    case IdentifierToken(name) => Ok(name, p + 1)
    case ValueToken(v) => if v.Str? then Ok(v.s, p + 1) else Fail(ExpectedKey(Peek(t, p)))
    case _ => Fail(ExpectedKey(Peek(t, p)))
  }
}
