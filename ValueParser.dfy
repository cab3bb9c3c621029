/**
 * ValueParser (src/main/java/com/catascopic/template/expr/ValueParser.java):
 * recursive descent over the tokenizer's cursor. Every method advances the
 * shared tokenizer and returns the parsed part or the error that aborts the
 * parse; each is proved to compute the corresponding function of
 * ValueGrammar, where the properties of the grammar are proved.
 * tokenizer.parseExpression() is this module's Parse.
 */
module ValueParser {
  import opened Wrappers
  import opened Tokens
  import opened Terms
  import G = ValueGrammar

  /** A value term: a literal, identifier or symbol-led term, then its postfix chain. */
  method Parse(tz: Tokenizer) returns (r: Result<Term, ParseError>)
    requires tz.Valid()
    modifies tz
    decreases |tz.tokens| - tz.pos, 1
    ensures tz.Valid()
    ensures Resume(r, tz.pos) == G.Parse(tz.tokens, old(tz.pos))
  {
    ghost var p0 := tz.pos;
    var token := tz.Next();
    var term: Term;
    match token {
      case ValueToken(v) =>
        term := Value(v);
      case IdentifierToken(name) =>
        var x := ParseIdentifier(tz, name);
        if x.Failure? {
          return Failure(x.error);
        }
        term := x.value;
      case SymbolToken(s) =>
        var x := ParseSymbol(s, tz);
        if x.Failure? {
          return Failure(x.error);
        }
        term := x.value;
      case EndToken =>
        return Failure(UnexpectedToken(token));
    }
    assert G.Primary(tz.tokens, p0) == Ok(term, tz.pos);
    var more := true;
    while more
      invariant tz.Valid() && p0 < tz.pos
      invariant more ==> G.Parse(tz.tokens, p0) == G.Postfix(tz.tokens, tz.pos, term)
      invariant !more ==> G.Parse(tz.tokens, p0) == Ok(term, tz.pos)
      decreases |tz.tokens| - tz.pos, more
    {
      var dot := tz.TryConsume(Dot);
      if dot {
        var name := tz.ParseIdentifier();
        if name.Failure? {
          return Failure(name.error);
        }
        term := Index(term, Value(Str(name.value)));
      } else {
        var bracket := tz.TryConsume(LeftBracket);
        if bracket {
          var x := ParseIndex(tz, term);
          if x.Failure? {
            return Failure(x.error);
          }
          term := x.value;
        } else {
          more := false;
        }
      }
    }
    r := Success(term);
  }

  /** The term a leading symbol opens: a unary term, a parenthesised expression,
      a list literal or a map literal. */
  method ParseSymbol(symbol: Symbol, tz: Tokenizer) returns (r: Result<Term, ParseError>)
    requires tz.Valid()
    modifies tz
    decreases |tz.tokens| - tz.pos, 4
    ensures tz.Valid()
    ensures Resume(r, tz.pos) == G.ParseSymbol(tz.tokens, old(tz.pos), symbol)
  {
    match symbol {
      case Plus | Minus | Not =>
        var operand := Parse(tz);
        if operand.Failure? {
          return Failure(operand.error);
        }
        r := Success(Unary(UnaryOperator(symbol), operand.value));
      case LeftParenthesis =>
        var term := Parse(tz);
        if term.Failure? {
          return Failure(term.error);
        }
        var closed := tz.Consume(RightParenthesis);
        if closed.Failure? {
          return Failure(closed.error);
        }
        r := Success(term.value);
      case LeftBracket =>
        var items := ParseExpressions(tz, RightBracket);
        if items.Failure? {
          return Failure(items.error);
        }
        r := Success(List(items.value));
      case LeftCurlyBracket =>
        var entries := ParseMap(tz);
        if entries.Failure? {
          return Failure(entries.error);
        }
        r := Success(Map(entries.value));
      case _ =>
        r := Failure(UnexpectedSymbol(symbol));
    }
  }

  /** A function call when `(` follows the identifier, a variable otherwise. */
  method ParseIdentifier(tz: Tokenizer, identifier: string) returns (r: Result<Term, ParseError>)
    requires tz.Valid()
    modifies tz
    decreases |tz.tokens| - tz.pos, 0
    ensures tz.Valid()
    ensures Resume(r, tz.pos) == G.ParseIdentifier(tz.tokens, old(tz.pos), identifier)
  {
    var call := tz.TryConsume(LeftParenthesis);
    if call {
      var args := ParseExpressions(tz, RightParenthesis);
      if args.Failure? {
        return Failure(args.error);
      }
      return Success(Function(identifier, args.value));
    }
    r := Success(Variable(identifier));
  }

  /** After `[`: `[i]` is an index; every form with a colon is a slice whose
      omitted parts are None. */
  method ParseIndex(tz: Tokenizer, target: Term) returns (r: Result<Term, ParseError>)
    requires tz.Valid()
    modifies tz
    decreases |tz.tokens| - tz.pos, 2
    ensures tz.Valid()
    ensures Resume(r, tz.pos) == G.ParseIndex(tz.tokens, old(tz.pos), target)
  {
    var index: Option<Term>;
    var colon := tz.TryConsume(Colon);
    if colon {
      index := None;
    } else {
      var x := Parse(tz);
      if x.Failure? {
        return Failure(x.error);
      }
      var closed := tz.TryConsume(RightBracket);
      if closed {
        // [i]
        return Success(Index(target, x.value));
      }
      var separated := tz.Consume(Colon);
      if separated.Failure? {
        return Failure(separated.error);
      }
      index := Some(x.value);
    }
    r := SliceStop(tz, target, index);
  }

  /** The slice after its first colon: `]` ends it, otherwise an optional stop follows. */
  method SliceStop(tz: Tokenizer, target: Term, start: Option<Term>) returns (r: Result<Term, ParseError>)
    requires tz.Valid()
    modifies tz
    decreases |tz.tokens| - tz.pos, 2
    ensures tz.Valid()
    ensures Resume(r, tz.pos) == G.SliceStop(tz.tokens, old(tz.pos), target, start)
  {
    var closed := tz.TryConsume(RightBracket);
    if closed {
      // [:], [i:]
      return Success(Slice(target, start, None, None));
    }
    var stop: Option<Term>;
    var colon := tz.TryConsume(Colon);
    if colon {
      stop := None;
    } else {
      var y := Parse(tz);
      if y.Failure? {
        return Failure(y.error);
      }
      closed := tz.TryConsume(RightBracket);
      if closed {
        // [i:j], [:j]
        return Success(Slice(target, start, Some(y.value), None));
      }
      var separated := tz.Consume(Colon);
      if separated.Failure? {
        return Failure(separated.error);
      }
      stop := Some(y.value);
    }
    r := SliceStep(tz, target, start, stop);
  }

  /** The slice after its second colon: `]` ends it with no step, otherwise the step
      and `]` follow. */
  method SliceStep(tz: Tokenizer, target: Term, start: Option<Term>, stop: Option<Term>)
    returns (r: Result<Term, ParseError>)
    requires tz.Valid()
    modifies tz
    decreases |tz.tokens| - tz.pos, 2
    ensures tz.Valid()
    ensures Resume(r, tz.pos) == G.SliceStep(tz.tokens, old(tz.pos), target, start, stop)
  {
    var closed := tz.TryConsume(RightBracket);
    if closed {
      // [i:j:], [i::], [::], [:j:]
      return Success(Slice(target, start, stop, None));
    }
    var step := Parse(tz);
    if step.Failure? {
      return Failure(step.error);
    }
    var ended := tz.Consume(RightBracket);
    if ended.Failure? {
      return Failure(ended.error);
    }
    // [i:j:k], [i::k], [:j:k], [::k]
    r := Success(Slice(target, start, stop, Some(step.value)));
  }

  /** A comma-separated list of expressions closed by `end`; empty when `end` comes first. */
  method ParseExpressions(tz: Tokenizer, end: Symbol) returns (r: Result<seq<Term>, ParseError>)
    requires tz.Valid()
    modifies tz
    decreases |tz.tokens| - tz.pos, 3
    ensures tz.Valid()
    ensures Resume(r, tz.pos) == G.ParseExpressions(tz.tokens, old(tz.pos), end)
  {
    ghost var p0 := tz.pos;
    var empty := tz.TryConsume(end);
    if empty {
      return Success([]);
    }
    var terms: seq<Term> := [];
    var more := true;
    while more
      invariant tz.Valid() && p0 <= tz.pos
      invariant more ==> G.ParseExpressions(tz.tokens, p0, end) == G.ParseItems(tz.tokens, tz.pos, end, terms)
      invariant !more ==> G.ParseExpressions(tz.tokens, p0, end) == G.Closing(tz.tokens, tz.pos, end, terms)
      decreases |tz.tokens| - tz.pos, more
    {
      var term := Parse(tz);
      if term.Failure? {
        return Failure(term.error);
      }
      terms := terms + [term.value];
      more := tz.TryConsume(Comma);
    }
    var closed := tz.Consume(end);
    if closed.Failure? {
      return Failure(closed.error);
    }
    r := Success(terms);
  }

  /** The entries of a map literal after `{`; empty when `}` comes first. The
      map builder rejects a key given twice. */
  method ParseMap(tz: Tokenizer) returns (r: Result<seq<Entry>, ParseError>)
    requires tz.Valid()
    modifies tz
    decreases |tz.tokens| - tz.pos, 3
    ensures tz.Valid()
    ensures Resume(r, tz.pos) == G.ParseMap(tz.tokens, old(tz.pos))
  {
    ghost var p0 := tz.pos;
    var empty := tz.TryConsume(RightCurlyBracket);
    if empty {
      return Success([]);
    }
    var entries: seq<Entry> := [];
    var more := true;
    while more
      invariant tz.Valid() && p0 <= tz.pos
      invariant more ==> G.ParseMap(tz.tokens, p0) == G.ParseEntries(tz.tokens, tz.pos, entries)
      invariant !more ==> G.ParseMap(tz.tokens, p0) == G.CloseMap(tz.tokens, tz.pos, entries)
      decreases |tz.tokens| - tz.pos, more
    {
      var key := ParseKey(tz);
      if key.Failure? {
        return Failure(key.error);
      }
      var separated := tz.Consume(Colon);
      if separated.Failure? {
        return Failure(separated.error);
      }
      var value := Parse(tz);
      if value.Failure? {
        return Failure(value.error);
      }
      entries := entries + [Entry(key.value, value.value)];
      more := tz.TryConsume(Comma);
    }
    var closed := tz.Consume(RightCurlyBracket);
    if closed.Failure? {
      return Failure(closed.error);
    }
    match G.RepeatedKey(entries) {
      case Some(k) => r := Failure(DuplicateKey(k));
      case None => r := Success(entries);
    }
  }

  /** A map key: an identifier or a string literal. */
  method ParseKey(tz: Tokenizer) returns (r: Result<string, ParseError>)
    requires tz.Valid()
    modifies tz
    ensures tz.Valid()
    ensures Resume(r, tz.pos) == G.ParseKey(tz.tokens, old(tz.pos))
  {
    var token := tz.Next();
    match token {
      case IdentifierToken(name) =>
        r := Success(name);
      case ValueToken(v) =>
        if v.Str? {
          r := Success(v.s);
        } else {
          r := Failure(ExpectedKey(token));
        }
      case _ =>
        r := Failure(ExpectedKey(token));
    }
  }
}
