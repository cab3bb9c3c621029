/**
 * Facts about single decisions of the value grammar: which token opens which
 * kind of term, how the postfix operators and the unary operators attach,
 * which bracket forms are indexes and which are slices, and which tokens the
 * list and map readers reject.
 */
module ValueGrammarFacts {
  import opened Wrappers
  import opened Tokens
  import opened Terms
  import opened ValueGrammar
  import opened ValueGrammarProperties

  /** A term starts with a token that can open one; any other token aborts the parse
      at once: the end of input as an unexpected token, a symbol as an unexpected symbol. */
  lemma StartToken(t: seq<Token>, p: nat)
    requires p <= |t|
    ensures Parse(t, p).Ok? ==> CanStartTerm(Peek(t, p))
    ensures Peek(t, p) == EndToken ==> Parse(t, p) == Fail(UnexpectedToken(EndToken))
    ensures Peek(t, p).SymbolToken? && !CanStartTerm(Peek(t, p)) ==>
              Parse(t, p) == Fail(UnexpectedSymbol(Peek(t, p).symbol))
  {
    if p < |t| && t[p].SymbolToken? && !CanStartTerm(t[p]) {
      assert ParseSymbol(t, p + 1, t[p].symbol) == Fail(UnexpectedSymbol(t[p].symbol));
      assert Primary(t, p) == Fail(UnexpectedSymbol(t[p].symbol));
    }
  }

  /** A literal value token is a value term, then the postfix chain. */
  lemma ValueStart(t: seq<Token>, p: nat, v: Literal)
    requires p <= |t| && Peek(t, p) == ValueToken(v)
    ensures Parse(t, p) == Postfix(t, p + 1, Value(v))
  {
  }

  /** An identifier followed by `(` is a call with the argument list that follows;
      any other identifier is a variable. */
  lemma IdentifierStart(t: seq<Token>, p: nat, name: string)
    requires p <= |t| && Peek(t, p) == IdentifierToken(name)
    ensures Peek(t, p + 1) != SymbolToken(LeftParenthesis) ==>
              Parse(t, p) == Postfix(t, p + 1, Variable(name))
    ensures Peek(t, p + 1) == SymbolToken(LeftParenthesis) ==>
              var args := ParseExpressions(t, p + 2, RightParenthesis);
              Parse(t, p) == if args.Ok? then Postfix(t, args.next, Function(name, args.value))
                             else Fail(args.error)
  {
    if Peek(t, p + 1) == SymbolToken(LeftParenthesis) {
      var args := ParseExpressions(t, p + 2, RightParenthesis);
      assert Primary(t, p) == if args.Ok? then Ok(Function(name, args.value), args.next) else Fail(args.error);
    }
  }

  /** `.name` indexes the term by the string literal `name`, exactly as `["name"]` does,
      and the chain goes on after it. */
  lemma DotIsStringIndex(t: seq<Token>, p: nat, u: seq<Token>, q: nat, term: Term, name: string)
    requires StartsWith(t, p, [SymbolToken(Dot), IdentifierToken(name)])
    requires StartsWith(u, q, [SymbolToken(LeftBracket), ValueToken(Str(name)), SymbolToken(RightBracket)])
    ensures Postfix(t, p, term) == Postfix(t, p + 2, Index(term, Value(Str(name))))
    ensures Postfix(u, q, term) == Postfix(u, q + 3, Index(term, Value(Str(name))))
  {
    StartsWithPair(t, p, SymbolToken(Dot), IdentifierToken(name));
    var open := [SymbolToken(LeftBracket)];
    var rest := [ValueToken(Str(name)), SymbolToken(RightBracket)];
    assert [SymbolToken(LeftBracket), ValueToken(Str(name)), SymbolToken(RightBracket)] == open + rest;
    StartsWithConcat(u, q, open, rest);
    StartsWithPeek(u, q, open);
    StartsWithPair(u, q + 1, rest[0], rest[1]);
    assert Parse(u, q + 1) == Ok(Value(Str(name)), q + 2);
    assert ParseIndex(u, q + 1, term) == Ok(Index(term, Value(Str(name))), q + 3);
  }

  /** Postfix operators chain left to right: each one applies to the term built so far. */
  lemma PostfixChain(t: seq<Token>, p: nat, term: Term)
    requires p <= |t|
    ensures Peek(t, p) == SymbolToken(LeftBracket) ==>
              var indexed := ParseIndex(t, p + 1, term);
              Postfix(t, p, term) == if indexed.Ok? then Postfix(t, indexed.next, indexed.value)
                                     else Fail(indexed.error)
    ensures Peek(t, p) == SymbolToken(Dot) && !Peek(t, p + 1).IdentifierToken? ==>
              Postfix(t, p, term) == Fail(ExpectedIdentifier(Peek(t, p + 1)))
    ensures !IsPostfixStart(Peek(t, p)) ==> Postfix(t, p, term) == Ok(term, p)
  {
  }

  /** A unary operator applies to the whole value term after it, postfix chain
      included: `-a.b` negates `a.b`. */
  lemma UnaryWrapsChain(t: seq<Token>, p: nat, s: Symbol, operand: Term, q: nat)
    requires p <= |t| && Peek(t, p) == SymbolToken(s) && IsUnarySymbol(s)
    requires Parse(t, p + 1) == Ok(operand, q)
    ensures Parse(t, p) == Ok(Unary(UnaryOperator(s), operand), q)
  {
    assert Primary(t, p) == Ok(Unary(UnaryOperator(s), operand), q);
  }

  /** A parenthesised term must be closed by `)`. */
  lemma ParenthesisMustClose(t: seq<Token>, p: nat, term: Term, q: nat)
    requires p <= |t| && Peek(t, p) == SymbolToken(LeftParenthesis)
    requires Parse(t, p + 1) == Ok(term, q)
    ensures Peek(t, q) == SymbolToken(RightParenthesis) ==> Parse(t, p) == Postfix(t, q + 1, term)
    ensures Peek(t, q) != SymbolToken(RightParenthesis) ==>
              Parse(t, p) == Fail(ExpectedSymbol(RightParenthesis, Peek(t, q)))
  {
    if Peek(t, q) == SymbolToken(RightParenthesis) {
      assert Primary(t, p) == Ok(term, q + 1);
    } else {
      assert Primary(t, p) == Fail(ExpectedSymbol(RightParenthesis, Peek(t, q)));
    }
  }

  /** Inside brackets, the result is an index exactly when no colon follows the first
      term: the first term parses and `]` comes right after it. Every other
      successful bracket form is a slice. */
  lemma IndexOrSlice(t: seq<Token>, p: nat, target: Term)
    requires p <= |t| && ParseIndex(t, p, target).Ok?
    ensures ParseIndex(t, p, target).value.Index? <==>
              Peek(t, p) != SymbolToken(Colon) && Parse(t, p).Ok? &&
              Peek(t, Parse(t, p).next) == SymbolToken(RightBracket)
    ensures ParseIndex(t, p, target).value.Index? ==>
              ParseIndex(t, p, target) ==
              Ok(Index(target, Parse(t, p).value), Parse(t, p).next + 1)
    ensures !ParseIndex(t, p, target).value.Index? ==> ParseIndex(t, p, target).value.Slice?
  {
  }

  /** A slice with the start omitted begins with the colon. */
  lemma SliceWithoutStart(t: seq<Token>, p: nat, target: Term)
    requires p <= |t| && Peek(t, p) == SymbolToken(Colon)
    ensures ParseIndex(t, p, target) == SliceStop(t, p + 1, target, None)
    ensures ParseIndex(t, p, target).Ok? ==>
              ParseIndex(t, p, target).value.Slice? && ParseIndex(t, p, target).value.start.None?
  {
  }

  /** `]` straight after the first colon omits the stop and the step. */
  lemma SliceEndsAfterStart(t: seq<Token>, p: nat, target: Term, start: Option<Term>)
    requires p <= |t| && Peek(t, p) == SymbolToken(RightBracket)
    ensures SliceStop(t, p, target, start) == Ok(Slice(target, start, None, None), p + 1)
  {
  }

  /** A trailing colon is ignored: `]` straight after the second colon gives the same
      slice as `]` in its place, with the step omitted. */
  lemma TrailingColon(t: seq<Token>, p: nat, target: Term, start: Option<Term>, stop: Option<Term>)
    requires p <= |t| && Peek(t, p) == SymbolToken(RightBracket)
    ensures SliceStep(t, p, target, start, stop) == Ok(Slice(target, start, stop, None), p + 1)
  {
  }

  /** Both spellings, with and without the trailing colon, of a slice with no step:
      the stop (if any), an optional colon, then `]` all give the same slice. */
  lemma TrailingColonRender(t: seq<Token>, p: nat, term: Term, trailing: bool)
    requires term.Slice? && term.step.None? && WellFormed(term)
    requires StartsWith(t, p, RenderPart(term.stop) + (if trailing then [SymbolToken(Colon)] else []) +
                              [SymbolToken(RightBracket)])
    ensures SliceStop(t, p, term.target, term.start) ==
              Ok(term, p + |RenderPart(term.stop)| + (if trailing then 2 else 1))
  {
    var b := RenderPart(term.stop);
    TrailingColonTokens(t, p, b, trailing);
    if term.stop.Some? {
      SliceParts(term);
      ParseRender(t, p, term.stop.value);
      StopStep(t, p, term.target, term.start, term.stop.value, p + |b|);
    }
  }

  /** The tokens of a slice end: some tokens, an optional colon, then `]`. */
  lemma TrailingColonTokens(t: seq<Token>, p: nat, b: seq<Token>, trailing: bool)
    requires StartsWith(t, p, b + (if trailing then [SymbolToken(Colon)] else []) + [SymbolToken(RightBracket)])
    ensures StartsWith(t, p, b)
    ensures |b| > 0 ==> Peek(t, p) == b[0]
    ensures |b| == 0 && trailing ==> Peek(t, p) == SymbolToken(Colon)
    ensures |b| == 0 && !trailing ==> Peek(t, p) == SymbolToken(RightBracket)
    ensures trailing ==> Peek(t, p + |b|) == SymbolToken(Colon) &&
                         Peek(t, p + |b| + 1) == SymbolToken(RightBracket)
    ensures !trailing ==> Peek(t, p + |b|) == SymbolToken(RightBracket)
  {
    if trailing {
      assert b + [SymbolToken(Colon)] + [SymbolToken(RightBracket)] ==
             b + (if trailing then [SymbolToken(Colon)] else []) + [SymbolToken(RightBracket)];
      SplitAround(t, p, b, SymbolToken(Colon), [SymbolToken(RightBracket)]);
      StartsWithPeek(t, p + |b| + 1, [SymbolToken(RightBracket)]);
    } else {
      assert b + [SymbolToken(RightBracket)] ==
             b + (if trailing then [SymbolToken(Colon)] else []) + [SymbolToken(RightBracket)];
      StartsWithConcat(t, p, b, [SymbolToken(RightBracket)]);
      StartsWithPeek(t, p + |b|, [SymbolToken(RightBracket)]);
    }
    if |b| > 0 {
      StartsWithPeek(t, p, b);
    }
  }

  /** An empty argument or item list is the closer alone. */
  lemma EmptyExpressions(t: seq<Token>, p: nat, end: Symbol)
    requires p <= |t| && Peek(t, p) == SymbolToken(end)
    ensures ParseExpressions(t, p, end) == Ok([], p + 1)
  {
  }

  /** A list must be closed by its closer: after the last term, any token other than
      the comma and the closer is an error. */
  lemma ItemsMustClose(t: seq<Token>, p: nat, end: Symbol, done: seq<Term>, term: Term, q: nat)
    requires p <= |t| && Parse(t, p) == Ok(term, q)
    requires Peek(t, q) != SymbolToken(Comma) && Peek(t, q) != SymbolToken(end)
    ensures ParseItems(t, p, end, done) == Fail(ExpectedSymbol(end, Peek(t, q)))
  {
  }

  /** A comma must be followed by another term: a trailing comma before the closer of
      a list, a call or a map is an unexpected symbol. */
  lemma TrailingCommaRejected(t: seq<Token>, p: nat, end: Symbol, done: seq<Term>, entries: seq<Entry>)
    requires p <= |t|
    requires end == RightBracket || end == RightParenthesis || end == RightCurlyBracket
    requires Peek(t, p) == SymbolToken(end)
    ensures ParseItems(t, p, end, done) == Fail(UnexpectedSymbol(end))
    ensures ParseEntries(t, p, entries) == Fail(ExpectedKey(SymbolToken(end)))
  {
    StartToken(t, p);
  }

  /** Map keys are identifiers or string literals; a number, a symbol or the end of
      input where a key belongs is an error. */
  lemma KeyForms(t: seq<Token>, p: nat, entries: seq<Entry>)
    requires p <= |t|
    ensures Peek(t, p).IdentifierToken? ==> ParseKey(t, p) == Ok(Peek(t, p).name, p + 1)
    ensures Peek(t, p).ValueToken? && Peek(t, p).value.Str? ==> ParseKey(t, p) == Ok(Peek(t, p).value.s, p + 1)
    ensures !IsKeyToken(Peek(t, p)) ==> ParseKey(t, p) == Fail(ExpectedKey(Peek(t, p)))
    ensures !IsKeyToken(Peek(t, p)) ==> ParseEntries(t, p, entries) == Fail(ExpectedKey(Peek(t, p)))
  {
  }

  /** A parsed map literal never holds a key twice; a repeated key is reported
      once the closing brace is read. */
  lemma MapKeysDistinct(t: seq<Token>, p: nat)
    requires p <= |t| && ParseMap(t, p).Ok?
    ensures DistinctKeys(ParseMap(t, p).value)
  {
  }

  /** The map builder rejects the first repeated key once the closing brace is there. */
  lemma RepeatedKeyRejected(t: seq<Token>, p: nat, entries: seq<Entry>)
    requires p <= |t| && Peek(t, p) == SymbolToken(RightCurlyBracket)
    requires !DistinctKeys(entries)
    ensures CloseMap(t, p, entries) == Fail(DuplicateKey(RepeatedKey(entries).value))
  {
  }
}
