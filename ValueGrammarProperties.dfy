/**
 * Properties of the value grammar. The central one is a round trip: a
 * renderer writes any term back as tokens, and parsing those tokens yields
 * the term again and stops right after them. The slice shapes, the order of
 * list items and the rendering of unary terms all follow from it; the other
 * lemmas relate two spellings that the parser reads alike.
 */
module ValueGrammarProperties {
  import opened Wrappers
  import opened Tokens
  import opened Terms
  import opened ValueGrammar

  /** The number of constructors in a term: the measure the proofs descend on. */
  function Size(term: Term): (n: nat)
    decreases term
    ensures n >= 1
  {
    match term
    case Value(_) => 1
    case Variable(_) => 1
    case Unary(_, e) => 1 + Size(e)
    case Index(tg, i) => 1 + Size(tg) + Size(i)
    case Slice(tg, a, b, c) => 1 + Size(tg) + PartSize(a) + PartSize(b) + PartSize(c)
    case List(items) => 1 + ListSize(items)
    case Map(entries) => 1 + EntriesSize(entries)
    case Function(_, args) => 1 + ListSize(args)
  }

  function PartSize(part: Option<Term>): nat
    decreases part
  {
    match part
    case None => 0
    case Some(e) => Size(e)
  }

  function ListSize(items: seq<Term>): nat
    decreases items
  {
    if items == [] then 0 else Size(items[0]) + ListSize(items[1..])
  }

  function EntriesSize(entries: seq<Entry>): nat
    decreases entries
  {
    if entries == [] then 0 else Size(entries[0].value) + EntriesSize(entries[1..])
  }

  /** The first of two findings. */
  function FirstOf(x: Option<string>, y: Option<string>): Option<string>
  {
    if x.Some? then x else y
  }

  /** The first key that a map literal inside the term repeats, if any. */
  function Duplicate(term: Term): Option<string>
    decreases Size(term), 1
  {
    match term
    case Value(_) => None
    case Variable(_) => None
    case Unary(_, e) => Duplicate(e)
    case Index(tg, i) => FirstOf(Duplicate(tg), Duplicate(i))
    case Slice(tg, a, b, c) =>
      FirstOf(Duplicate(tg), FirstOf(PartDuplicate(a), FirstOf(PartDuplicate(b), PartDuplicate(c))))
    case List(items) => ItemsDuplicate(items)
    case Map(entries) => FirstOf(RepeatedKey(entries), EntriesDuplicate(entries))
    case Function(_, args) => ItemsDuplicate(args)
  }

  function PartDuplicate(part: Option<Term>): Option<string>
    decreases PartSize(part), 2
  {
    match part
    case None => None
    case Some(e) => Duplicate(e)
  }

  function ItemsDuplicate(items: seq<Term>): Option<string>
    decreases ListSize(items), 2
  {
    if items == [] then None else FirstOf(Duplicate(items[0]), ItemsDuplicate(items[1..]))
  }

  function EntriesDuplicate(entries: seq<Entry>): Option<string>
    decreases EntriesSize(entries), 2
  {
    if entries == [] then None else FirstOf(Duplicate(entries[0].value), EntriesDuplicate(entries[1..]))
  }

  /** A term the parser can produce: no map literal inside it repeats a key, since the
      map builder rejects those. */
  predicate WellFormed(term: Term)
  {
    Duplicate(term).None?
  }

  /** A token that can open a value term. */
  predicate CanStartTerm(token: Token)
  {
    token.ValueToken? || token.IdentifierToken? ||
    (token.SymbolToken? && (IsUnarySymbol(token.symbol) || token.symbol == LeftParenthesis ||
                            token.symbol == LeftBracket || token.symbol == LeftCurlyBracket))
  }

  /** A token after which a finished term stays finished: not `.`, `[` or `(`. */
  predicate EndsTerm(token: Token)
  {
    !IsPostfixStart(token) && token != SymbolToken(LeftParenthesis)
  }

  /** The tokens of a term; a unary term that is indexed or sliced is parenthesised,
      since a unary operator takes the whole postfix chain that follows it. */
  function Render(term: Term): (r: seq<Token>)
    decreases Size(term), 3
    ensures |r| > 0 && CanStartTerm(r[0])
  {
    match term
    case Value(l) => [ValueToken(l)]
    case Variable(n) => [IdentifierToken(n)]
    case Unary(op, e) => [SymbolToken(OperatorSymbol(op))] + Render(e)
    case Index(tg, i) => RenderTarget(tg) + [SymbolToken(LeftBracket)] + Render(i) + [SymbolToken(RightBracket)]
    case Slice(tg, a, b, c) => RenderTarget(tg) + [SymbolToken(LeftBracket)] + SliceBody(a, b, c)
    case List(items) => [SymbolToken(LeftBracket)] + RenderItems(items) + [SymbolToken(RightBracket)]
    case Map(entries) =>
      [SymbolToken(LeftCurlyBracket)] + RenderEntries(entries) + [SymbolToken(RightCurlyBracket)]
    case Function(n, args) =>
      [IdentifierToken(n), SymbolToken(LeftParenthesis)] + RenderItems(args) + [SymbolToken(RightParenthesis)]
  }

  /** The tokens of a term standing before a postfix operator. */
  function RenderTarget(term: Term): (r: seq<Token>)
    decreases Size(term), 4
    ensures |r| > 0
  {
    if term.Unary? then [SymbolToken(LeftParenthesis)] + Render(term) + [SymbolToken(RightParenthesis)]
    else Render(term)
  }

  /** An omitted slice part renders as nothing. */
  function RenderPart(part: Option<Term>): seq<Token>
    decreases PartSize(part), 4
  {
    match part
    case None => []
    case Some(e) => Render(e)
  }

  /** The tokens of a slice between `[` and `]`, the `]` included. */
  function SliceBody(a: Option<Term>, b: Option<Term>, c: Option<Term>): seq<Token>
    decreases PartSize(a) + PartSize(b) + PartSize(c), 6
  {
    RenderPart(a) + [SymbolToken(Colon)] + SliceTail(b, c)
  }

  /** The tokens of a slice after its first colon. */
  function SliceTail(b: Option<Term>, c: Option<Term>): seq<Token>
    decreases PartSize(b) + PartSize(c), 5
  {
    RenderPart(b) + StepPart(c) + [SymbolToken(RightBracket)]
  }

  /** The step of a slice with the colon before it; nothing when omitted. */
  function StepPart(c: Option<Term>): seq<Token>
    decreases PartSize(c), 4
  {
    match c
    case None => []
    case Some(k) => [SymbolToken(Colon)] + Render(k)
  }

  /** Terms separated by commas. */
  function RenderItems(items: seq<Term>): seq<Token>
    decreases ListSize(items), 4
  {
    if items == [] then []
    else if |items| == 1 then Render(items[0])
    else Render(items[0]) + [SymbolToken(Comma)] + RenderItems(items[1..])
  }

  /** One `"key": value` pair. */
  function RenderEntry(e: Entry): seq<Token>
    decreases Size(e.value), 4
  {
    [ValueToken(Str(e.key)), SymbolToken(Colon)] + Render(e.value)
  }

  /** `"key": value` pairs separated by commas. */
  function RenderEntries(entries: seq<Entry>): seq<Token>
    decreases EntriesSize(entries), 5
  {
    if entries == [] then []
    else if |entries| == 1 then RenderEntry(entries[0])
    else RenderEntry(entries[0]) + [SymbolToken(Comma)] + RenderEntries(entries[1..])
  }

  /** The tokens s stand in t from position p on, compared one token at a time. */
  predicate StartsWith(t: seq<Token>, p: nat, s: seq<Token>)
    decreases |s|
    ensures StartsWith(t, p, s) ==> p + |s| <= |t|
  {
    if s == [] then p <= |t| else p < |t| && t[p] == s[0] && StartsWith(t, p + 1, s[1..])
  }

  /** StartsWith says that the slice of t from p is s. */
  lemma {:induction false} StartsWithSlice(t: seq<Token>, p: nat, s: seq<Token>)
    ensures StartsWith(t, p, s) <==> p + |s| <= |t| && t[p..p + |s|] == s
    decreases |s|
  {
    if s != [] {
      StartsWithSlice(t, p + 1, s[1..]);
      if p + |s| <= |t| {
        assert t[p..p + |s|] == [t[p]] + t[p + 1..p + 1 + |s[1..]|];
        assert s == [s[0]] + s[1..];
      }
    }
  }

  lemma StartsWithConcat(t: seq<Token>, p: nat, a: seq<Token>, b: seq<Token>)
    requires StartsWith(t, p, a + b)
    ensures StartsWith(t, p, a) && StartsWith(t, p + |a|, b)
  {
    StartsWithSlice(t, p, a + b);
    StartsWithSlice(t, p, a);
    StartsWithSlice(t, p + |a|, b);
    assert t[p..p + |a|] == (a + b)[..|a|];
    assert t[p + |a|..p + |a| + |b|] == (a + b)[|a|..];
  }

  lemma StartsWithPeek(t: seq<Token>, p: nat, s: seq<Token>)
    requires StartsWith(t, p, s) && |s| > 0
    ensures Peek(t, p) == s[0]
  {
  }

  /** Tokens a, then the single token x, then tokens b. */
  lemma SplitAround(t: seq<Token>, p: nat, a: seq<Token>, x: Token, b: seq<Token>)
    requires StartsWith(t, p, a + [x] + b)
    ensures StartsWith(t, p, a) && Peek(t, p + |a|) == x && StartsWith(t, p + |a| + 1, b)
  {
    StartsWithConcat(t, p, a + [x], b);
    StartsWithConcat(t, p, a, [x]);
    StartsWithPeek(t, p + |a|, [x]);
  }

  /** SplitAround, with the length of the whole. */
  lemma SplitAroundLength(t: seq<Token>, p: nat, a: seq<Token>, x: Token, b: seq<Token>)
    requires StartsWith(t, p, a + [x] + b)
    ensures StartsWith(t, p, a) && Peek(t, p + |a|) == x && StartsWith(t, p + |a| + 1, b)
    ensures |a + [x] + b| == |a| + 1 + |b|
  {
    SplitAround(t, p, a, x, b);
  }

  /** The single token x, then tokens k, then the single token y. */
  lemma Bracketed(t: seq<Token>, p: nat, x: Token, k: seq<Token>, y: Token)
    requires StartsWith(t, p, [x] + k + [y])
    ensures Peek(t, p) == x && StartsWith(t, p + 1, k) && Peek(t, p + 1 + |k|) == y
  {
    assert [x] + k + [y] == [] + [x] + (k + [y]);
    SplitAround(t, p, [], x, k + [y]);
    StartsWithConcat(t, p + 1, k, [y]);
    StartsWithPeek(t, p + 1 + |k|, [y]);
  }

  lemma StartsWithPair(t: seq<Token>, p: nat, x: Token, y: Token)
    requires StartsWith(t, p, [x, y])
    ensures Peek(t, p) == x && Peek(t, p + 1) == y
  {
    assert [x, y][1..] == [y];
  }

  lemma OperatorRoundTrip(op: UnaryOp)
    ensures UnaryOperator(OperatorSymbol(op)) == op
  {
  }

  // One unfolding of a grammar function each; the round trip below only ever
  // needs these steps, never the whole recursive definition at once.

  lemma PrimaryStep(t: seq<Token>, p: nat, term: Term, q: nat)
    requires p <= |t| && Primary(t, p) == Ok(term, q)
    ensures Parse(t, p) == Postfix(t, q, term)
  {
  }

  lemma IndexStep(t: seq<Token>, p: nat, target: Term, indexed: Term, q: nat)
    requires p < |t| && t[p] == SymbolToken(LeftBracket)
    requires ParseIndex(t, p + 1, target) == Ok(indexed, q)
    ensures Postfix(t, p, target) == Postfix(t, q, indexed)
  {
  }

  lemma IndexCaseStep(t: seq<Token>, p: nat, target: Term, index: Term, q: nat)
    requires p <= |t| && Peek(t, p) != SymbolToken(Colon)
    requires Parse(t, p) == Ok(index, q) && Peek(t, q) == SymbolToken(RightBracket)
    ensures ParseIndex(t, p, target) == Ok(Index(target, index), q + 1)
  {
  }

  lemma StartStep(t: seq<Token>, p: nat, target: Term, start: Term, q: nat)
    requires p <= |t| && Peek(t, p) != SymbolToken(Colon)
    requires Parse(t, p) == Ok(start, q) && Peek(t, q) == SymbolToken(Colon)
    ensures ParseIndex(t, p, target) == SliceStop(t, q + 1, target, Some(start))
  {
    assert Peek(t, q) != SymbolToken(RightBracket);
  }

  lemma StopStep(t: seq<Token>, p: nat, target: Term, start: Option<Term>, stop: Term, q: nat)
    requires p <= |t| && Peek(t, p) != SymbolToken(Colon) && Peek(t, p) != SymbolToken(RightBracket)
    requires Parse(t, p) == Ok(stop, q)
    ensures Peek(t, q) == SymbolToken(RightBracket) ==>
              SliceStop(t, p, target, start) == Ok(Slice(target, start, Some(stop), None), q + 1)
    ensures Peek(t, q) == SymbolToken(Colon) ==>
              SliceStop(t, p, target, start) == SliceStep(t, q + 1, target, start, Some(stop))
  {
  }

  lemma ItemsComma(t: seq<Token>, p: nat, end: Symbol, done: seq<Term>, term: Term, q: nat)
    requires p <= |t| && Parse(t, p) == Ok(term, q) && Peek(t, q) == SymbolToken(Comma)
    ensures ParseItems(t, p, end, done) == ParseItems(t, q + 1, end, done + [term])
  {
  }

  lemma ItemsClose(t: seq<Token>, p: nat, end: Symbol, done: seq<Term>, term: Term, q: nat)
    requires p <= |t| && Parse(t, p) == Ok(term, q) && Peek(t, q) == SymbolToken(end) && end != Comma
    ensures ParseItems(t, p, end, done) == Ok(done + [term], q + 1)
  {
  }

  lemma EntriesComma(t: seq<Token>, p: nat, done: seq<Entry>, e: Entry, q: nat)
    requires p + 2 <= |t| && t[p] == ValueToken(Str(e.key)) && t[p + 1] == SymbolToken(Colon)
    requires Parse(t, p + 2) == Ok(e.value, q) && Peek(t, q) == SymbolToken(Comma)
    ensures ParseEntries(t, p, done) == ParseEntries(t, q + 1, done + [e])
  {
    assert ParseKey(t, p) == Ok(e.key, p + 1);
  }

  lemma EntriesClose(t: seq<Token>, p: nat, done: seq<Entry>, e: Entry, q: nat)
    requires p + 2 <= |t| && t[p] == ValueToken(Str(e.key)) && t[p + 1] == SymbolToken(Colon)
    requires Parse(t, p + 2) == Ok(e.value, q) && Peek(t, q) == SymbolToken(RightCurlyBracket)
    requires RepeatedKey(done + [e]).None?
    ensures ParseEntries(t, p, done) == Ok(done + [e], q + 1)
  {
    assert ParseKey(t, p) == Ok(e.key, p + 1);
  }

  /** Parsing the tokens of a well-formed term, followed by a token that ends a term,
      yields the term and stops right after its tokens. */
  lemma {:induction false} ParseRender(t: seq<Token>, p: nat, term: Term)
    requires WellFormed(term)
    requires StartsWith(t, p, Render(term))
    requires EndsTerm(Peek(t, p + |Render(term)|))
    ensures Parse(t, p) == Ok(term, p + |Render(term)|)
    decreases Size(term), 11
  {
    if term.Unary? {
      ParseUnaryRender(t, p, term);
    } else {
      ParseTargetRender(t, p, term);
    }
  }

  /** A unary operator followed by the tokens of a term wraps that whole term,
      its postfix chain included. */
  lemma {:induction false} ParseUnaryRender(t: seq<Token>, p: nat, term: Term)
    requires term.Unary? && WellFormed(term)
    requires StartsWith(t, p, Render(term))
    requires EndsTerm(Peek(t, p + |Render(term)|))
    ensures Parse(t, p) == Ok(term, p + |Render(term)|)
    decreases Size(term), 7
  {
    var s := OperatorSymbol(term.op);
    StartsWithConcat(t, p, [SymbolToken(s)], Render(term.operand));
    StartsWithPeek(t, p, [SymbolToken(s)]);
    ParseRender(t, p + 1, term.operand);
    OperatorRoundTrip(term.op);
    assert Primary(t, p) == Ok(term, p + |Render(term)|);
    PrimaryStep(t, p, term, p + |Render(term)|);
  }

  /** Parsing the tokens of a term that stands before a postfix operator reaches the
      postfix loop with exactly that term. */
  lemma {:induction false} ParseTargetRender(t: seq<Token>, p: nat, term: Term)
    requires WellFormed(term)
    requires StartsWith(t, p, RenderTarget(term))
    requires Peek(t, p + |RenderTarget(term)|) != SymbolToken(LeftParenthesis)
    ensures Parse(t, p) == Postfix(t, p + |RenderTarget(term)|, term)
    decreases Size(term), 10
  {
    match term
    case Index(_, _) =>
      IndexRender(t, p, term);
    case Slice(_, _, _, _) =>
      SliceRender(t, p, term);
    case _ =>
      PrimaryRender(t, p, term);
      PrimaryStep(t, p, term, p + |RenderTarget(term)|);
  }

  /** The tokens of a term other than an index or a slice are read by the switch of
      the parser alone. */
  lemma {:induction false} PrimaryRender(t: seq<Token>, p: nat, term: Term)
    requires !term.Index? && !term.Slice? && WellFormed(term)
    requires StartsWith(t, p, RenderTarget(term))
    requires Peek(t, p + |RenderTarget(term)|) != SymbolToken(LeftParenthesis)
    ensures Primary(t, p) == Ok(term, p + |RenderTarget(term)|)
    decreases Size(term), 9
  {
    StartsWithPeek(t, p, RenderTarget(term));
    match term
    case Value(_) =>
    case Variable(_) =>
    case Function(_, _) =>
      FunctionRender(t, p, term);
    case List(_) =>
      ListRender(t, p, term);
    case Map(_) =>
      MapRender(t, p, term);
    case Unary(_, _) =>
      ParenthesisedRender(t, p, term);
  }

  lemma {:induction false} FunctionRender(t: seq<Token>, p: nat, term: Term)
    requires term.Function? && WellFormed(term)
    requires StartsWith(t, p, Render(term))
    ensures Primary(t, p) == Ok(term, p + |Render(term)|)
    decreases Size(term), 8
  {
    FunctionTokens(t, p, term);
    ParseExpressionsRender(t, p + 2, term.args, RightParenthesis);
    FunctionStep(t, p, term.name, term.args, p + |Render(term)|);
  }

  /** The tokens of a call: its name, `(`, the arguments, then `)`. */
  lemma FunctionTokens(t: seq<Token>, p: nat, term: Term)
    requires term.Function? && StartsWith(t, p, Render(term))
    ensures Peek(t, p) == IdentifierToken(term.name) && Peek(t, p + 1) == SymbolToken(LeftParenthesis)
    ensures StartsWith(t, p + 2, RenderItems(term.args))
    ensures Peek(t, p + 2 + |RenderItems(term.args)|) == SymbolToken(RightParenthesis)
    ensures |Render(term)| == |RenderItems(term.args)| + 3
  {
    var args := RenderItems(term.args);
    var rest := [SymbolToken(LeftParenthesis)] + args + [SymbolToken(RightParenthesis)];
    assert Render(term) == [] + [IdentifierToken(term.name)] + rest;
    SplitAround(t, p, [], IdentifierToken(term.name), rest);
    Bracketed(t, p + 1, SymbolToken(LeftParenthesis), args, SymbolToken(RightParenthesis));
  }

  lemma {:induction false} ListRender(t: seq<Token>, p: nat, term: Term)
    requires term.List? && WellFormed(term)
    requires StartsWith(t, p, Render(term))
    ensures Primary(t, p) == Ok(term, p + |Render(term)|)
    decreases Size(term), 8
  {
    var items := RenderItems(term.items);
    assert Render(term) == [SymbolToken(LeftBracket)] + items + [SymbolToken(RightBracket)];
    Bracketed(t, p, SymbolToken(LeftBracket), items, SymbolToken(RightBracket));
    ParseExpressionsRender(t, p + 1, term.items, RightBracket);
    ListStep(t, p, term.items, p + |Render(term)|);
  }

  lemma {:induction false} MapRender(t: seq<Token>, p: nat, term: Term)
    requires term.Map? && WellFormed(term)
    requires StartsWith(t, p, Render(term))
    ensures Primary(t, p) == Ok(term, p + |Render(term)|)
    decreases Size(term), 8
  {
    var entries := RenderEntries(term.entries);
    assert Render(term) == [SymbolToken(LeftCurlyBracket)] + entries + [SymbolToken(RightCurlyBracket)];
    Bracketed(t, p, SymbolToken(LeftCurlyBracket), entries, SymbolToken(RightCurlyBracket));
    assert RepeatedKey(term.entries).None? && EntriesDuplicate(term.entries).None?;
    ParseMapRender(t, p + 1, term.entries);
    MapStep(t, p, term.entries, p + |Render(term)|);
  }

  lemma {:induction false} ParenthesisedRender(t: seq<Token>, p: nat, term: Term)
    requires term.Unary? && WellFormed(term)
    requires StartsWith(t, p, RenderTarget(term))
    ensures Primary(t, p) == Ok(term, p + |RenderTarget(term)|)
    decreases Size(term), 8
  {
    var inner := Render(term);
    Bracketed(t, p, SymbolToken(LeftParenthesis), inner, SymbolToken(RightParenthesis));
    ParseUnaryRender(t, p + 1, term);
    ParenthesisStep(t, p, term, p + 1 + |inner|);
  }

  /** `name(` opens a call whose arguments parseExpressions reads. */
  lemma FunctionStep(t: seq<Token>, p: nat, name: string, args: seq<Term>, q: nat)
    requires Peek(t, p) == IdentifierToken(name) && Peek(t, p + 1) == SymbolToken(LeftParenthesis)
    requires p + 2 <= |t| && ParseExpressions(t, p + 2, RightParenthesis) == Ok(args, q)
    ensures Primary(t, p) == Ok(Function(name, args), q)
  {
  }

  /** `[` opens a list literal whose items parseExpressions reads. */
  lemma ListStep(t: seq<Token>, p: nat, items: seq<Term>, q: nat)
    requires Peek(t, p) == SymbolToken(LeftBracket)
    requires p + 1 <= |t| && ParseExpressions(t, p + 1, RightBracket) == Ok(items, q)
    ensures Primary(t, p) == Ok(List(items), q)
  {
  }

  /** `{` opens a map literal whose entries parseMap reads. */
  lemma MapStep(t: seq<Token>, p: nat, entries: seq<Entry>, q: nat)
    requires Peek(t, p) == SymbolToken(LeftCurlyBracket)
    requires p + 1 <= |t| && ParseMap(t, p + 1) == Ok(entries, q)
    ensures Primary(t, p) == Ok(Map(entries), q)
  {
  }

  /** `(` opens a parenthesised term that must be closed by `)`. */
  lemma ParenthesisStep(t: seq<Token>, p: nat, term: Term, q: nat)
    requires Peek(t, p) == SymbolToken(LeftParenthesis)
    requires p + 1 <= |t| && Parse(t, p + 1) == Ok(term, q) && Peek(t, q) == SymbolToken(RightParenthesis)
    ensures Primary(t, p) == Ok(term, q + 1)
  {
  }

  lemma {:induction false} IndexRender(t: seq<Token>, p: nat, term: Term)
    requires term.Index? && WellFormed(term)
    requires StartsWith(t, p, Render(term))
    ensures Parse(t, p) == Postfix(t, p + |Render(term)|, term)
    decreases Size(term), 8
  {
    var head := RenderTarget(term.target);
    var index := Render(term.index);
    var q := p + |head| + 1;
    IndexTokens(t, p, term, head, index);
    assert Parse(t, p) == Postfix(t, q - 1, term.target) by {
      ParseTargetRender(t, p, term.target);
    }
    assert ParseIndex(t, q, term.target) == Ok(term, q + |index| + 1) by {
      IndexTailRender(t, q, term);
    }
    IndexStep(t, q - 1, term.target, term, q + |index| + 1);
  }

  /** The tokens of an index term: its target, `[`, then the index and `]`. */
  lemma IndexTokens(t: seq<Token>, p: nat, term: Term, head: seq<Token>, index: seq<Token>)
    requires term.Index? && head == RenderTarget(term.target) && index == Render(term.index)
    requires StartsWith(t, p, Render(term))
    ensures StartsWith(t, p, head) && Peek(t, p + |head|) == SymbolToken(LeftBracket)
    ensures StartsWith(t, p + |head| + 1, index + [SymbolToken(RightBracket)])
    ensures |Render(term)| == |head| + 1 + |index| + 1
  {
    assert Render(term) == head + [SymbolToken(LeftBracket)] + (index + [SymbolToken(RightBracket)]);
    SplitAround(t, p, head, SymbolToken(LeftBracket), index + [SymbolToken(RightBracket)]);
  }

  /** From `[` on: the index, then `]`. */
  lemma {:induction false} IndexTailRender(t: seq<Token>, p: nat, term: Term)
    requires term.Index? && WellFormed(term)
    requires StartsWith(t, p, Render(term.index) + [SymbolToken(RightBracket)])
    ensures ParseIndex(t, p, term.target) == Ok(term, p + |Render(term.index)| + 1)
    decreases Size(term), 7
  {
    var index := Render(term.index);
    StartsWithConcat(t, p, index, [SymbolToken(RightBracket)]);
    StartsWithPeek(t, p + |index|, [SymbolToken(RightBracket)]);
    StartsWithPeek(t, p, index);
    ParseRender(t, p, term.index);
    IndexCaseStep(t, p, term.target, term.index, p + |index|);
  }

  lemma {:induction false} SliceRender(t: seq<Token>, p: nat, term: Term)
    requires term.Slice? && WellFormed(term)
    requires StartsWith(t, p, Render(term))
    ensures Parse(t, p) == Postfix(t, p + |Render(term)|, term)
    decreases Size(term), 8
  {
    var head := RenderTarget(term.target);
    var body := SliceBody(term.start, term.stop, term.step);
    var q := p + |head| + 1;
    assert StartsWith(t, p, head) && Peek(t, q - 1) == SymbolToken(LeftBracket) && StartsWith(t, q, body) by {
      SplitAround(t, p, head, SymbolToken(LeftBracket), body);
    }
    assert Parse(t, p) == Postfix(t, q - 1, term.target) by {
      SliceParts(term);
      ParseTargetRender(t, p, term.target);
    }
    assert ParseIndex(t, q, term.target) == Ok(term, q + |body|) by {
      SliceBodyRender(t, q, term);
    }
    IndexStep(t, q - 1, term.target, term, q + |body|);
  }

  /** What a slice term is made of is well-formed when the slice is. */
  lemma SliceParts(term: Term)
    requires term.Slice? && WellFormed(term)
    ensures WellFormed(term.target)
    ensures term.start.Some? ==> WellFormed(term.start.value) && Size(term.start.value) < Size(term)
    ensures term.stop.Some? ==> WellFormed(term.stop.value) && Size(term.stop.value) < Size(term)
    ensures term.step.Some? ==> WellFormed(term.step.value) && Size(term.step.value) < Size(term)
  {
    assert PartDuplicate(term.start).None? && PartDuplicate(term.stop).None? && PartDuplicate(term.step).None?;
    assert Size(term) > PartSize(term.start) + PartSize(term.stop) + PartSize(term.step);
  }

  /** From `[` on: the start, the colon, then the rest of the slice. */
  lemma {:induction false} SliceBodyRender(t: seq<Token>, p: nat, term: Term)
    requires term.Slice? && WellFormed(term)
    requires StartsWith(t, p, SliceBody(term.start, term.stop, term.step))
    ensures ParseIndex(t, p, term.target) == Ok(term, p + |SliceBody(term.start, term.stop, term.step)|)
    decreases Size(term), 7
  {
    var a := RenderPart(term.start);
    var tail := SliceTail(term.stop, term.step);
    var q := p + |a| + 1;
    SplitAround(t, p, a, SymbolToken(Colon), tail);
    var stopped := SliceStop(t, q, term.target, term.start);
    assert ParseIndex(t, p, term.target) == stopped by {
      SliceStartRender(t, p, term);
    }
    assert stopped == Ok(term, q + |tail|) by {
      SliceTailRender(t, q, term);
    }
  }

  /** The start, if there is one, then the first colon. */
  lemma {:induction false} SliceStartRender(t: seq<Token>, p: nat, term: Term)
    requires term.Slice? && WellFormed(term)
    requires StartsWith(t, p, RenderPart(term.start))
    requires Peek(t, p + |RenderPart(term.start)|) == SymbolToken(Colon)
    ensures p + |RenderPart(term.start)| < |t|
    ensures ParseIndex(t, p, term.target) == SliceStop(t, p + |RenderPart(term.start)| + 1, term.target, term.start)
    decreases Size(term), 6
  {
    var a := RenderPart(term.start);
    if term.start.Some? {
      assert a == Render(term.start.value);
      StartThenColon(t, p, term, a);
    }
  }

  /** A start followed by the first colon: parsing goes on with the stop. */
  lemma {:induction false} StartThenColon(t: seq<Token>, p: nat, term: Term, a: seq<Token>)
    requires term.Slice? && term.start.Some? && WellFormed(term) && a == Render(term.start.value)
    requires StartsWith(t, p, a) && Peek(t, p + |a|) == SymbolToken(Colon)
    ensures ParseIndex(t, p, term.target) == SliceStop(t, p + |a| + 1, term.target, term.start)
    decreases Size(term), 5
  {
    SliceParts(term);
    StartsWithPeek(t, p, a);
    ParseRender(t, p, term.start.value);
    StartStep(t, p, term.target, term.start.value, p + |a|);
  }

  /** After the first colon: the stop, then the step if there is one, then `]`. */
  lemma {:induction false} SliceTailRender(t: seq<Token>, p: nat, term: Term)
    requires term.Slice? && WellFormed(term)
    requires StartsWith(t, p, SliceTail(term.stop, term.step))
    ensures SliceStop(t, p, term.target, term.start) == Ok(term, p + |SliceTail(term.stop, term.step)|)
    decreases Size(term), 6
  {
    var tail := SliceTail(term.stop, term.step);
    match (term.stop, term.step) {
      case (None, None) =>
        assert tail == [SymbolToken(RightBracket)];
        StartsWithPeek(t, p, tail);
      case (None, Some(k)) =>
        assert RenderPart(term.stop) == [] && StepPart(term.step) == [SymbolToken(Colon)] + Render(k);
        assert tail == [SymbolToken(Colon)] + Render(k) + [SymbolToken(RightBracket)];
        Bracketed(t, p, SymbolToken(Colon), Render(k), SymbolToken(RightBracket));
        SliceStepRender(t, p + 1, term);
      case (Some(_), None) =>
        StopCloseRender(t, p, term);
      case (Some(_), Some(_)) =>
        StopStepRender(t, p, term);
    }
  }

  /** A stop, then `]`. */
  lemma {:induction false} StopCloseRender(t: seq<Token>, p: nat, term: Term)
    requires term.Slice? && term.stop.Some? && term.step.None? && WellFormed(term)
    requires StartsWith(t, p, SliceTail(term.stop, term.step))
    ensures SliceStop(t, p, term.target, term.start) == Ok(term, p + |SliceTail(term.stop, term.step)|)
    decreases Size(term), 5
  {
    var b := Render(term.stop.value);
    assert SliceTail(term.stop, term.step) == b + [SymbolToken(RightBracket)];
    StartsWithConcat(t, p, b, [SymbolToken(RightBracket)]);
    StartsWithPeek(t, p + |b|, [SymbolToken(RightBracket)]);
    StartsWithPeek(t, p, b);
    SliceParts(term);
    ParseRender(t, p, term.stop.value);
    StopStep(t, p, term.target, term.start, term.stop.value, p + |b|);
  }

  /** A stop, then the second colon and the step, then `]`. */
  lemma {:induction false} StopStepRender(t: seq<Token>, p: nat, term: Term)
    requires term.Slice? && term.stop.Some? && term.step.Some? && WellFormed(term)
    requires StartsWith(t, p, SliceTail(term.stop, term.step))
    ensures SliceStop(t, p, term.target, term.start) == Ok(term, p + |SliceTail(term.stop, term.step)|)
    decreases Size(term), 5
  {
    var b := Render(term.stop.value);
    var k := Render(term.step.value);
    var q := p + |b| + 1;
    StopStepTokens(t, p, term, b, k);
    StopThenColon(t, p, term, b);
    SliceStepRender(t, q, term);
  }

  /** A stop followed by the second colon: parsing goes on with the step. */
  lemma {:induction false} StopThenColon(t: seq<Token>, p: nat, term: Term, b: seq<Token>)
    requires term.Slice? && term.stop.Some? && WellFormed(term) && b == Render(term.stop.value)
    requires StartsWith(t, p, b) && Peek(t, p) == b[0] && Peek(t, p + |b|) == SymbolToken(Colon)
    ensures SliceStop(t, p, term.target, term.start) == SliceStep(t, p + |b| + 1, term.target, term.start, term.stop)
    decreases Size(term), 4
  {
    SliceParts(term);
    ParseRender(t, p, term.stop.value);
    StopStep(t, p, term.target, term.start, term.stop.value, p + |b|);
  }

  /** The tokens after the first colon: the stop, `:`, the step, then `]`. */
  lemma StopStepTokens(t: seq<Token>, p: nat, term: Term, b: seq<Token>, k: seq<Token>)
    requires term.Slice? && term.stop.Some? && term.step.Some?
    requires b == Render(term.stop.value) && k == Render(term.step.value)
    requires StartsWith(t, p, SliceTail(term.stop, term.step))
    ensures StartsWith(t, p, b) && Peek(t, p) == b[0]
    ensures Peek(t, p + |b|) == SymbolToken(Colon)
    ensures StartsWith(t, p + |b| + 1, k) && Peek(t, p + |b| + 1 + |k|) == SymbolToken(RightBracket)
    ensures |SliceTail(term.stop, term.step)| == |b| + |k| + 2
  {
    assert SliceTail(term.stop, term.step) == b + ([SymbolToken(Colon)] + k + [SymbolToken(RightBracket)]);
    StartsWithConcat(t, p, b, [SymbolToken(Colon)] + k + [SymbolToken(RightBracket)]);
    Bracketed(t, p + |b|, SymbolToken(Colon), k, SymbolToken(RightBracket));
    StartsWithPeek(t, p, b);
  }

  /** After the second colon: the step, then `]`. */
  lemma {:induction false} SliceStepRender(t: seq<Token>, p: nat, term: Term)
    requires term.Slice? && term.step.Some? && WellFormed(term)
    requires StartsWith(t, p, Render(term.step.value))
    requires Peek(t, p + |Render(term.step.value)|) == SymbolToken(RightBracket)
    ensures SliceStep(t, p, term.target, term.start, term.stop) == Ok(term, p + |Render(term.step.value)| + 1)
    decreases Size(term), 4
  {
    SliceParts(term);
    StartsWithPeek(t, p, Render(term.step.value));
    ParseRender(t, p, term.step.value);
  }

  /** A rendered list of terms followed by its closer parses back to the same terms, in order. */
  lemma {:induction false} ParseExpressionsRender(t: seq<Token>, p: nat, items: seq<Term>, end: Symbol)
    requires end == RightBracket || end == RightParenthesis
    requires ItemsDuplicate(items).None?
    requires StartsWith(t, p, RenderItems(items))
    requires Peek(t, p + |RenderItems(items)|) == SymbolToken(end)
    ensures ParseExpressions(t, p, end) == Ok(items, p + |RenderItems(items)| + 1)
    decreases ListSize(items), 15
  {
    if items != [] {
      StartsWithPeek(t, p, RenderItems(items));
      ParseItemsRender(t, p, items, end, []);
    }
  }

  lemma {:induction false} ParseItemsRender(t: seq<Token>, p: nat, items: seq<Term>, end: Symbol, done: seq<Term>)
    requires end == RightBracket || end == RightParenthesis
    requires |items| > 0
    requires ItemsDuplicate(items).None?
    requires StartsWith(t, p, RenderItems(items))
    requires Peek(t, p + |RenderItems(items)|) == SymbolToken(end)
    ensures ParseItems(t, p, end, done) == Ok(done + items, p + |RenderItems(items)| + 1)
    decreases ListSize(items), 14
  {
    if |items| == 1 {
      ParseRender(t, p, items[0]);
      ItemsClose(t, p, end, done, items[0], p + |Render(items[0])|);
      ConsFirst(done, items);
    } else {
      MoreItemsRender(t, p, items, end, done);
    }
  }

  lemma {:induction false} MoreItemsRender(t: seq<Token>, p: nat, items: seq<Term>, end: Symbol, done: seq<Term>)
    requires end == RightBracket || end == RightParenthesis
    requires |items| > 1
    requires ItemsDuplicate(items).None?
    requires StartsWith(t, p, RenderItems(items))
    requires Peek(t, p + |RenderItems(items)|) == SymbolToken(end)
    ensures ParseItems(t, p, end, done) == Ok(done + items, p + |RenderItems(items)| + 1)
    decreases ListSize(items), 13
  {
    var first := Render(items[0]);
    var rest := RenderItems(items[1..]);
    var q := p + |first|;
    ItemsTokens(t, p, items, first, rest);
    ItemsParts(items);
    ItemThenComma(t, p, end, done, items[0], first);
    assert ParseItems(t, q + 1, end, done + [items[0]]) == Ok(done + [items[0]] + items[1..], q + 1 + |rest| + 1) by {
      ParseItemsRender(t, q + 1, items[1..], end, done + [items[0]]);
    }
    ConsFirst(done, items);
  }

  /** An item followed by a comma: parsing goes on with the next item. */
  lemma {:induction false} ItemThenComma(t: seq<Token>, p: nat, end: Symbol, done: seq<Term>, term: Term, first: seq<Token>)
    requires WellFormed(term) && first == Render(term)
    requires StartsWith(t, p, first) && Peek(t, p + |first|) == SymbolToken(Comma)
    ensures ParseItems(t, p, end, done) == ParseItems(t, p + |first| + 1, end, done + [term])
    decreases Size(term), 12
  {
    ParseRender(t, p, term);
    ItemsComma(t, p, end, done, term, p + |first|);
  }

  /** The tokens of two or more items: the first item, a comma, then the others. */
  lemma ItemsTokens(t: seq<Token>, p: nat, items: seq<Term>, first: seq<Token>, rest: seq<Token>)
    requires |items| > 1 && first == Render(items[0]) && rest == RenderItems(items[1..])
    requires StartsWith(t, p, RenderItems(items))
    ensures StartsWith(t, p, first) && Peek(t, p + |first|) == SymbolToken(Comma) && StartsWith(t, p + |first| + 1, rest)
    ensures |RenderItems(items)| == |first| + 1 + |rest|
  {
    ItemsCons(items);
    SplitAroundLength(t, p, first, SymbolToken(Comma), rest);
  }

  /** One unfolding of RenderItems on two or more items. */
  lemma ItemsCons(items: seq<Term>)
    requires |items| > 1
    ensures RenderItems(items) == Render(items[0]) + [SymbolToken(Comma)] + RenderItems(items[1..])
  {
  }

  /** The first item and the others of a list without repeated map keys. */
  lemma ItemsParts(items: seq<Term>)
    requires |items| > 0 && ItemsDuplicate(items).None?
    ensures WellFormed(items[0]) && ItemsDuplicate(items[1..]).None?
    ensures Size(items[0]) <= ListSize(items) && ListSize(items[1..]) < ListSize(items)
  {
    assert ItemsDuplicate(items) == FirstOf(Duplicate(items[0]), ItemsDuplicate(items[1..]));
    assert ListSize(items) == Size(items[0]) + ListSize(items[1..]);
  }

  lemma ConsFirst<T>(done: seq<T>, items: seq<T>)
    requires |items| > 0
    ensures done + [items[0]] + items[1..] == done + items
    ensures |items| == 1 ==> done + [items[0]] == done + items
  {
  }

  /** A rendered map literal body followed by `}` parses back to the same entries, in order. */
  lemma {:induction false} ParseMapRender(t: seq<Token>, p: nat, entries: seq<Entry>)
    requires RepeatedKey(entries).None?
    requires EntriesDuplicate(entries).None?
    requires StartsWith(t, p, RenderEntries(entries))
    requires Peek(t, p + |RenderEntries(entries)|) == SymbolToken(RightCurlyBracket)
    ensures ParseMap(t, p) == Ok(entries, p + |RenderEntries(entries)| + 1)
    decreases EntriesSize(entries), 16
  {
    if entries != [] {
      StartsWithPeek(t, p, RenderEntries(entries));
      ParseEntriesRender(t, p, entries, []);
    }
  }

  lemma {:induction false} ParseEntriesRender(t: seq<Token>, p: nat, entries: seq<Entry>, done: seq<Entry>)
    requires |entries| > 0
    requires RepeatedKey(done + entries).None?
    requires EntriesDuplicate(entries).None?
    requires StartsWith(t, p, RenderEntries(entries))
    requires Peek(t, p + |RenderEntries(entries)|) == SymbolToken(RightCurlyBracket)
    ensures ParseEntries(t, p, done) == Ok(done + entries, p + |RenderEntries(entries)| + 1)
    decreases EntriesSize(entries), 15
  {
    if |entries| == 1 {
      var e := entries[0];
      ConsFirst(done, entries);
      EntryRender(t, p, e);
      EntriesClose(t, p, done, e, p + |RenderEntry(e)|);
    } else {
      MoreEntriesRender(t, p, entries, done);
    }
  }

  lemma {:induction false} MoreEntriesRender(t: seq<Token>, p: nat, entries: seq<Entry>, done: seq<Entry>)
    requires |entries| > 1
    requires RepeatedKey(done + entries).None?
    requires EntriesDuplicate(entries).None?
    requires StartsWith(t, p, RenderEntries(entries))
    requires Peek(t, p + |RenderEntries(entries)|) == SymbolToken(RightCurlyBracket)
    ensures ParseEntries(t, p, done) == Ok(done + entries, p + |RenderEntries(entries)| + 1)
    decreases EntriesSize(entries), 14
  {
    var e := entries[0];
    var first := RenderEntry(e);
    var rest := RenderEntries(entries[1..]);
    var q := p + |first|;
    EntriesTokens(t, p, entries, first, rest);
    EntriesParts(entries);
    assert ParseEntries(t, p, done) == ParseEntries(t, q + 1, done + [e]) by {
      EntryThenComma(t, p, done, e, first);
    }
    assert ParseEntries(t, q + 1, done + [e]) == Ok(done + [e] + entries[1..], q + 1 + |rest| + 1) by {
      KeysAfterFirst(done, entries);
      assert Peek(t, q + 1 + |rest|) == SymbolToken(RightCurlyBracket);
      ParseEntriesRender(t, q + 1, entries[1..], done + [e]);
    }
    ConsFirst(done, entries);
  }

  /** Moving the first entry over to the parsed ones keeps the same keys in the same order. */
  lemma KeysAfterFirst(done: seq<Entry>, entries: seq<Entry>)
    requires |entries| > 0
    ensures RepeatedKey(done + [entries[0]] + entries[1..]) == RepeatedKey(done + entries)
  {
    ConsFirst(done, entries);
  }

  /** An entry followed by a comma: parsing goes on with the next entry. */
  lemma {:induction false} EntryThenComma(t: seq<Token>, p: nat, done: seq<Entry>, e: Entry, first: seq<Token>)
    requires WellFormed(e.value) && first == RenderEntry(e)
    requires StartsWith(t, p, first) && Peek(t, p + |first|) == SymbolToken(Comma)
    ensures ParseEntries(t, p, done) == ParseEntries(t, p + |first| + 1, done + [e])
    decreases Size(e.value), 13
  {
    EntryRender(t, p, e);
    EntriesComma(t, p, done, e, p + |first|);
  }

  /** The first entry and the others of entries without repeated map keys. */
  lemma EntriesParts(entries: seq<Entry>)
    requires |entries| > 0 && EntriesDuplicate(entries).None?
    ensures WellFormed(entries[0].value) && EntriesDuplicate(entries[1..]).None?
    ensures Size(entries[0].value) <= EntriesSize(entries) && EntriesSize(entries[1..]) < EntriesSize(entries)
  {
    assert EntriesDuplicate(entries) == FirstOf(Duplicate(entries[0].value), EntriesDuplicate(entries[1..]));
    assert EntriesSize(entries) == Size(entries[0].value) + EntriesSize(entries[1..]);
  }

  /** The tokens of two or more entries: the first entry, a comma, then the others. */
  lemma EntriesTokens(t: seq<Token>, p: nat, entries: seq<Entry>, first: seq<Token>, rest: seq<Token>)
    requires |entries| > 1 && first == RenderEntry(entries[0]) && rest == RenderEntries(entries[1..])
    requires StartsWith(t, p, RenderEntries(entries))
    ensures StartsWith(t, p, first) && Peek(t, p + |first|) == SymbolToken(Comma) && StartsWith(t, p + |first| + 1, rest)
    ensures |RenderEntries(entries)| == |first| + 1 + |rest|
  {
    assert RenderEntries(entries) == first + [SymbolToken(Comma)] + rest;
    SplitAroundLength(t, p, first, SymbolToken(Comma), rest);
  }

  /** The key, the colon and the value of one rendered entry. */
  lemma {:induction false} EntryRender(t: seq<Token>, p: nat, e: Entry)
    requires WellFormed(e.value)
    requires StartsWith(t, p, RenderEntry(e))
    requires EndsTerm(Peek(t, p + |RenderEntry(e)|))
    ensures p + 2 <= |t| && t[p] == ValueToken(Str(e.key)) && t[p + 1] == SymbolToken(Colon)
    ensures Parse(t, p + 2) == Ok(e.value, p + |RenderEntry(e)|)
    decreases Size(e.value), 12
  {
    StartsWithConcat(t, p, [ValueToken(Str(e.key)), SymbolToken(Colon)], Render(e.value));
    StartsWithPair(t, p, ValueToken(Str(e.key)), SymbolToken(Colon));
    ParseRender(t, p + 2, e.value);
  }
}
